/** How a prospective call is classified: `check` and `wanderingStop` of src/agent/loop-detector.ts. */
module LoopVerdicts {
  import opened Wrappers
  import opened LoopLimits
  import opened LoopHistory
  import opened Numbers

  datatype Level = Fine | Warn | Critical
  datatype Detector = NoProgress | Wandering | GenericRepeat

  datatype Verdict = Verdict(level: Level, count: nat, detector: Detector)

  /** What the run bookkeeping (`ProbeRuns`) says of a prospective call: rounds and distinct signatures. */
  datatype RunLadder = RunLadder(rounds: nat, spread: nat)

  datatype Family = Searching | Fetching | Browsing

  /** Two tools of one family are two moves of the same probe; `None` for a tool that cannot wander. */
  function ProbeFamily(tool: string): Option<Family> {
    if tool == "os.web.search" then Some(Searching)
    else if tool == "os.web.fetch" || tool == "os.http.request" then Some(Fetching)
    else if "browser." <= tool then Some(Browsing)
    else None
  }

  /** Which tools are of which family. */
  lemma FamiliesExactly(tool: string)
    ensures ProbeFamily(tool) == Some(Searching) <==> tool == "os.web.search"
    ensures ProbeFamily(tool) == Some(Fetching) <==> tool in {"os.web.fetch", "os.http.request"}
    ensures ProbeFamily(tool) == Some(Browsing) <==> exists action: string :: tool == "browser." + action
  {
    if "browser." <= tool { assert tool == "browser." + tool[|"browser."|..]; }
    assert "os.web.search"[0] == "os.web.fetch"[0] == "os.http.request"[0] == 'o';
    forall action: string ensures ("browser." + action)[0] == 'b' {}
  }

  predicate IsWanderingProneTool(tool: string) { ProbeFamily(tool).Some? }

  ghost function WanderingWarning(history: seq<Entry>, l: Limits, call: Call, round: Option<nat>,
                                  ladder: RunLadder): Option<nat>
  {
    if ladder.rounds >= l.wandering then Some(ladder.spread)
    else if Spread(history, call, round) >= l.windowWarning then Some(Spread(history, call, round))
    else None
  }

  /** `check`: critical by the streak, wandering by either spread, else by plain repeats. */
  ghost function Classified(history: seq<Entry>, l: Limits, key: Key, round: Option<nat>, ladder: RunLadder): Verdict {
    var warn := WanderingWarning(history, l, key.call, round, ladder);
    if Streak(history, key) >= l.critical then Verdict(Critical, Streak(history, key), NoProgress)
    else if IsWanderingProneTool(key.call.tool) && warn.Some? && Repeats(history, Key(key.call, None)) == 0 then
      Verdict(Warn, warn.value, Wandering)
    else if Repeats(history, key) >= l.warning then Verdict(Warn, Repeats(history, key), GenericRepeat)
    else Verdict(Fine, 0, GenericRepeat)
  }

  /** Which rule stopped the turn, if any, and the spread it measured. */
  datatype Stop = Stop(escalated: bool, spread: nat, byCeiling: bool)

  /** `wanderingStop`. */
  ghost function Stopped(history: seq<Entry>, l: Limits, call: Call, round: Option<nat>, ladder: RunLadder): Stop {
    if !IsWanderingProneTool(call.tool) then Stop(false, 0, false)
    else if ladder.rounds >= l.escalation then Stop(true, ladder.spread, false)
    else if Spread(history, call, round) >= l.ceiling then Stop(true, Spread(history, call, round), true)
    else Stop(false, ladder.spread, false)
  }

  datatype SignalKind = BreakerSignal | CriticalSignal | WarnSignal

  /** What the gate tells the agent loop of a call; a warning blocks nothing. */
  datatype LoopSignal = LoopSignal(kind: SignalKind, count: nat, detector: Detector, blockedCount: nat)

  /** The signal of `runSyncLoopGate`: it names what ended the turn, not what the call looked like. */
  function Signalled(tripped: bool, stop: Stop, v: Verdict, breaker: nat): Option<LoopSignal> {
    if v.level.Critical? || tripped || stop.escalated then
      var stoppedByWandering := stop.escalated && !tripped && !v.level.Critical?;
      Some(LoopSignal(if tripped || stop.escalated then BreakerSignal else CriticalSignal,
                      if stoppedByWandering then stop.spread else if tripped then Max(v.count, breaker) else v.count,
                      if stoppedByWandering then Wandering else v.detector, 0))
    else if v.level.Warn? then Some(LoopSignal(WarnSignal, v.count, v.detector, 0))
    else None
  }

  /** The rung or cap that a signal's kind, count and detector stand for has really been reached. */
  ghost predicate Warranted(kind: SignalKind, count: nat, detector: Detector, history: seq<Entry>, l: Limits, key: Key,
                            round: Option<nat>, ladder: RunLadder, tripped: bool)
  {
    match kind
    case CriticalSignal => detector.NoProgress? && count == Streak(history, key) >= l.critical
    case WarnSignal =>
      if detector.GenericRepeat? then count == Repeats(history, key) >= l.warning
      else detector.Wandering? && Repeats(history, Key(key.call, None)) == 0 && count >= 1
           && ((count == ladder.spread && ladder.rounds >= l.wandering)
               || count == Spread(history, key.call, round) >= l.windowWarning)
    case BreakerSignal =>
      if tripped then count >= l.breaker
      else if Streak(history, key) >= l.critical then detector.NoProgress? && count == Streak(history, key)
      else detector.Wandering?
           && ((count == ladder.spread && ladder.rounds >= l.escalation)
               || count == Spread(history, key.call, round) >= l.ceiling)
  }

  /** No signal quotes a number its rule did not establish, and only refused calls are signalled as such. */
  lemma SignalIsWarranted(history: seq<Entry>, l: Limits, key: Key, round: Option<nat>, ladder: RunLadder,
                          tripped: bool)
    requires Ladder(l) && ladder.rounds <= ladder.spread
    ensures var stop := Stopped(history, l, key.call, round, ladder);
      var s := Signalled(tripped, stop, Classified(history, l, key, round, ladder), l.breaker);
      && (s.Some? ==> Warranted(s.value.kind, s.value.count, s.value.detector, history, l, key, round, ladder, tripped))
      && (s.Some? && !s.value.kind.WarnSignal? <==> Streak(history, key) >= l.critical || tripped || stop.escalated)
  {
  }

  // ----- exactly -----

  /** A wandering rule stops the call: by the rounds of its run, or by the spread of its window. */
  ghost predicate Wanders(history: seq<Entry>, l: Limits, call: Call, round: Option<nat>, ladder: RunLadder) {
    IsWanderingProneTool(call.tool) && (ladder.rounds >= l.escalation || Spread(history, call, round) >= l.ceiling)
  }

  /** A probe at a warn rung of either ladder whose call is not in the window in any epoch. */
  ghost predicate AtWarnRung(history: seq<Entry>, l: Limits, call: Call, round: Option<nat>, ladder: RunLadder) {
    && IsWanderingProneTool(call.tool) && Repeats(history, Key(call, None)) == 0
    && (ladder.rounds >= l.wandering || Spread(history, call, round) >= l.windowWarning)
  }

  /** The spread quoted of a probe: of the run if its ladder is at the rung, else of the window. */
  ghost function Quoted(history: seq<Entry>, call: Call, round: Option<nat>, ladder: RunLadder, rung: nat): nat {
    if ladder.rounds >= rung then ladder.spread else Spread(history, call, round)
  }

  /** When each classification comes, and the number it carries. */
  lemma ClassifiedExactly(history: seq<Entry>, l: Limits, key: Key, round: Option<nat>, ladder: RunLadder)
    ensures var v := Classified(history, l, key, round, ladder);
      var streak, repeats := Streak(history, key), Repeats(history, key);
      && (v.level.Critical? <==> streak >= l.critical)
      && (v.level.Critical? ==> v.detector.NoProgress? && v.count == streak)
      && (v.level.Warn? && v.detector.Wandering? <==>
            streak < l.critical && AtWarnRung(history, l, key.call, round, ladder))
      && (v.level.Warn? && v.detector.Wandering? ==> v.count == Quoted(history, key.call, round, ladder, l.wandering))
      && (v.level.Warn? && v.detector.GenericRepeat? <==>
            streak < l.critical && !AtWarnRung(history, l, key.call, round, ladder) && repeats >= l.warning)
      && (v.level.Warn? && v.detector.GenericRepeat? ==> v.count == repeats)
      && (v.level.Warn? ==> !v.detector.NoProgress?) && (v.level.Fine? ==> v.count == 0)
  {
  }

  lemma StoppedExactly(history: seq<Entry>, l: Limits, call: Call, round: Option<nat>, ladder: RunLadder)
    ensures var stop := Stopped(history, l, call, round, ladder);
      && (stop.escalated <==> Wanders(history, l, call, round, ladder))
      && (stop.escalated ==> stop.spread == Quoted(history, call, round, ladder, l.escalation))
      && (stop.byCeiling <==> stop.escalated && ladder.rounds < l.escalation)
  {
  }

  /**
   * What the gate must signal of a call: the breaker exactly if it has tripped or a wandering rule stops the call, a
   * critical streak exactly if nothing else refuses it, a warning exactly if nothing refuses it and it is at a rung
   * or repeated often enough; and of each the number that brought it about.
   */
  ghost predicate Due(signal: Option<LoopSignal>, history: seq<Entry>, l: Limits, key: Key, round: Option<nat>,
                      ladder: RunLadder, tripped: bool)
  {
    var streak, repeats := Streak(history, key), Repeats(history, key);
    var wanders, rung := Wanders(history, l, key.call, round, ladder), AtWarnRung(history, l, key.call, round, ladder);
    match signal
    case None => streak < l.critical && !tripped && !wanders && !rung && repeats < l.warning
    case Some(s) =>
      match s.kind
      case BreakerSignal =>
        && (tripped || wanders)
        && (streak >= l.critical ==>
              s.detector.NoProgress? && s.count == if tripped then Max(streak, l.breaker) else streak)
        && (streak < l.critical && !tripped ==>
              s.detector.Wandering? && s.count == Quoted(history, key.call, round, ladder, l.escalation))
        && (streak < l.critical && tripped ==>
              s.count == Max(l.breaker, if rung then Quoted(history, key.call, round, ladder, l.wandering)
                                        else if repeats >= l.warning then repeats else 0))
        && (streak < l.critical && tripped ==> (s.detector.Wandering? <==> rung) && !s.detector.NoProgress?)
      case CriticalSignal =>
        streak >= l.critical && !tripped && !wanders && s.detector.NoProgress? && s.count == streak
      case WarnSignal =>
        && streak < l.critical && !tripped && !wanders
        && (if rung then s.detector.Wandering? && s.count == Quoted(history, key.call, round, ladder, l.wandering)
            else repeats >= l.warning && s.detector.GenericRepeat? && s.count == repeats)
  }

  lemma SignalIsDue(history: seq<Entry>, l: Limits, key: Key, round: Option<nat>, ladder: RunLadder, tripped: bool)
    ensures var stop := Stopped(history, l, key.call, round, ladder);
      var signal := Signalled(tripped, stop, Classified(history, l, key, round, ladder), l.breaker);
      Due(signal, history, l, key, round, ladder, tripped)
  {
    ClassifiedExactly(history, l, key, round, ladder);
    StoppedExactly(history, l, key.call, round, ladder);
  }
}
