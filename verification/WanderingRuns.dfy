/** The window ceiling of the wandering detector over whole runs: src/agent/loop-detector.ts:191-208, 292-360. */
module WanderingRuns {
  import opened DistinctLists
  import opened Wrappers
  import opened LoopLimits
  import opened LoopHistory
  import opened LoopRuns
  import opened LoopVerdicts

  predicate IsProbe(e: Event, tool: string) { !e.Composite? && e.call.tool == tool }

  /** One call of the tool per step round: no entry of the tool shares the round of a new probe. */
  ghost predicate OneProbePerRound(events: seq<Event>, tool: string, size: nat) {
    forall i :: 0 <= i < |events| && IsProbe(events[i], tool) && events[i].round.Some? ==>
      forall e :: e in Window(events[..i], size) && e.call.tool == tool ==> e.round != events[i].round
  }

  /** The spread the gate measured at each probe of the tool, oldest first. */
  ghost function Spreads(events: seq<Event>, tool: string, size: nat): seq<nat> {
    if events == [] then []
    else
      var before, e := events[..|events| - 1], events[|events| - 1];
      Spreads(before, tool, size) +
        if IsProbe(e, tool) then [Spread(Window(before, size), e.call, e.round)] else []
  }

  lemma OneProbePerRoundBefore(events: seq<Event>, tool: string, size: nat)
    requires events != [] && OneProbePerRound(events, tool, size)
    ensures OneProbePerRound(events[..|events| - 1], tool, size)
  {
    var before := events[..|events| - 1];
    forall i | 0 <= i < |before| ensures before[i] == events[i] && before[..i] == events[..i] {}
  }

  /** No more distinct completed signatures than before, plus what this event completed. */
  lemma SeenAfter(history: seq<Entry>, e: Event, tool: string, size: nat)
    ensures Seen(AfterEvent(history, e, size), tool, None) <=
      Seen(history, tool, None) + if IsProbe(e, tool) then {e.call.args} else
        if Left(e).call.tool == tool then {Left(e).call.args} else {}
  {
    var grown := history + [Left(e)];
    SeenAppend(history, Left(e), tool, None);
    if |grown| > size { SeenDrop(grown, |grown| - size, tool, None); }
  }

  /** With one probe per round nothing is left out of the spread. */
  lemma SpreadCountsAll(history: seq<Entry>, call: Call, round: Option<nat>)
    requires round.Some? ==> forall e :: e in history && e.call.tool == call.tool ==> e.round != round
    ensures Seen(history, call.tool, round) == Seen(history, call.tool, None)
  {
    forall i | 0 <= i < |history| && history[i].call.tool == call.tool && round.Some?
      ensures history[i].round != round
    {
      assert history[i] in history;
    }
  }

  /** A probe completes at most its own spread; any other event completes nothing new for the tool. */
  lemma SeenBound(history: seq<Entry>, e: Event, tool: string, size: nat)
    requires tool != BATCH_LOOP_LABEL
    requires IsProbe(e, tool) && e.round.Some? ==>
      forall x :: x in history && x.call.tool == tool ==> x.round != e.round
    ensures var before, after := |Seen(history, tool, None)|, |Seen(AfterEvent(history, e, size), tool, None)|;
      if IsProbe(e, tool) then after <= Spread(history, e.call, e.round) <= before + 1 else after <= before
  {
    SeenAfter(history, e, tool, size);
    var all, after := Seen(history, tool, None), Seen(AfterEvent(history, e, size), tool, None);
    if IsProbe(e, tool) {
      SpreadCountsAll(history, e.call, e.round);
      SubsetSize(after, all + {e.call.args});
    } else {
      SubsetSize(after, all);
    }
  }

  /** From one probe of a tool to the next its spread rises by at most one, and it starts at one. */
  lemma {:induction false} SpreadRisesByOne(events: seq<Event>, tool: string, size: nat)
    requires tool != BATCH_LOOP_LABEL && OneProbePerRound(events, tool, size)
    ensures var s := Spreads(events, tool, size);
      && (s != [] ==> s[0] == 1)
      && (forall i :: 0 <= i < |s| - 1 ==> s[i + 1] <= s[i] + 1)
      && |Seen(Window(events, size), tool, None)| <= if s == [] then 0 else s[|s| - 1]
  {
    if events == [] {
      assert Seen([], tool, None) == {};
    } else {
      var before, e := events[..|events| - 1], events[|events| - 1];
      OneProbePerRoundBefore(events, tool, size);
      SpreadRisesByOne(before, tool, size);
      SeenBound(Window(before, size), e, tool, size);
      if IsProbe(e, tool) {
        var spread := Spread(Window(before, size), e.call, e.round);
        assert spread >= 1;
        RisesMore(Spreads(before, tool, size), spread, |Seen(Window(before, size), tool, None)|);
      }
    }
  }

  lemma RisesMore(s: seq<nat>, x: nat, seen: nat)
    requires (s != [] ==> s[0] == 1) && forall i :: 0 <= i < |s| - 1 ==> s[i + 1] <= s[i] + 1
    requires seen <= (if s == [] then 0 else s[|s| - 1]) && 1 <= x <= seen + 1
    ensures (s + [x])[0] == 1 && forall i :: 0 <= i < |s + [x]| - 1 ==> (s + [x])[i + 1] <= (s + [x])[i] + 1
  {
  }

  /**
   * For every option set: whenever the ceiling rule fires, the probe of that tool just before had
   * already met the window's warn rung.
   */
  lemma CeilingComesAfterRung(o: Options, events: seq<Event>, tool: string, i: nat)
    requires var l := Derived(o); tool != BATCH_LOOP_LABEL && OneProbePerRound(events, tool, l.historySize)
    requires i < |Spreads(events, tool, Derived(o).historySize)|
    requires Spreads(events, tool, Derived(o).historySize)[i] >= Derived(o).ceiling
    ensures i >= 1 && Spreads(events, tool, Derived(o).historySize)[i - 1] >= Derived(o).windowWarning
  {
    EveryOptionSetClimbs(o);
    SpreadRisesByOne(events, tool, Derived(o).historySize);
    var s := Spreads(events, tool, Derived(o).historySize);
    assert i == 0 || s[i - 1 + 1] <= s[i - 1] + 1;
  }

  // ----- from the rung to the warning -----

  ghost predicate AtRung(events: seq<Event>, tool: string, l: Limits, i: nat)
    requires i < |events|
  {
    && IsProbe(events[i], tool)
    && Spread(Window(events[..i], l.historySize), events[i].call, events[i].round) >= l.windowWarning
  }

  /** No probe so far has met the warn rung. */
  ghost predicate BelowRung(events: seq<Event>, tool: string, l: Limits) {
    forall i: nat :: i < |events| ==> !AtRung(events, tool, l, i)
  }

  /** The i-th event is the first probe of the tool to meet the window's warn rung. */
  ghost predicate FirstAtRung(events: seq<Event>, tool: string, l: Limits, i: nat) {
    i < |events| && AtRung(events, tool, l, i) && BelowRung(events[..i], tool, l)
  }

  lemma RungsBefore(events: seq<Event>, tool: string, l: Limits, n: nat)
    requires n <= |events|
    ensures forall i: nat :: i < n ==> (AtRung(events[..n], tool, l, i) <==> AtRung(events, tool, l, i))
  {
    forall i | 0 <= i < n ensures events[..n][i] == events[i] && events[..n][..i] == events[..i] {}
  }

  lemma {:induction false} LeastAtRung(events: seq<Event>, tool: string, l: Limits, n: nat) returns (i: nat)
    requires n <= |events| && exists k: nat :: k < n && AtRung(events, tool, l, k)
    ensures i < n && AtRung(events, tool, l, i) && forall k: nat :: k < i ==> !AtRung(events, tool, l, k)
  {
    if exists k: nat :: k < n - 1 && AtRung(events, tool, l, k) {
      i := LeastAtRung(events, tool, l, n - 1);
    } else {
      i := n - 1;
    }
  }

  lemma FindFirst(events: seq<Event>, tool: string, l: Limits) returns (i: nat)
    requires !BelowRung(events, tool, l)
    ensures FirstAtRung(events, tool, l, i)
  {
    i := LeastAtRung(events, tool, l, |events|);
    RungsBefore(events, tool, l, i);
  }

  lemma {:induction false} FewBelowRung(events: seq<Event>, tool: string, l: Limits)
    requires Ladder(l) && tool != BATCH_LOOP_LABEL
    requires OneProbePerRound(events, tool, l.historySize) && BelowRung(events, tool, l)
    ensures |Seen(Window(events, l.historySize), tool, None)| < l.windowWarning
  {
    if events == [] {
      assert Seen([], tool, None) == {};
    } else {
      var before, e := events[..|events| - 1], events[|events| - 1];
      OneProbePerRoundBefore(events, tool, l.historySize);
      RungsBefore(events, tool, l, |before|);
      FewBelowRung(before, tool, l);
      SeenBound(Window(before, l.historySize), e, tool, l.historySize);
      assert !AtRung(events, tool, l, |before|);
    }
  }

  lemma GrowsByOne(seen: set<string>, args: string)
    ensures |seen + {args}| <= |seen| + 1
    ensures |seen + {args}| > |seen| ==> args !in seen
  {
    assert args in seen ==> seen + {args} == seen;
  }

  ghost predicate FreshRound(history: seq<Entry>, call: Call, round: Option<nat>) {
    round.Some? ==> forall e :: e in history && e.call.tool == call.tool ==> e.round != round
  }

  lemma RoundIsFresh(events: seq<Event>, tool: string, size: nat, i: nat)
    requires OneProbePerRound(events, tool, size) && i < |events| && IsProbe(events[i], tool)
    ensures FreshRound(Window(events[..i], size), events[i].call, events[i].round)
    ensures OneProbePerRound(events[..i], tool, size)
  {
    forall k | 0 <= k < i ensures events[..i][k] == events[k] && events[..i][..k] == events[..k] {}
  }

  /** The first call to meet the rung has no result in the window yet. */
  lemma FirstIsNew(events: seq<Event>, tool: string, l: Limits, i: nat)
    requires Ladder(l) && tool != BATCH_LOOP_LABEL
    requires OneProbePerRound(events, tool, l.historySize) && FirstAtRung(events, tool, l, i)
    ensures events[i].call.args !in Seen(Window(events[..i], l.historySize), tool, None)
  {
    RoundIsFresh(events, tool, l.historySize, i);
    FewBelowRung(events[..i], tool, l);
    SpreadCountsAll(Window(events[..i], l.historySize), events[i].call, events[i].round);
    GrowsByOne(Seen(Window(events[..i], l.historySize), tool, None), events[i].call.args);
  }

  // ----- when the warning is given -----

  predicate IsWandering(v: Verdict) { v.level.Warn? && v.detector.Wandering? }

  /** The run ladder or the window ladder has reached its warn rung. */
  ghost predicate AnyRung(history: seq<Entry>, l: Limits, call: Call, round: Option<nat>, ladder: RunLadder) {
    ladder.rounds >= l.wandering || Spread(history, call, round) >= l.windowWarning
  }

  lemma {:induction false} NoRepeatsNoResults(history: seq<Entry>, key: Key)
    requires Repeats(history, key) == 0
    ensures Results(history, key) == []
  {
    if history != [] { NoRepeatsNoResults(history[..|history| - 1], key); }
  }

  /** `check` words a probe as wandering exactly when a ladder is at its rung and the call is not in the window. */
  lemma WordedExactly(history: seq<Entry>, l: Limits, call: Call, round: Option<nat>, ladder: RunLadder)
    requires Ladder(l) && IsWanderingProneTool(call.tool)
    ensures IsWandering(Classified(history, l, Key(call, None), round, ladder)) <==>
      (AnyRung(history, l, call, round, ladder) && Repeats(history, Key(call, None)) == 0)
  {
    if Repeats(history, Key(call, None)) == 0 { NoRepeatsNoResults(history, Key(call, None)); }
  }

  /** The i-th event is a probe of the tool that `check` classified as wandering before it ran. */
  ghost predicate WarnedAt(events: seq<Event>, l: Limits, tool: string, i: nat, ladder: RunLadder) {
    && i < |events| && IsProbe(events[i], tool)
    && IsWandering(Classified(Window(events[..i], l.historySize), l, Key(events[i].call, None), events[i].round,
                              ladder))
  }

  ghost predicate RungAt(events: seq<Event>, l: Limits, tool: string, i: nat, ladder: RunLadder)
    requires i < |events|
  {
    IsProbe(events[i], tool) && AnyRung(Window(events[..i], l.historySize), l, events[i].call, events[i].round, ladder)
  }

  /** The i-th probe's own call was still in the window, run, refused or unanswered. */
  ghost predicate HiddenAt(events: seq<Event>, l: Limits, i: nat)
    requires i < |events|
  {
    !events[i].Composite? && Repeats(Window(events[..i], l.historySize), Key(events[i].call, None)) > 0
  }

  /** The window held that very call without a result: refused, unanswered, or come back with nothing. */
  ghost predicate LeftOpen(events: seq<Event>, l: Limits, i: nat)
    requires i < |events|
  {
    !events[i].Composite? && exists e :: e in Window(events[..i], l.historySize)
                                         && Matches(e, Key(events[i].call, None)) && !Completed(e)
  }

  lemma {:induction false} RepeatsMeansPresent(history: seq<Entry>, key: Key)
    ensures Repeats(history, key) > 0 <==> exists e :: e in history && Matches(e, key)
  {
    if history != [] {
      var before, last := history[..|history| - 1], history[|history| - 1];
      RepeatsMeansPresent(before, key);
      assert history == before + [last];
    }
  }

  /** Nothing of the call is finished, so if it is in the window at all it was left open there. */
  lemma OpenIfPresent(history: seq<Entry>, call: Call)
    requires call.args !in Seen(history, call.tool, None)
    ensures Repeats(history, Key(call, None)) > 0 <==>
      exists e :: e in history && Matches(e, Key(call, None)) && !Completed(e)
  {
    RepeatsMeansPresent(history, Key(call, None));
    CompletedIsSeen(history);
  }

  lemma CompletedIsSeen(history: seq<Entry>)
    ensures forall e :: e in history && Completed(e) ==> e.call.args in Seen(history, e.call.tool, None)
  {
    forall e | e in history && Completed(e) ensures e.call.args in Seen(history, e.call.tool, None) {
      var i :| 0 <= i < |history| && history[i] == e;
    }
  }

  /** The first probe at the rung is warned exactly unless the window holds that very call left open. */
  lemma FirstWarnedExactly(events: seq<Event>, tool: string, l: Limits, i: nat, ladder: RunLadder)
    requires Ladder(l) && IsWanderingProneTool(tool)
    requires OneProbePerRound(events, tool, l.historySize) && FirstAtRung(events, tool, l, i)
    ensures WarnedAt(events, l, tool, i, ladder) <==> !LeftOpen(events, l, i)
    ensures HiddenAt(events, l, i) <==> LeftOpen(events, l, i)
  {
    var history := Window(events[..i], l.historySize);
    FirstIsNew(events, tool, l, i);
    OpenIfPresent(history, events[i].call);
    WordedExactly(history, l, events[i].call, events[i].round, ladder);
  }

  ghost predicate NeverWarned(events: seq<Event>, l: Limits, tool: string, ladders: nat -> RunLadder) {
    forall i: nat :: i < |events| ==> !WarnedAt(events, l, tool, i, ladders(i))
  }

  /** No warning was given exactly when each probe at a rung repeated a call still in the window. */
  lemma UnwarnedExactly(l: Limits, events: seq<Event>, tool: string, ladders: nat -> RunLadder)
    requires Ladder(l) && IsWanderingProneTool(tool)
    ensures NeverWarned(events, l, tool, ladders) <==>
      forall i: nat :: i < |events| && RungAt(events, l, tool, i, ladders(i)) ==> HiddenAt(events, l, i)
  {
    forall i: nat | i < |events| && IsProbe(events[i], tool)
      ensures WarnedAt(events, l, tool, i, ladders(i)) <==>
        RungAt(events, l, tool, i, ladders(i)) && !HiddenAt(events, l, i)
    {
      WordedExactly(Window(events[..i], l.historySize), l, events[i].call, events[i].round, ladders(i));
    }
  }

  // ----- from the warning to the stop -----

  /** The gate stops this call, in a step round of its own, because the window has reached the ceiling. */
  ghost predicate StopsAtCeiling(events: seq<Event>, l: Limits, call: Call, round: Option<nat>, ladder: RunLadder) {
    && FreshRound(Window(events, l.historySize), call, round)
    && Stopped(Window(events, l.historySize), l, call, round, ladder).byCeiling
  }

  lemma StopNeedsRung(events: seq<Event>, l: Limits, call: Call, round: Option<nat>, ladder: RunLadder)
    requires Ladder(l) && OneProbePerRound(events, call.tool, l.historySize)
    requires StopsAtCeiling(events, l, call, round, ladder)
    ensures IsWanderingProneTool(call.tool) && !BelowRung(events, call.tool, l)
  {
    var history := Window(events, l.historySize);
    SpreadCountsAll(history, call, round);
    GrowsByOne(Seen(history, call.tool, None), call.args);
    if BelowRung(events, call.tool, l) {
      FewBelowRung(events, call.tool, l);
      assert false;
    }
  }

  /**
   * For every option set and every run, with one probe of the tool per round, that the ceiling stops: some
   * earlier probe was the first at the warn rung, and it was warned exactly unless the window held that very
   * call refused or unanswered. The stop comes unwarned exactly if so, and if every other probe at a rung
   * repeated a call still in the window.
   */
  lemma UnwarnedStopExactly(o: Options, events: seq<Event>, call: Call, round: Option<nat>, ladders: nat -> RunLadder)
    returns (i: nat)
    requires OneProbePerRound(events, call.tool, Derived(o).historySize)
    requires StopsAtCeiling(events, Derived(o), call, round, ladders(|events|))
    ensures FirstAtRung(events, call.tool, Derived(o), i)
    ensures WarnedAt(events, Derived(o), call.tool, i, ladders(i)) <==> !LeftOpen(events, Derived(o), i)
    ensures NeverWarned(events, Derived(o), call.tool, ladders) <==>
      (LeftOpen(events, Derived(o), i)
       && forall j: nat :: j < |events| && j != i && RungAt(events, Derived(o), call.tool, j, ladders(j)) ==>
            HiddenAt(events, Derived(o), j))
  {
    var l := Derived(o);
    EveryOptionSetClimbs(o);
    StopNeedsRung(events, l, call, round, ladders(|events|));
    i := FindFirst(events, call.tool, l);
    FirstWarnedExactly(events, call.tool, l, i, ladders(i));
    UnwarnedExactly(l, events, call.tool, ladders);
  }

  /** So the comment holds of every run whose first probe at the rung was not left open in the window. */
  lemma WarnedBeforeStop(o: Options, events: seq<Event>, call: Call, round: Option<nat>, ladders: nat -> RunLadder)
    requires OneProbePerRound(events, call.tool, Derived(o).historySize)
    requires StopsAtCeiling(events, Derived(o), call, round, ladders(|events|))
    requires forall i :: FirstAtRung(events, call.tool, Derived(o), i) ==> !LeftOpen(events, Derived(o), i)
    ensures exists i :: WarnedAt(events, Derived(o), call.tool, i, ladders(i))
  {
    var i := UnwarnedStopExactly(o, events, call, round, ladders);
    assert WarnedAt(events, Derived(o), call.tool, i, ladders(i));
  }

  /** No probe of the tool was refused, left unanswered or came back with nothing. */
  ghost predicate AllRan(events: seq<Event>, tool: string) {
    forall i :: 0 <= i < |events| && IsProbe(events[i], tool) ==> events[i].Ran? && events[i].result != ""
  }

  lemma {:induction false} NoneLeftOpen(events: seq<Event>, tool: string, size: nat)
    requires tool != BATCH_LOOP_LABEL && AllRan(events, tool)
    ensures forall e :: e in Window(events, size) && e.call.tool == tool ==> Completed(e)
  {
    if events != [] {
      var before, last := events[..|events| - 1], events[|events| - 1];
      forall i | 0 <= i < |before| ensures before[i] == events[i] {}
      NoneLeftOpen(before, tool, size);
      assert forall e :: e in Window(events, size) ==> e in Window(before, size) || e == Left(last);
    }
  }

  /** In particular of every turn in which no call of the tool was refused or left unanswered. */
  lemma RanMeansNotOpen(events: seq<Event>, tool: string, l: Limits, i: nat)
    requires tool != BATCH_LOOP_LABEL && AllRan(events, tool) && FirstAtRung(events, tool, l, i)
    ensures !LeftOpen(events, l, i)
  {
    forall k | 0 <= k < i ensures events[..i][k] == events[k] {}
    NoneLeftOpen(events[..i], tool, l.historySize);
  }

  // ----- where the promise breaks -----

  const TIGHT: Options := Options(Some(2), Some(2), Some(3), Some(5), Some(2), Some(5), None)

  function Search(args: string): Call { Call("os.web.search", args) }

  function Shell(args: string, step: nat): Event {
    Ran(Call("os.shell.run", args), None, Some(step), "done " + args)
  }

  function Found(args: string, step: nat): Event { Ran(Search(args), None, Some(step), "found " + args) }

  /** A search refused once, whose results have since left the window while the refusal has not. */
  const MASKED: seq<Event> := [
    Found("z", 1), Found("z", 2), Shell("1", 3), Shell("2", 4), Refused(Search("z"), None, Some(5)),
    Shell("3", 6), Shell("4", 7), Found("y", 8), Found("z", 9)]

  const VETO: Entry := Left(Refused(Search("z"), None, Some(5)))

  lemma TrimFull(a: Entry, b: Entry, c: Entry, d: Entry, e: Entry, f: Entry)
    ensures Trim([a, b, c, d, e] + [f], 5) == [b, c, d, e, f]
  {
  }

  lemma MaskedStep(n: nat)
    requires 1 <= n <= 9
    ensures Window(MASKED[..n], 5) == Trim(Window(MASKED[..n - 1], 5) + [Left(MASKED[n - 1])], 5)
  {
    assert MASKED[..n][..n - 1] == MASKED[..n - 1];
  }

  lemma MaskedWindows()
    ensures Window(MASKED[..0], 5) == []
    ensures Window(MASKED[..1], 5) == [Left(MASKED[0])]
    ensures Window(MASKED[..4], 5) == [Left(MASKED[0]), Left(MASKED[1]), Left(MASKED[2]), Left(MASKED[3])]
    ensures Window(MASKED[..7], 5) == [Left(MASKED[2]), Left(MASKED[3]), VETO, Left(MASKED[5]), Left(MASKED[6])]
    ensures Window(MASKED[..8], 5) == [Left(MASKED[3]), VETO, Left(MASKED[5]), Left(MASKED[6]), Left(MASKED[7])]
    ensures Window(MASKED[..9], 5) == [VETO, Left(MASKED[5]), Left(MASKED[6]), Left(MASKED[7]), Left(MASKED[8])]
  {
    var z1, z2, y, z := Left(MASKED[0]), Left(MASKED[1]), Left(MASKED[7]), Left(MASKED[8]);
    var s1, s2, s3, s4 := Left(MASKED[2]), Left(MASKED[3]), Left(MASKED[5]), Left(MASKED[6]);
    MaskedStep(1);
    MaskedStep(2);
    MaskedStep(3);
    MaskedStep(4);
    MaskedStep(5);
    assert Window(MASKED[..2], 5) == [z1, z2];
    assert Window(MASKED[..3], 5) == [z1, z2, s1];
    assert Window(MASKED[..5], 5) == [z1, z2, s1, s2, VETO];
    MaskedStep(6);
    TrimFull(z1, z2, s1, s2, VETO, s3);
    MaskedStep(7);
    TrimFull(z2, s1, s2, VETO, s3, s4);
    MaskedStep(8);
    TrimFull(s1, s2, VETO, s3, s4, y);
    MaskedStep(9);
    TrimFull(s2, VETO, s3, s4, y, z);
  }

  /** The run bookkeeping at each probe: the shell calls in between settle every earlier run. */
  function MaskedLadder(i: nat): RunLadder {
    if i == 9 then RunLadder(3, 3) else if i == 8 then RunLadder(2, 2) else RunLadder(1, 1)
  }

  /** Every step of the run is a round of its own. */
  lemma MaskedRound(i: nat)
    requires i < 9
    ensures Left(MASKED[i]).round == Some(i + 1) && !MASKED[i].Composite? && MASKED[i].round == Some(i + 1)
  {
  }

  lemma {:induction false} WindowFrom(events: seq<Event>, size: nat, e: Entry) returns (k: nat)
    requires e in Window(events, size)
    ensures k < |events| && e == Left(events[k])
  {
    var before, last := events[..|events| - 1], events[|events| - 1];
    if e == Left(last) { k := |before|; } else { k := WindowFrom(before, size, e); }
  }

  lemma MaskedFresh(i: nat, e: Entry)
    requires i <= 9 && e in Window(MASKED[..i], 5)
    ensures e.round != Some(i + 1)
  {
    var k := WindowFrom(MASKED[..i], 5, e);
    MaskedRound(k);
  }

  lemma MaskedRounds()
    ensures OneProbePerRound(MASKED, "os.web.search", 5)
    ensures FreshRound(Window(MASKED, 5), Search("w"), Some(10))
  {
    forall i, e | 0 <= i < 9 && e in Window(MASKED[..i], 5) ensures e.round != MASKED[i].round {
      MaskedRound(i);
      MaskedFresh(i, e);
    }
    assert MASKED[..9] == MASKED;
    forall e | e in Window(MASKED, 5) ensures e.round != Some(10) { MaskedFresh(9, e); }
  }

  lemma TwoResults(call: Call, y: Entry, z: Entry, a: Entry, b: Entry)
    requires Matches(y, Key(call, None)) && Completed(y) && Matches(z, Key(call, None)) && Completed(z)
    requires a.call != call && b.call != call
    ensures Results([y, z, a, b], Key(call, None)) == [y.result.value, z.result.value]
  {
    var key := Key(call, None);
    ResultsAppend([], y, key);
    ResultsAppend([y], z, key);
    ResultsAppend([y, z], a, key);
    ResultsAppend([y, z, a], b, key);
    assert [] + [y] == [y] && [y] + [z] == [y, z] && [y, z] + [a] == [y, z, a] && [y, z, a] + [b] == [y, z, a, b];
  }

  lemma PairRuns(r: string)
    ensures TailRun([r, r]) == 2
  {
    assert [r, r][..1] == [r];
  }

  /** A quiet probe: below both warn rungs, or a repeat. */
  lemma NotWandering(history: seq<Entry>, l: Limits, call: Call, round: Option<nat>, ladder: RunLadder)
    requires Repeats(history, Key(call, None)) >= 1
          || (ladder.rounds < l.wandering && Spread(history, call, round) < l.windowWarning)
    ensures !Classified(history, l, Key(call, None), round, ladder).detector.Wandering?
  {
  }

  lemma TightLimits()
    ensures var l := Derived(TIGHT);
      && l.historySize == 5 && l.ceiling == 3 && l.windowWarning == 2
      && l.critical == 2 && l.wandering == 2 && l.escalation == 5
  {
  }

  lemma MaskedProbes(i: nat)
    requires i < 9 && IsProbe(MASKED[i], "os.web.search")
    ensures !WarnedAt(MASKED, Derived(TIGHT), "os.web.search", i, MaskedLadder(i))
  {
    MaskedWindows();
    TightLimits();
    var history := Window(MASKED[..i], 5);
    if i == 1 || i == 4 {
      PresentIsCounted(history, Key(Search("z"), None), 0);
    } else if i == 8 {
      PresentIsCounted(history, Key(Search("z"), None), 1);
    } else {
      assert Seen(history, "os.web.search", MASKED[i].round) == {};
      assert {} + {MASKED[i].call.args} == {MASKED[i].call.args};
    }
    NotWandering(history, Derived(TIGHT), MASKED[i].call, MASKED[i].round, MaskedLadder(i));
  }

  lemma LastTwoSeen(history: seq<Entry>)
    requires |history| == 5 && !Completed(history[0]) && history[1].call.tool == history[2].call.tool == "os.shell.run"
    requires Left(Found("y", 8)) == history[3] && Left(Found("z", 9)) == history[4]
    ensures Seen(history, "os.web.search", None) == {"y", "z"}
  {
    assert history[3].call.args == "y" && history[4].call.args == "z";
  }

  lemma MaskedSpread()
    ensures Spread(Window(MASKED, 5), Search("w"), Some(10)) == 3
  {
    var history := Window(MASKED, 5);
    assert Seen(history, "os.web.search", None) == {"y", "z"} by {
      MaskedWindows();
      assert MASKED[..9] == MASKED;
      LastTwoSeen(history);
    }
    assert |{"y", "z"} + {"w"}| == 3;
    MaskedRounds();
    SpreadCountsAll(history, Search("w"), Some(10));
  }

  lemma MaskedStop()
    ensures StopsAtCeiling(MASKED, Derived(TIGHT), Search("w"), Some(10), MaskedLadder(9))
  {
    TightLimits();
    MaskedRounds();
    MaskedSpread();
  }

  /**
   * A refused call left in the window hides its next probe from the wandering rung, so the ceiling can
   * stop a turn that was never given a wandering warning, each call in a step of its own. The refusal
   * itself was legitimate.
   */
  lemma StoppedUnwarned()
    ensures OneProbePerRound(MASKED, "os.web.search", Derived(TIGHT).historySize)
    ensures StopsAtCeiling(MASKED, Derived(TIGHT), Search("w"), Some(10), MaskedLadder(|MASKED|))
    ensures NeverWarned(MASKED, Derived(TIGHT), "os.web.search", MaskedLadder)
    ensures Streak(Window(MASKED[..4], Derived(TIGHT).historySize), Key(Search("z"), None)) >= Derived(TIGHT).critical
  {
    TightLimits();
    MaskedRounds();
    MaskedStop();
    forall i: nat | i < |MASKED| && IsProbe(MASKED[i], "os.web.search")
      ensures !WarnedAt(MASKED, Derived(TIGHT), "os.web.search", i, MaskedLadder(i))
    {
      MaskedProbes(i);
    }
    RefusedForGoodReason();
  }

  lemma RefusedForGoodReason()
    ensures Streak(Window(MASKED[..4], 5), Key(Search("z"), None)) == 2
  {
    MaskedWindows();
    TwoResults(Search("z"), Left(MASKED[0]), Left(MASKED[1]), Left(MASKED[2]), Left(MASKED[3]));
    PairRuns("found z");
  }
}
