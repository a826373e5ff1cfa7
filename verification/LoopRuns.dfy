/**
 * What the loop gate keeps over whole runs: src/agent/loop-detector.ts:71-89 and its callers in
 * dispatch/batch-gates.ts.
 */
module LoopRuns {
  import opened Wrappers
  import opened LoopLimits
  import opened LoopHistory

  const BATCH_LOOP_LABEL := "<batch>"

  /** One thing that happens to the window. A call may also be recorded and never answered. */
  datatype Event =
    | Ran(call: Call, epoch: Option<nat>, round: Option<nat>, result: string)
    | Refused(call: Call, epoch: Option<nat>, round: Option<nat>)
    | Abandoned(call: Call, epoch: Option<nat>, round: Option<nat>)
    | Composite(args: string, result: string)

  /** The entry an event leaves at the end of the window. */
  function Left(e: Event): Entry {
    match e
    case Ran(call, epoch, round, result) => Entry(call, epoch, round, Some(result), false)
    case Refused(call, epoch, round) => Entry(call, epoch, round, None, true)
    case Abandoned(call, epoch, round) => Entry(call, epoch, round, None, false)
    case Composite(args, result) => Entry(Call(BATCH_LOOP_LABEL, args), None, None, Some(result), false)
  }

  function AfterEvent(history: seq<Entry>, e: Event, size: nat): seq<Entry> {
    Trim(history + [Left(e)], size)
  }

  /** Recording a call and then its outcome (or its veto) is one event on the window. */
  lemma EventIsCallThenOutcome(history: seq<Entry>, e: Event, late: Option<nat>, size: nat)
    requires size >= 1 && (e.Ran? || e.Refused?)
    ensures AfterEvent(history, e, size) ==
      AfterOutcome(AfterCall(history, e.call, e.epoch, e.round, size), e.call, late, e.round,
                   if e.Ran? then Finished(e.result) else Vetoed, size)
  {
    CallThenOutcome(history, e.call, e.epoch, e.round, late, if e.Ran? then Finished(e.result) else Vetoed, size);
  }

  function Window(events: seq<Event>, size: nat): seq<Entry> {
    if events == [] then [] else AfterEvent(Window(events[..|events| - 1], size), events[|events| - 1], size)
  }

  // ----- the plateau -----

  /** The sequential veto gate: a call runs only while its streak is below the critical threshold. */
  ghost predicate Gated(events: seq<Event>, l: Limits) {
    forall i :: 0 <= i < |events| && events[i].Ran? ==>
      && events[i].call.tool != BATCH_LOOP_LABEL
      && Streak(Window(events[..i], l.historySize), Key(events[i].call, events[i].epoch)) < l.critical
  }

  lemma StreakAppend(history: seq<Entry>, e: Entry, key: Key)
    ensures Streak(history + [e], key) <= Streak(history, key) + if Matches(e, key) && Completed(e) then 1 else 0
  {
    ResultsAppend(history, e, key);
    if Matches(e, key) && Completed(e) {
      TailRunAppend(Results(history, key), e.result.value);
    } else {
      assert Results(history, key) + [] == Results(history, key);
    }
  }

  lemma StreakTrim(history: seq<Entry>, key: Key, size: nat)
    ensures Streak(Trim(history, size), key) <= Streak(history, key)
  {
    if |history| > size { DroppingNeverRaises(history, |history| - size, key); }
  }

  lemma StreakAfter(history: seq<Entry>, e: Entry, key: Key, size: nat)
    ensures Streak(Trim(history + [e], size), key) <=
      Streak(history, key) + if Matches(e, key) && Completed(e) then 1 else 0
  {
    StreakTrim(history + [e], key, size);
    StreakAppend(history, e, key);
  }

  /** In every gated run no single-call streak ever passes the critical threshold. */
  lemma {:induction false} StreakPlateaus(events: seq<Event>, l: Limits, key: Key)
    requires Ladder(l) && Gated(events, l) && key.call.tool != BATCH_LOOP_LABEL
    ensures Streak(Window(events, l.historySize), key) <= l.critical
  {
    if events != [] {
      var before, e := events[..|events| - 1], events[|events| - 1];
      forall i | 0 <= i < |before| && before[i].Ran?
        ensures before[i].call.tool != BATCH_LOOP_LABEL
          && Streak(Window(before[..i], l.historySize), Key(before[i].call, before[i].epoch)) < l.critical
      {
        assert events[i] == before[i] && before[..i] == events[..i];
      }
      StreakPlateaus(before, l, key);
      var history := Window(before, l.historySize);
      StreakAfter(history, Left(e), key, l.historySize);
      assert events[..|events| - 1] == before;
    }
  }

  // ----- the breaker -----

  /** The window and the consecutive-veto counter. */
  datatype Gate = Gate(history: seq<Entry>, vetoed: Option<Call>, vetoes: nat)

  /** `noteVeto`. */
  function NoteVeto(g: Gate, call: Call): Gate {
    g.(vetoed := Some(call), vetoes := if g.vetoed == Some(call) then g.vetoes + 1 else 1)
  }

  /** A real outcome clears the counter when another call was being vetoed. */
  function NoteRun(g: Gate, call: Call): Gate {
    if g.vetoed.Some? && g.vetoed != Some(call) then g.(vetoed := None, vetoes := 0) else g
  }

  /** `isBreakerTripped`. */
  predicate Tripped(g: Gate, call: Call, breaker: nat) {
    g.vetoed == Some(call) && g.vetoes >= breaker
  }

  /** The gate after some emissions, and how many of them ran. */
  datatype Emissions = Emissions(gate: Gate, ran: nat)

  predicate Refuses(g: Gate, l: Limits, key: Key, escalated: bool) {
    Streak(g.history, key) >= l.critical || Tripped(g, key.call, l.breaker) || escalated
  }

  /** One call through the gate; `escalated` is the wandering rule's say. */
  function Emit(s: Emissions, l: Limits, key: Key, round: Option<nat>, escalated: bool, result: string): Emissions {
    var g := s.gate;
    if Refuses(g, l, key, escalated) then
      var refused := AfterEvent(g.history, Refused(key.call, key.epoch, round), l.historySize);
      Emissions(NoteVeto(g.(history := refused), key.call), s.ran)
    else
      var done := AfterEvent(g.history, Ran(key.call, key.epoch, round, result), l.historySize);
      Emissions(NoteRun(g.(history := done), key.call), s.ran + 1)
  }

  /** The same call with the same result emitted over and over from g: run[n] is where n emissions lead. */
  ghost predicate Reemission(run: seq<Emissions>, g: Gate, l: Limits, key: Key, rounds: nat -> Option<nat>,
                             escalated: nat -> bool, result: string)
  {
    && run != [] && run[0] == Emissions(g, 0)
    && forall i :: 0 <= i < |run| - 1 ==> run[i + 1] == Emit(run[i], l, key, rounds(i), escalated(i), result)
  }

  ghost function Same(result: string, n: nat): seq<string> { seq(n, i => result) }

  /** While the window still holds all n emissions, what ran is a constant suffix of the key's results. */
  ghost predicate Held(history: seq<Entry>, key: Key, result: string, n: nat, ran: nat) {
    && n <= |history|
    && Results(history[|history| - n..], key) == Same(result, ran)
  }

  lemma HeldRun(history: seq<Entry>, key: Key, result: string, n: nat, ran: nat)
    requires Held(history, key, result, n, ran)
    ensures Streak(history, key) >= ran
  {
    var cut := |history| - n;
    assert history == history[..cut] + history[cut..];
    ResultsConcat(history[..cut], history[cut..], key);
    TailRunOfSuffix(Results(history[..cut], key), Same(result, ran), result);
  }

  lemma HeldAppend(history: seq<Entry>, e: Entry, key: Key, result: string, n: nat, ran: nat, size: nat)
    requires Held(history, key, result, n, ran) && n < size
    requires Matches(e, key) && (Completed(e) ==> e.result.value == result)
    ensures Held(Trim(history + [e], size), key, result, n + 1, if Completed(e) then ran + 1 else ran)
  {
    var tail, after := history[|history| - n..], Trim(history + [e], size);
    assert after[|after| - (n + 1)..] == tail + [e];
    ResultsAppend(tail, e, key);
    assert Same(result, ran + 1) == Same(result, ran) + [result];
    assert Same(result, ran) + [] == Same(result, ran);
  }

  lemma HeldStep(history: seq<Entry>, key: Key, round: Option<nat>, result: string, n: nat, ran: nat, size: nat)
    requires result != "" && Held(history, key, result, n, ran) && n < size
    ensures Held(AfterEvent(history, Ran(key.call, key.epoch, round, result), size), key, result, n + 1, ran + 1)
    ensures Held(AfterEvent(history, Refused(key.call, key.epoch, round), size), key, result, n + 1, ran)
  {
    var done, refused := Ran(key.call, key.epoch, round, result), Refused(key.call, key.epoch, round);
    HeldAppend(history, Left(done), key, result, n, ran, size);
    HeldAppend(history, Left(refused), key, result, n, ran, size);
  }

  /** After n emissions the window still holds them all, and every one that did not run was counted. */
  ghost predicate Progress(s: Emissions, l: Limits, key: Key, result: string, n: nat) {
    && s.ran <= n && s.ran <= l.critical
    && Held(s.gate.history, key, result, n, s.ran)
    && Counted(s, key, n)
  }

  ghost predicate Counted(s: Emissions, key: Key, n: nat) {
    n > s.ran ==> s.gate.vetoed == Some(key.call) && s.gate.vetoes >= n - s.ran
  }

  lemma EmitCounts(s: Emissions, l: Limits, key: Key, round: Option<nat>, escalated: bool, result: string, n: nat)
    requires s.ran <= n && s.ran <= l.critical && Counted(s, key, n) && Streak(s.gate.history, key) >= s.ran
    ensures var t := Emit(s, l, key, round, escalated, result);
      t.ran <= n + 1 && t.ran <= l.critical && Counted(t, key, n + 1)
  {
  }

  lemma EmitProgress(s: Emissions, t: Emissions, l: Limits, key: Key, round: Option<nat>, escalated: bool,
                     result: string, n: nat)
    requires result != "" && n < l.historySize && Progress(s, l, key, result, n)
    requires t == Emit(s, l, key, round, escalated, result)
    ensures Progress(t, l, key, result, n + 1)
  {
    assert Streak(s.gate.history, key) >= s.ran by { HeldRun(s.gate.history, key, result, n, s.ran); }
    EmitCounts(s, l, key, round, escalated, result, n);
    EmitHeld(s, l, key, round, escalated, result, n);
  }

  lemma EmitHeld(s: Emissions, l: Limits, key: Key, round: Option<nat>, escalated: bool, result: string, n: nat)
    requires result != "" && n < l.historySize && Held(s.gate.history, key, result, n, s.ran)
    ensures var t := Emit(s, l, key, round, escalated, result);
      Held(t.gate.history, key, result, n + 1, t.ran)
  {
    HeldStep(s.gate.history, key, round, result, n, s.ran, l.historySize);
  }

  lemma NothingEmitted(g: Gate, l: Limits, key: Key, result: string)
    ensures Progress(Emissions(g, 0), l, key, result, 0)
  {
    assert g.history[|g.history|..] == [];
    assert Same(result, 0) == [];
  }

  lemma EmissionStep(run: seq<Emissions>, g: Gate, l: Limits, key: Key, rounds: nat -> Option<nat>,
                     escalated: nat -> bool, result: string, n: nat)
    requires Reemission(run, g, l, key, rounds, escalated, result) && n + 1 < |run|
    ensures run[n + 1] == Emit(run[n], l, key, rounds(n), escalated(n), result)
  {
  }

  lemma {:induction false} EmissionsHeld(run: seq<Emissions>, g: Gate, l: Limits, key: Key, rounds: nat -> Option<nat>,
                                         escalated: nat -> bool, result: string, n: nat)
    requires Reemission(run, g, l, key, rounds, escalated, result)
    requires result != "" && n <= l.historySize && n < |run|
    ensures Progress(run[n], l, key, result, n)
  {
    if n == 0 {
      NothingEmitted(g, l, key, result);
    } else {
      EmissionsHeld(run, g, l, key, rounds, escalated, result, n - 1);
      EmissionStep(run, g, l, key, rounds, escalated, result, n - 1);
      EmitProgress(run[n - 1], run[n], l, key, rounds(n - 1), escalated(n - 1), result, n - 1);
    }
  }

  /**
   * From any state whatsoever, re-emitting one call with one result trips the breaker within
   * critical + breaker calls, at most critical of them executed, whatever the window trims meanwhile.
   */
  lemma BreakerTrips(run: seq<Emissions>, g: Gate, l: Limits, key: Key, rounds: nat -> Option<nat>,
                     escalated: nat -> bool, result: string)
    requires Ladder(l) && result != ""
    requires l.historySize >= l.critical + l.breaker - 1
    requires Reemission(run, g, l, key, rounds, escalated, result) && |run| == l.critical + l.breaker + 1
    ensures Tripped(run[|run| - 1].gate, key.call, l.breaker)
    ensures run[|run| - 1].ran <= l.critical
  {
    var n := l.critical + l.breaker - 1;
    EmissionsHeld(run, g, l, key, rounds, escalated, result, n);
    HeldRun(run[n].gate.history, key, result, n, run[n].ran);
    EmitCounts(run[n], l, key, rounds(n), escalated(n), result, n);
  }

  // ----- a window too short for that -----

  const NO_ROUND: nat -> Option<nat> := _ => None
  const NEVER: nat -> bool := _ => false

  const FRESH: Gate := Gate([], None, 0)

  ghost function Copies(e: Entry, n: nat): seq<Entry> { seq(n, i => e) }

  lemma {:induction false} CopiesResults(e: Entry, n: nat, key: Key)
    ensures Results(Copies(e, n), key) == if Matches(e, key) && Completed(e) then Same(e.result.value, n) else []
  {
    if n > 0 {
      CopiesResults(e, n - 1, key);
      assert Copies(e, n) == Copies(e, n - 1) + [e];
      ResultsAppend(Copies(e, n - 1), e, key);
    }
  }

  ghost function Done(key: Key, result: string): Entry { Entry(key.call, key.epoch, None, Some(result), false) }

  ghost function Barred(key: Key): Entry { Entry(key.call, key.epoch, None, None, true) }

  ghost function Mixed(key: Key, result: string, runs: nat, refusals: nat): seq<Entry> {
    Copies(Done(key, result), runs) + Copies(Barred(key), refusals)
  }

  lemma MixedStreak(key: Key, result: string, runs: nat, refusals: nat)
    requires result != ""
    ensures Streak(Mixed(key, result, runs, refusals), key) == runs
  {
    var done, barred := Done(key, result), Barred(key);
    ResultsConcat(Copies(done, runs), Copies(barred, refusals), key);
    CopiesResults(done, runs, key);
    CopiesResults(barred, refusals, key);
    assert Same(result, runs) + [] == Same(result, runs);
    TailRunIsLongest(Same(result, runs), runs);
  }

  lemma MixedAppend(key: Key, result: string, runs: nat, refusals: nat)
    ensures Mixed(key, result, runs, 0) + [Done(key, result)] == Mixed(key, result, runs + 1, 0)
    ensures Mixed(key, result, runs, refusals) + [Barred(key)] == Mixed(key, result, runs, refusals + 1)
    ensures runs > 0 ==> Mixed(key, result, runs, refusals)[1..] == Mixed(key, result, runs - 1, refusals)
  {
  }

  /** A gate whose window is `runs` results and then `refusals` vetoes of one call. */
  ghost function Filled(key: Key, result: string, runs: nat, refusals: nat): Gate {
    Gate(Mixed(key, result, runs, refusals), if refusals == 0 then None else Some(key.call), refusals)
  }

  lemma FillRun(l: Limits, key: Key, result: string, runs: nat)
    requires Ladder(l) && result != "" && runs < l.critical
    ensures Emit(Emissions(Filled(key, result, runs, 0), runs), l, key, None, false, result) ==
            Emissions(Filled(key, result, runs + 1, 0), runs + 1)
  {
    MixedStreak(key, result, runs, 0);
    MixedAppend(key, result, runs, 0);
  }

  lemma FillRefusal(l: Limits, key: Key, result: string, refusals: nat)
    requires Ladder(l) && result != "" && l.critical + refusals <= l.historySize
    ensures Emit(Emissions(Filled(key, result, l.critical, refusals), l.critical), l, key, None, false, result) ==
      Emissions(Filled(key, result, l.critical, refusals + 1).(history :=
                  Trim(Mixed(key, result, l.critical, refusals + 1), l.historySize)), l.critical)
  {
    MixedStreak(key, result, l.critical, refusals);
    MixedAppend(key, result, l.critical, refusals);
  }

  lemma {:induction false} FreshRuns(run: seq<Emissions>, l: Limits, key: Key, result: string, n: nat)
    requires Ladder(l) && result != "" && n <= l.critical && n < |run|
    requires Reemission(run, FRESH, l, key, NO_ROUND, NEVER, result)
    ensures run[n] == Emissions(Filled(key, result, n, 0), n)
  {
    if n == 0 {
      assert Mixed(key, result, 0, 0) == [];
    } else {
      FreshRuns(run, l, key, result, n - 1);
      FillRun(l, key, result, n - 1);
    }
  }

  /** From a fresh tracker: first the runs up to critical, then refusals until the window is full. */
  lemma {:induction false} FreshRefusals(run: seq<Emissions>, l: Limits, key: Key, result: string, refusals: nat)
    requires Ladder(l) && result != "" && l.critical + refusals <= l.historySize && l.critical + refusals < |run|
    requires refusals < l.breaker
    requires Reemission(run, FRESH, l, key, NO_ROUND, NEVER, result)
    ensures run[l.critical + refusals] == Emissions(Filled(key, result, l.critical, refusals), l.critical)
  {
    if refusals == 0 {
      FreshRuns(run, l, key, result, l.critical);
    } else {
      FreshRefusals(run, l, key, result, refusals - 1);
      FillRefusal(l, key, result, refusals - 1);
      assert |Mixed(key, result, l.critical, refusals)| <= l.historySize;
    }
  }

  lemma BelowCriticalRuns(s: Emissions, l: Limits, key: Key, result: string)
    requires Streak(s.gate.history, key) < l.critical && s.gate.vetoes < l.breaker
    ensures Emit(s, l, key, None, false, result).ran == s.ran + 1
  {
  }

  /**
   * The window condition is exact: in any shorter window a fresh tracker lets the same call run more
   * than critical times, because refusals push the streak's own entries out.
   */
  lemma ShortWindowRunsMore(run: seq<Emissions>, l: Limits, key: Key, result: string)
    requires Ladder(l) && result != ""
    requires l.historySize < l.critical + l.breaker - 1
    requires Reemission(run, FRESH, l, key, NO_ROUND, NEVER, result) && |run| == l.critical + l.breaker + 1
    ensures run[l.historySize + 2].ran == l.critical + 1
  {
    var refusals := l.historySize - l.critical;
    FreshRefusals(run, l, key, result, refusals);
    OverfullRuns(l, key, result, refusals);
    var full := Emissions(Filled(key, result, l.critical, refusals), l.critical);
    TwoMore(run, l, key, result, l.historySize, full);
  }

  lemma TwoMore(run: seq<Emissions>, l: Limits, key: Key, result: string, n: nat, s: Emissions)
    requires Reemission(run, FRESH, l, key, NO_ROUND, NEVER, result) && n + 2 < |run| && run[n] == s
    ensures run[n + 2] == Emit(Emit(s, l, key, None, false, result), l, key, None, false, result)
  {
    EmissionStep(run, FRESH, l, key, NO_ROUND, NEVER, result, n);
    EmissionStep(run, FRESH, l, key, NO_ROUND, NEVER, result, n + 1);
  }

  /** One refusal too many drops a result, and the next emission runs again. */
  lemma OverfullRuns(l: Limits, key: Key, result: string, refusals: nat)
    requires Ladder(l) && result != "" && l.critical + refusals == l.historySize && refusals + 1 < l.breaker
    ensures var full := Emissions(Filled(key, result, l.critical, refusals), l.critical);
      Emit(Emit(full, l, key, None, false, result), l, key, None, false, result).ran == l.critical + 1
  {
    FillRefusal(l, key, result, refusals);
    MixedAppend(key, result, l.critical, refusals + 1);
    MixedStreak(key, result, l.critical - 1, refusals + 1);
    var trimmed := Mixed(key, result, l.critical - 1, refusals + 1);
    var over := Filled(key, result, l.critical, refusals + 1).(history := trimmed);
    BelowCriticalRuns(Emissions(over, l.critical), l, key, result);
  }
}
