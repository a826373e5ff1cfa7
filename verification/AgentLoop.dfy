/** The step loop of one turn: `runTurnInner` of src/agent/agent-loop.ts. */
module AgentLoop {
  import opened Wrappers
  import opened TurnRecovery
  import opened TurnLog

  datatype Terminal = NotTerminal | EndsTurn | EndsSession

  /**
   * One iteration as the world answers it. `overflows`: a size refusal a compaction could be planned for;
   * `firedDuring` and `abortedDuring`: what the deadline and the user did while it ran.
   */
  datatype Outcome =
    | Came(usable: bool, terminal: Terminal, breaker: bool)
    | Threw(err: Thrown, deadlineFired: bool, aborted: bool, cloud: bool, overflows: bool, freed: bool,
            firedDuring: bool, abortedDuring: bool, abortedAfter: bool, restarted: bool)

  datatype Attempt = Attempt(abortedBefore: bool, elapsedMs: nat, outcome: Outcome)

  /** How a turn ended, at which step index, and whether a terminal verb closed it on its reserved step. */
  datatype Ended = Ended(reason: Reason, stopCause: StopCause, stepsTaken: nat, at: nat, onFinal: bool)

  /** The loop between two iterations: the next step index, the turn's state, its one overflow compaction, the log. */
  datatype Loop = Loop(i: nat, turn: Turn, overflowAttempted: bool, log: seq<Event>)

  datatype Next = Again(loop: Loop) | Over(end: Ended, log: seq<Event>)

  datatype Setup = Setup(b: Budgets, s: Settings, canCompact: bool, durationCeilingMs: nat)

  // ----- one iteration, as a function -----

  predicate AtNewBoundary(t: Turn, i: nat, b: Budgets)
    requires b.legSteps >= 1
  {
    IsBoundary(i, b.legSteps) && i != t.lastBoundary
  }

  function Finishes(reason: Reason, l: Loop): Next {
    Over(Ended(reason, l.turn.stopCause, l.turn.stepsTaken, l.i, l.turn.endedOnFinal), l.log)
  }

  /** The turn once a boundary has been crossed and the clock read. */
  function Crossed(t: Turn, i: nat, b: Budgets, outOfTime: bool): Turn
    requires b.legSteps >= 1
  {
    var u := if AtNewBoundary(t, i, b) then t.(lastBoundary := i, progress := false) else t;
    if outOfTime then u.(stopCause := TimeCeiling) else u
  }

  function StartEvents(t: Turn, i: nat, b: Budgets): seq<Event>
    requires b.legSteps >= 1
  {
    (if AtNewBoundary(t, i, b) then [TaskContinued(i)] else []) + [StepStarted(i)]
  }

  /** The wait for the provider is over once a step has come back. */
  function Answered(t: Turn): Turn {
    if t.awaiting then t.(awaiting := false, waitedMs := 0, outageAttempts := 0) else t
  }

  /** The turn's record of a completed step. */
  function Recorded(t: Turn, i: nat, usable: bool): Turn {
    Answered(t).(stepsTaken := t.stepsTaken + 1, oomRestarts := 0, emptyRecoveries := 0,
                 progress := t.progress || usable,
       truncationRetries := if t.truncation.Some? && t.truncation.value.stepIndex == i then t.truncationRetries else 0)
  }

  /** A step that came back ends the turn by its terminal verb, as the spent final step, or by the breaker. */
  function Taken(l: Loop, finalization: bool, o: Outcome): Next
    requires o.Came?
  {
    var t := Recorded(l.turn, l.i, o.usable);
    var log := l.log + [StepFinished(l.i, o.usable, finalization)];
    match o.terminal
    case EndsSession => Finishes(Finish, l.(turn := t.(endedOnFinal := finalization), log := log))
    case EndsTurn => Finishes(Reply, l.(turn := t.(endedOnFinal := finalization), log := log))
    case NotTerminal =>
      if finalization then Finishes(MaxSteps, l.(turn := t, log := log))
      else if o.breaker then Finishes(Reply, l.(turn := t, log := log))
      else Again(l.(i := l.i + 1, turn := t, log := log))
  }

  /** The loop's answer to a recovery decision. */
  function Met(l: Loop, r: Recovery, o: Outcome): Next
    requires o.Threw?
  {
    var m := l.(turn := r.turn);
    match r.decision
    case RetrySame => Again(m)
    case RetryNext => Again(m.(i := l.i + 1, log := l.log + [Announced(l.i)]))
    case Wait(_) =>
      var waited := l.(turn := Waited(r));
      if o.abortedAfter then Finishes(Cancelled, waited) else Again(waited)
    case OutOfMemory =>
      if o.restarted && r.turn.oomRestarts < OUT_OF_MEMORY_MAX_RESTARTS then
        Again(l.(turn := r.turn.(oomRestarts := r.turn.oomRestarts + 1)))
      else Finishes(if o.abortedAfter then Cancelled else Reason.Failed, m)
    case Stop => Finishes(MaxSteps, m)
    case Failure(cancelled) => Finishes(if cancelled then Cancelled else Reason.Failed, m)
  }

  predicate TriesCompaction(l: Loop, o: Outcome, canCompact: bool)
    requires o.Threw?
  {
    o.err.SizeRefusal? && o.overflows && !l.overflowAttempted && canCompact && !o.deadlineFired && !o.aborted
  }

  /** The failure as the recovery reads it; a compaction in between gives both signals time to come. */
  function FailedAt(i: nat, finalization: bool, o: Outcome, compacted: bool): Failed
    requires o.Threw?
  {
    Failed.Failed(o.err, i, finalization, o.cloud, o.deadlineFired || (compacted && o.firedDuring),
                  o.aborted || (compacted && o.abortedDuring))
  }

  /** A step that threw: at most one overflow compaction a turn, then the ordinary recovery. */
  function Thrown(l: Loop, finalization: bool, o: Outcome, c: Setup): Next
    requires o.Threw? && c.b.legSteps >= 1
  {
    if TriesCompaction(l, o, c.canCompact) then
      var m := l.(overflowAttempted := true, log := l.log + [OverflowCompaction(l.i)]);
      if o.freed then Again(m.(turn := l.turn.(repacked := Some(l.i))))
      else Met(m, Recovered(m.turn, FailedAt(l.i, finalization, o, true), c.b, c.s), o)
    else Met(l, Recovered(l.turn, FailedAt(l.i, finalization, o, false), c.b, c.s), o)
  }

  /** One iteration of the loop. */
  function Iterated(l: Loop, a: Attempt, c: Setup): Next
    requires c.b.legSteps >= 1
  {
    if a.abortedBefore then Finishes(Cancelled, l)
    else if AtNewBoundary(l.turn, l.i, c.b) && !l.turn.progress then
      Over(Ended(MaxSteps, NoProgress, l.turn.stepsTaken, l.i, l.turn.endedOnFinal), l.log)
    else
      var outOfTime := l.turn.ceilingFired || a.elapsedMs >= c.durationCeilingMs;
      var finalization := l.i == c.b.stepCeiling - 1 || outOfTime;
      var m := l.(turn := Crossed(l.turn, l.i, c.b, outOfTime), log := l.log + StartEvents(l.turn, l.i, c.b));
      if a.outcome.Came? then Taken(m, finalization, a.outcome) else Thrown(m, finalization, a.outcome, c)
  }

  const START := Loop(0, NEW_TURN, false, [])

  /** run[k] is the loop before the k-th iteration; the one after the last ends the turn. */
  ghost predicate IsRun(run: seq<Loop>, world: nat -> Attempt, c: Setup)
    requires c.b.legSteps >= 1
  {
    && run != [] && run[0] == START
    && forall k :: 0 <= k < |run| - 1 ==> Iterated(run[k], world(k), c) == Again(run[k + 1])
  }

  // ----- legs -----

  /** Between two neighbouring multiples of the leg there is no other. */
  lemma NextBoundary(start: nat, i: nat, leg: nat)
    requires leg >= 1 && start % leg == 0 && start <= i <= start + leg && i % leg == 0
    ensures i == start || i == start + leg
  {
    var d := i / leg - start / leg;
    assert leg * d == i - start;
    if d <= 0 { Steps(leg, d, 0); } else { Steps(leg, 1, d); }
  }

  lemma LegEnd(start: nat, leg: nat)
    requires leg >= 1 && start % leg == 0
    ensures (start + leg) % leg == 0
  {
    var q := start / leg;
    assert start + leg == leg * (q + 1);
    Multiple(leg, q + 1);
  }

  lemma Multiple(leg: nat, q: nat)
    requires leg >= 1
    ensures (leg * q) % leg == 0
  {
    var n := leg * q;
    var d, m := n / leg, n % leg;
    assert leg * d + m == n;
    OneMoreLeg(leg, d);
    OneMoreLeg(leg, q);
    if d < q { Steps(leg, d + 1, q); }
    if d > q { Steps(leg, q + 1, d); }
  }

  lemma OneMoreLeg(leg: nat, q: nat)
    ensures leg * (q + 1) == leg * q + leg
  {
  }

  lemma Steps(leg: nat, a: int, b: int)
    requires a <= b
    ensures leg * a <= leg * b
  {
  }

  /** The leg bookkeeping: which leg is under way and whether it has brought anything usable back. */
  ghost predicate LegTracked(t: Turn, log: seq<Event>, i: nat, leg: nat, start: nat)
    requires leg >= 1
  {
    && start % leg == 0 && start <= i <= start + leg
    && t.lastBoundary == (if start == 0 then -1 else start)
    && (t.progress <==> UsableIn(log, start, i))
    && (start > 0 ==> UsableIn(log, start - leg, start))
  }

  /** An event that is not a finished step changes no leg's record. */
  lemma QuietLeg(t: Turn, log: seq<Event>, e: Event, i: nat, leg: nat, start: nat)
    requires leg >= 1 && LegTracked(t, log, i, leg, start) && !e.StepFinished?
    ensures LegTracked(t, log + [e], i, leg, start)
  {
    UsableAppend(log, e, start, i);
    UsableAppend(log, e, start - leg, start);
  }

  // ----- what holds between iterations -----

  ghost predicate Clocked(t: Turn) {
    && t.reason == MaxSteps && (t.stopCause == StepCeiling || t.stopCause == TimeCeiling)
    && (t.ceilingFired ==> t.stopCause == TimeCeiling)
  }

  /** The log so far, with room for step i. */
  ghost predicate Recordable(log: seq<Event>, b: Budgets, i: nat, attempted: bool)
    requires b.legSteps >= 1
  {
    && Good(log, b.legSteps, i) && Settled(log) && Completed(log) <= i
    && (log != [] ==> !IsFinal(log[|log| - 1]))
    && Compactions(log) == if attempted then 1 else 0
  }

  ghost predicate AtHead(l: Loop, b: Budgets, start: nat)
    requires b.legSteps >= 1
  {
    && l.i < b.stepCeiling && l.turn.stepsTaken == l.i && Clocked(l.turn)
    && LegTracked(l.turn, l.log, l.i, b.legSteps, start)
    && Recordable(l.log, b, l.i, l.overflowAttempted)
    && (Owed(l.log) ==> l.log[|l.log| - 1].index + 1 == l.i && Enters(l.turn, l.i, b))
  }

  /** What holds inside step i, once it has started. */
  ghost predicate InStep(l: Loop, b: Budgets, start: nat, finalization: bool)
    requires b.legSteps >= 1
  {
    && l.i < b.stepCeiling && l.i < start + b.legSteps && l.turn.stepsTaken == l.i && Clocked(l.turn)
    && (l.turn.ceilingFired ==> finalization)
    && (l.i == b.stepCeiling - 1 ==> finalization)
    && (finalization && l.turn.stopCause == StepCeiling ==> l.i == b.stepCeiling - 1)
    && LegTracked(l.turn, l.log, l.i, b.legSteps, start)
    && Recordable(l.log, b, l.i, l.overflowAttempted)
    && !Owed(l.log)
  }

  /** What the log and the ending of a whole turn promise. */
  ghost predicate Promised(end: Ended, log: seq<Event>, b: Budgets)
    requires b.legSteps >= 1
  {
    && end.at < b.stepCeiling
    && end.stepsTaken <= b.stepCeiling && Completed(log) <= b.stepCeiling
    && Good(log, b.legSteps, b.stepCeiling)
    && Settled(log) && (Owed(log) ==> end.reason == Cancelled)
    && Compactions(log) <= 1
    && (end.stopCause == NoProgress ==>
          && end.reason == MaxSteps && IsBoundary(end.at, b.legSteps)
          && !UsableIn(log, end.at - b.legSteps, end.at))
    && (end.reason == MaxSteps && end.stopCause == StepCeiling ==> end.at == b.stepCeiling - 1)
  }

  /** With less left to do: more steps done, the compaction spent, or a retry spent. */
  ghost predicate Nearer(l: Loop, m: Loop, c: Setup) {
    || m.i > l.i
    || (m.i == l.i && m.overflowAttempted && !l.overflowAttempted)
    || (m.i == l.i && m.overflowAttempted == l.overflowAttempted
        && RetriesLeft(m.turn, l.i, c.s) < RetriesLeft(l.turn, l.i, c.s))
  }

  /** One iteration either ends the turn as promised or comes back to the head, with less left to do. */
  ghost predicate Advances(l: Loop, next: Next, c: Setup)
    requires c.b.legSteps >= 1
  {
    match next
    case Over(end, log) => Promised(end, log, c.b)
    case Again(m) => (exists start: nat :: AtHead(m, c.b, start)) && Nearer(l, m, c)
  }

  lemma Widen(log: seq<Event>, leg: nat, i: nat, j: nat)
    requires leg >= 1 && i <= j && Good(log, leg, i)
    ensures Good(log, leg, j)
  {
  }

  // ----- the top of an iteration -----

  ghost function LegAt(t: Turn, i: nat, b: Budgets, start: nat): nat
    requires b.legSteps >= 1
  {
    if AtNewBoundary(t, i, b) then i else start
  }

  ghost predicate Barren(l: Loop, b: Budgets)
    requires b.legSteps >= 1
  {
    AtNewBoundary(l.turn, l.i, b) && !l.turn.progress
  }

  /** A boundary ends the leg under way exactly one leg after its start. */
  lemma BoundaryEndsLeg(l: Loop, b: Budgets, start: nat)
    requires b.legSteps >= 1 && AtHead(l, b, start)
    ensures AtNewBoundary(l.turn, l.i, b) ==> l.i == start + b.legSteps
    ensures IsBoundary(l.i, b.legSteps) && !AtNewBoundary(l.turn, l.i, b) ==> start == l.i
    ensures !IsBoundary(l.i, b.legSteps) ==> l.i < start + b.legSteps
  {
    LegEnd(start, b.legSteps);
    if IsBoundary(l.i, b.legSteps) { NextBoundary(start, l.i, b.legSteps); }
  }

  /** Crossing into the next leg: the old one is on record as earned, the new one starts empty. */
  lemma CrossesInto(l: Loop, b: Budgets, start: nat, outOfTime: bool)
    requires b.legSteps >= 1 && AtHead(l, b, start) && !Barren(l, b)
    ensures var leg := LegAt(l.turn, l.i, b, start);
      && LegTracked(Crossed(l.turn, l.i, b, outOfTime), l.log, l.i, b.legSteps, leg) && l.i < leg + b.legSteps
      && (IsBoundary(l.i, b.legSteps) ==> UsableIn(l.log, l.i - b.legSteps, l.i))
  {
    BoundaryEndsLeg(l, b, start);
    NoneYet(l.log, l.i);
  }

  lemma NoneYet(log: seq<Event>, i: nat)
    ensures !UsableIn(log, i, i)
  {
  }

  /** Announcing the next leg, if there is one, and then the step itself. */
  lemma Started(t: Turn, log: seq<Event>, i: nat, b: Budgets, leg: nat, continued: bool, attempted: bool)
    requires b.legSteps >= 1 && LegTracked(t, log, i, b.legSteps, leg) && Recordable(log, b, i, attempted)
    requires Owed(log) ==> log[|log| - 1].index + 1 == i
    requires IsBoundary(i, b.legSteps) ==> UsableIn(log, i - b.legSteps, i)
    ensures var after := log + (if continued then [TaskContinued(i)] else []) + [StepStarted(i)];
      && LegTracked(t, after, i, b.legSteps, leg) && Recordable(after, b, i, attempted) && !Owed(after)
  {
    StartPerforms(log, i, continued);
    var middle := log + if continued then [TaskContinued(i)] else [];
    if continued {
      AppendQuiet(log, TaskContinued(i), b.legSteps, i);
      QuietLeg(t, log, TaskContinued(i), i, b.legSteps, leg);
      Counts(log, TaskContinued(i));
      UsableAppend(log, TaskContinued(i), i - b.legSteps, i);
    } else {
      assert log + [] == log;
    }
    AppendQuiet(middle, StepStarted(i), b.legSteps, i);
    QuietLeg(t, middle, StepStarted(i), i, b.legSteps, leg);
    Counts(middle, StepStarted(i));
  }

  /** The loop as step i begins. */
  function Begun(l: Loop, b: Budgets, outOfTime: bool): Loop
    requires b.legSteps >= 1
  {
    l.(turn := Crossed(l.turn, l.i, b, outOfTime), log := l.log + StartEvents(l.turn, l.i, b))
  }

  lemma BeginsInStep(l: Loop, b: Budgets, start: nat, outOfTime: bool)
    requires b.legSteps >= 1 && AtHead(l, b, start) && !Barren(l, b) && (l.turn.ceilingFired ==> outOfTime)
    ensures InStep(Begun(l, b, outOfTime), b, LegAt(l.turn, l.i, b, start), l.i == b.stepCeiling - 1 || outOfTime)
  {
    CrossesInto(l, b, start, outOfTime);
    var leg, t := LegAt(l.turn, l.i, b, start), Crossed(l.turn, l.i, b, outOfTime);
    var continued := AtNewBoundary(l.turn, l.i, b);
    Started(t, l.log, l.i, b, leg, continued, l.overflowAttempted);
    assert l.log + (if continued then [TaskContinued(l.i)] else []) + [StepStarted(l.i)]
        == l.log + StartEvents(l.turn, l.i, b);
  }

  // ----- how an iteration ends -----

  /** Leaving the turn inside step i. */
  lemma LeavesInside(l: Loop, b: Budgets, start: nat, finalization: bool, m: Loop, reason: Reason)
    requires b.legSteps >= 1 && InStep(l, b, start, finalization) && m.log == l.log && m.i == l.i
    requires l.i <= m.turn.stepsTaken <= l.i + 1
    requires m.turn.stopCause == l.turn.stopCause || (reason == MaxSteps && m.turn.stopCause == CreditStop)
    requires reason == MaxSteps ==> finalization || m.turn.stopCause == CreditStop
    ensures Promised(Ended(reason, m.turn.stopCause, m.turn.stepsTaken, l.i, m.turn.endedOnFinal), l.log, b)
  {
    Widen(l.log, b.legSteps, l.i, b.stepCeiling);
  }

  /** Back to the head of the same step, with at most the time ceiling newly fired. */
  lemma BackToHead(l: Loop, b: Budgets, start: nat, finalization: bool, t: Turn)
    requires b.legSteps >= 1 && InStep(l, b, start, finalization)
    requires t.stepsTaken == l.i && Clocked(t) && t.lastBoundary == l.turn.lastBoundary && t.progress == l.turn.progress
    ensures AtHead(l.(turn := t), b, start)
  {
  }

  /** A recovery announced at step i, landing in a step the loop is sure to enter. */
  lemma OnToNext(l: Loop, b: Budgets, start: nat, finalization: bool, t: Turn)
    requires b.legSteps >= 1 && InStep(l, b, start, finalization) && Enters(t, l.i + 1, b)
    requires t.stepsTaken == l.i + 1 && Clocked(t) && t.lastBoundary == l.turn.lastBoundary
    requires t.progress == l.turn.progress
    ensures AtHead(Loop(l.i + 1, t, l.overflowAttempted, l.log + [Announced(l.i)]), b, start)
  {
    var log, e := l.log, Announced(l.i);
    AppendQuiet(log, e, b.legSteps, l.i);
    AppendSettled(log, e);
    QuietLeg(l.turn, log, e, l.i, b.legSteps, start);
    Counts(log, e);
    Widen(log + [e], b.legSteps, l.i, l.i + 1);
    Ahead(log + [e], start, l.i, b.legSteps);
  }

  /** A log with no step completed at or past i reads the same one index further on. */
  lemma Ahead(log: seq<Event>, start: nat, i: nat, leg: nat)
    requires leg >= 1 && Good(log, leg, i)
    ensures UsableIn(log, start, i + 1) <==> UsableIn(log, start, i)
  {
  }

  /** What a recovery leaves alone. */
  lemma RecoveryKeeps(t: Turn, f: Failed, b: Budgets, s: Settings)
    requires b.legSteps >= 1
    ensures var r := Recovered(t, f, b, s);
      r.turn.lastBoundary == t.lastBoundary && r.turn.progress == t.progress
  {
  }

  lemma RecoveryClocked(t: Turn, f: Failed, b: Budgets, s: Settings)
    requires b.legSteps >= 1 && Clocked(t)
    ensures var r := Recovered(t, f, b, s);
      !r.decision.Stop? ==> Clocked(r.turn)
  {
    if CeilingFired(f) || IsCancelled(f) || PlansTruncationRetry(t, f) || f.finalization {
    } else if f.err.Outage? {
    }
  }

  /** Only a recovery into the next step, or out of the final one, takes a step. */
  lemma RecoveryCounts(t: Turn, f: Failed, b: Budgets, s: Settings)
    requires b.legSteps >= 1
    ensures var r := Recovered(t, f, b, s);
      && (!r.decision.RetryNext? && !r.decision.Stop? ==> r.turn.stepsTaken == t.stepsTaken)
      && (r.decision.RetryNext? ==> r.turn.stepsTaken == t.stepsTaken + 1)
      && (r.decision.Stop? ==> t.stepsTaken <= r.turn.stepsTaken <= t.stepsTaken + 1)
  {
  }

  /** A recovery stops the turn only from its final step or for want of credit. */
  lemma RecoveryStops(t: Turn, f: Failed, b: Budgets, s: Settings)
    requires b.legSteps >= 1
    ensures var r := Recovered(t, f, b, s);
      && (r.decision.OutOfMemory? || r.decision.Failure? || r.decision.Wait? ==> r.turn.stopCause == t.stopCause)
      && (r.decision.Stop? ==> (r.turn.stopCause == t.stopCause && f.finalization) || r.turn.stopCause == CreditStop)
  {
  }

  /** What a recovery may hand back to the loop. */
  ghost predicate Handed(t: Turn, r: Recovery, finalization: bool) {
    && r.turn.lastBoundary == t.lastBoundary && r.turn.progress == t.progress
    && (!r.decision.Stop? ==> Clocked(r.turn))
    && (!r.decision.RetryNext? && !r.decision.Stop? ==> r.turn.stepsTaken == t.stepsTaken)
    && (r.decision.RetryNext? ==> r.turn.stepsTaken == t.stepsTaken + 1)
    && (r.decision.Stop? ==> t.stepsTaken <= r.turn.stepsTaken <= t.stepsTaken + 1)
    && (r.decision.OutOfMemory? || r.decision.Failure? || r.decision.Wait? ==> r.turn.stopCause == t.stopCause)
    && (r.decision.Stop? ==> (r.turn.stopCause == t.stopCause && finalization) || r.turn.stopCause == CreditStop)
  }

  lemma RecoveryHands(t: Turn, f: Failed, b: Budgets, s: Settings)
    requires b.legSteps >= 1 && Clocked(t)
    ensures Handed(t, Recovered(t, f, b, s), f.finalization)
  {
    RecoveryKeeps(t, f, b, s);
    RecoveryClocked(t, f, b, s);
    RecoveryCounts(t, f, b, s);
    RecoveryStops(t, f, b, s);
  }

  lemma WaitAdvances(l: Loop, c: Setup, start: nat, finalization: bool, o: Outcome, r: Recovery)
    requires c.b.legSteps >= 1 && o.Threw? && InStep(l, c.b, start, finalization) && r.decision.Wait?
    requires Handed(l.turn, r, finalization) && RetriesLeft(Waited(r), l.i, c.s) < RetriesLeft(l.turn, l.i, c.s)
    ensures Advances(l, Met(l, r, o), c)
  {
    if o.abortedAfter { LeavesInside(l, c.b, start, finalization, l.(turn := Waited(r)), Cancelled); }
    else { BackToHead(l, c.b, start, finalization, Waited(r)); }
  }

  lemma EndAdvances(l: Loop, c: Setup, start: nat, finalization: bool, o: Outcome, r: Recovery)
    requires c.b.legSteps >= 1 && o.Threw? && InStep(l, c.b, start, finalization)
    requires Handed(l.turn, r, finalization) && (r.decision.Stop? || r.decision.Failure?)
    ensures Advances(l, Met(l, r, o), c)
  {
    var reason := if r.decision.Stop? then MaxSteps else if r.decision.cancelled then Cancelled else Reason.Failed;
    LeavesInside(l, c.b, start, finalization, l.(turn := r.turn), reason);
  }

  /** Every answer to a recovery keeps the turn's promises, or leaves less to retry. */
  lemma MetAdvances(l: Loop, c: Setup, start: nat, f: Failed, o: Outcome)
    requires c.b.legSteps >= 1 && o.Threw? && f.index == l.i && InStep(l, c.b, start, f.finalization)
    ensures Advances(l, Met(l, Recovered(l.turn, f, c.b, c.s), o), c)
  {
    var r := Recovered(l.turn, f, c.b, c.s);
    RecoveryHands(l.turn, f, c.b, c.s);
    match r.decision
    case RetrySame =>
      SameStepSpends(l.turn, f, c.b, c.s);
      BackToHead(l, c.b, start, f.finalization, r.turn);
    case RetryNext =>
      AnnouncedWillBeEntered(l.turn, f, c.b, c.s);
      OnToNext(l, c.b, start, f.finalization, r.turn);
    case Wait(_) =>
      WaitSpends(l.turn, f, c.b, c.s);
      WaitAdvances(l, c, start, f.finalization, o, r);
    case OutOfMemory =>
      OutOfMemoryKeeps(l.turn, f, c.b, c.s);
      RestartAdvances(l, c, start, f.finalization, o, r);
    case Stop => EndAdvances(l, c, start, f.finalization, o, r);
    case Failure(_) => EndAdvances(l, c, start, f.finalization, o, r);
  }

  lemma OutOfMemoryKeeps(t: Turn, f: Failed, b: Budgets, s: Settings)
    requires b.legSteps >= 1 && Recovered(t, f, b, s).decision.OutOfMemory?
    ensures Recovered(t, f, b, s).turn == t
  {
  }

  /** A model out of memory is restarted, which leaves one restart less, or the turn ends. */
  lemma RestartAdvances(l: Loop, c: Setup, start: nat, finalization: bool, o: Outcome, r: Recovery)
    requires c.b.legSteps >= 1 && o.Threw? && InStep(l, c.b, start, finalization) && r.decision.OutOfMemory?
    requires r.turn == l.turn
    ensures Advances(l, Met(l, r, o), c)
  {
    if o.restarted && l.turn.oomRestarts < OUT_OF_MEMORY_MAX_RESTARTS {
      RestartSpends(l.turn, l.i, c.s);
      BackToHead(l, c.b, start, finalization, l.turn.(oomRestarts := l.turn.oomRestarts + 1));
    } else {
      LeavesInside(l, c.b, start, finalization, l, if o.abortedAfter then Cancelled else Reason.Failed);
    }
  }

  /** The one overflow compaction a turn may try changes nothing but the log. */
  lemma Compacts(l: Loop, b: Budgets, start: nat, finalization: bool)
    requires b.legSteps >= 1 && InStep(l, b, start, finalization) && !l.overflowAttempted
    ensures InStep(l.(overflowAttempted := true, log := l.log + [OverflowCompaction(l.i)]), b, start, finalization)
  {
    var e := OverflowCompaction(l.i);
    AppendQuiet(l.log, e, b.legSteps, l.i);
    AppendSettled(l.log, e);
    QuietLeg(l.turn, l.log, e, l.i, b.legSteps, start);
    Counts(l.log, e);
  }

  lemma ThrownAdvances(l: Loop, c: Setup, start: nat, finalization: bool, o: Outcome)
    requires c.b.legSteps >= 1 && o.Threw? && InStep(l, c.b, start, finalization)
    ensures Advances(l, Thrown(l, finalization, o, c), c)
  {
    if TriesCompaction(l, o, c.canCompact) {
      var m := l.(overflowAttempted := true, log := l.log + [OverflowCompaction(l.i)]);
      Compacts(l, c.b, start, finalization);
      if o.freed { BackToHead(m, c.b, start, finalization, l.turn.(repacked := Some(l.i))); }
      else { MetAdvances(m, c, start, FailedAt(l.i, finalization, o, true), o); }
    } else {
      MetAdvances(l, c, start, FailedAt(l.i, finalization, o, false), o);
    }
  }

  /** A step that finished inside the current leg. */
  lemma FinishedLeg(l: Loop, b: Budgets, start: nat, usable: bool, finalization: bool)
    requires b.legSteps >= 1 && InStep(l, b, start, finalization)
    ensures var after := l.log + [StepFinished(l.i, usable, finalization)];
      && Good(after, b.legSteps, l.i + 1) && Settled(after)
      && LegTracked(Recorded(l.turn, l.i, usable), after, l.i + 1, b.legSteps, start)
      && Compactions(after) == Compactions(l.log) && Completed(after) == Completed(l.log) + 1
  {
    var e := StepFinished(l.i, usable, finalization);
    AppendFinished(l.log, e, b.legSteps, l.i);
    AppendSettled(l.log, e);
    Counts(l.log, e);
    Ahead(l.log, start, l.i, b.legSteps);
    FinishedTracked(l.turn, l.log, e, b.legSteps, start);
  }

  lemma FinishedTracked(t: Turn, log: seq<Event>, e: Event, leg: nat, start: nat)
    requires leg >= 1 && e.StepFinished? && LegTracked(t, log, e.index, leg, start) && e.index < start + leg
    requires UsableIn(log, start, e.index + 1) <==> UsableIn(log, start, e.index)
    ensures LegTracked(Recorded(t, e.index, e.usable), log + [e], e.index + 1, leg, start)
  {
    UsableAppend(log, e, start, e.index + 1);
    UsableAppend(log, e, start - leg, start);
  }

  /** A step that came back and decides nothing leads to the next one. */
  lemma GoesOn(l: Loop, c: Setup, start: nat, o: Outcome)
    requires c.b.legSteps >= 1 && o.Came? && InStep(l, c.b, start, false)
    ensures AtHead(Loop(l.i + 1, Recorded(l.turn, l.i, o.usable), l.overflowAttempted,
                        l.log + [StepFinished(l.i, o.usable, false)]), c.b, start)
  {
    FinishedLeg(l, c.b, start, o.usable, false);
    var t, log := Recorded(l.turn, l.i, o.usable), l.log + [StepFinished(l.i, o.usable, false)];
    assert log[|log| - 1] == StepFinished(l.i, o.usable, false);
    FinishedHead(l, t, log, c.b, start);
  }

  /** A step finished, on record, and not the last one: the loop is at the head of the next. */
  lemma FinishedHead(l: Loop, t: Turn, log: seq<Event>, b: Budgets, start: nat)
    requires b.legSteps >= 1 && l.i + 1 < b.stepCeiling && t.stepsTaken == l.i + 1 && Clocked(t)
    requires LegTracked(t, log, l.i + 1, b.legSteps, start)
    requires Good(log, b.legSteps, l.i + 1) && Settled(log) && Completed(log) <= l.i + 1
    requires log != [] && !IsFinal(log[|log| - 1]) && !Owed(log)
    requires Compactions(log) == if l.overflowAttempted then 1 else 0
    ensures AtHead(Loop(l.i + 1, t, l.overflowAttempted, log), b, start)
  {
  }

  /** A turn that ends on a completed step, with the reason that step gave. */
  lemma EndsTaken(l: Loop, c: Setup, start: nat, finalization: bool, o: Outcome, reason: Reason, onFinal: bool)
    requires c.b.legSteps >= 1 && o.Came? && InStep(l, c.b, start, finalization)
    requires reason == MaxSteps ==> finalization
    ensures Promised(Ended(reason, l.turn.stopCause, l.i + 1, l.i, onFinal),
                     l.log + [StepFinished(l.i, o.usable, finalization)], c.b)
  {
    FinishedLeg(l, c.b, start, o.usable, finalization);
    Widen(l.log + [StepFinished(l.i, o.usable, finalization)], c.b.legSteps, l.i + 1, c.b.stepCeiling);
  }

  /** The reason a completed step ends the turn with, if it does. */
  function EndingReason(finalization: bool, o: Outcome): Reason
    requires o.Came?
  {
    if o.terminal.EndsSession? then Finish
    else if o.terminal.NotTerminal? && finalization then MaxSteps
    else Reply
  }

  /** A terminal verb says whether it came on the reserved step. */
  function OnFinal(t: Turn, finalization: bool, o: Outcome): bool
    requires o.Came?
  {
    if o.terminal.NotTerminal? then t.endedOnFinal else finalization
  }

  lemma TakenShape(l: Loop, finalization: bool, o: Outcome)
    requires o.Came?
    ensures var log := l.log + [StepFinished(l.i, o.usable, finalization)];
      Taken(l, finalization, o) ==
        if o.terminal.NotTerminal? && !finalization && !o.breaker then
          Again(Loop(l.i + 1, Recorded(l.turn, l.i, o.usable), l.overflowAttempted, log))
        else
          Over(Ended(EndingReason(finalization, o), l.turn.stopCause, l.turn.stepsTaken + 1, l.i,
                     OnFinal(l.turn, finalization, o)), log)
  {
  }

  lemma OverAdvances(l: Loop, end: Ended, log: seq<Event>, c: Setup)
    requires c.b.legSteps >= 1 && Promised(end, log, c.b)
    ensures Advances(l, Over(end, log), c)
  {
  }

  lemma TakenAdvances(l: Loop, c: Setup, start: nat, finalization: bool, o: Outcome)
    requires c.b.legSteps >= 1 && o.Came? && InStep(l, c.b, start, finalization)
    ensures Advances(l, Taken(l, finalization, o), c)
  {
    TakenShape(l, finalization, o);
    if o.terminal.NotTerminal? && !finalization && !o.breaker { GoesOn(l, c, start, o); }
    else {
      var reason, onFinal := EndingReason(finalization, o), OnFinal(l.turn, finalization, o);
      EndsTaken(l, c, start, finalization, o, reason, onFinal);
      OverAdvances(l, Ended(reason, l.turn.stopCause, l.i + 1, l.i, onFinal),
                   l.log + [StepFinished(l.i, o.usable, finalization)], c);
    }
  }

  /** A boundary that is not passed ends the turn there, with nothing announced left undone. */
  lemma BarrenEnds(l: Loop, b: Budgets, start: nat)
    requires b.legSteps >= 1 && AtHead(l, b, start) && Barren(l, b)
    ensures Promised(Ended(MaxSteps, NoProgress, l.turn.stepsTaken, l.i, l.turn.endedOnFinal), l.log, b)
  {
    BoundaryEndsLeg(l, b, start);
    Widen(l.log, b.legSteps, l.i, b.stepCeiling);
  }

  lemma AbortEnds(l: Loop, b: Budgets, start: nat)
    requires b.legSteps >= 1 && AtHead(l, b, start)
    ensures Promised(Ended(Cancelled, l.turn.stopCause, l.turn.stepsTaken, l.i, l.turn.endedOnFinal), l.log, b)
  {
    Widen(l.log, b.legSteps, l.i, b.stepCeiling);
  }

  /** One iteration keeps the turn's promises and, unless it ends the turn, leaves less to do. */
  lemma IterationAdvances(l: Loop, a: Attempt, c: Setup, start: nat)
    requires c.b.legSteps >= 1 && AtHead(l, c.b, start)
    ensures Advances(l, Iterated(l, a, c), c)
  {
    if a.abortedBefore { AbortEnds(l, c.b, start); }
    else if Barren(l, c.b) { BarrenEnds(l, c.b, start); }
    else {
      var outOfTime := l.turn.ceilingFired || a.elapsedMs >= c.durationCeilingMs;
      var m := Begun(l, c.b, outOfTime);
      var finalization, leg := l.i == c.b.stepCeiling - 1 || outOfTime, LegAt(l.turn, l.i, c.b, start);
      BeginsInStep(l, c.b, start, outOfTime);
      CrossingKeepsRetries(l.turn, l.i, c, outOfTime);
      if a.outcome.Came? { TakenAdvances(m, c, leg, finalization, a.outcome); }
      else { ThrownAdvances(m, c, leg, finalization, a.outcome); }
      AdvancesFrom(l, m, Iterated(l, a, c), c);
    }
  }

  lemma AdvancesFrom(l: Loop, m: Loop, next: Next, c: Setup)
    requires c.b.legSteps >= 1 && Advances(m, next, c)
    requires m.i == l.i && m.overflowAttempted == l.overflowAttempted
    requires RetriesLeft(m.turn, l.i, c.s) == RetriesLeft(l.turn, l.i, c.s)
    ensures Advances(l, next, c)
  {
  }

  lemma CrossingKeepsRetries(t: Turn, i: nat, c: Setup, outOfTime: bool)
    requires c.b.legSteps >= 1
    ensures RetriesLeft(Crossed(t, i, c.b, outOfTime), i, c.s) == RetriesLeft(t, i, c.s)
  {
  }

  // ----- whole turns -----

  /** At every head of every run there is a leg under way. */
  lemma {:induction false} HeadsHold(run: seq<Loop>, world: nat -> Attempt, c: Setup, k: nat) returns (start: nat)
    requires 1 <= c.b.legSteps <= c.b.stepCeiling && IsRun(run, world, c) && k < |run|
    ensures AtHead(run[k], c.b, start)
  {
    if k == 0 {
      start := 0;
    } else {
      var before := HeadsHold(run, world, c, k - 1);
      IterationAdvances(run[k - 1], world(k - 1), c, before);
      start :| AtHead(run[k], c.b, start);
    }
  }

  /** Whatever the world answers, a turn that ends has kept every promise. */
  lemma RunPromises(run: seq<Loop>, world: nat -> Attempt, c: Setup, end: Ended, log: seq<Event>)
    requires 1 <= c.b.legSteps <= c.b.stepCeiling && IsRun(run, world, c)
    requires Iterated(run[|run| - 1], world(|run| - 1), c) == Over(end, log)
    ensures Promised(end, log, c.b)
  {
    var start := HeadsHold(run, world, c, |run| - 1);
    IterationAdvances(run[|run| - 1], world(|run| - 1), c, start);
  }

  predicate StopsBarren(next: Next) { next.Over? && next.end.stopCause == NoProgress }

  /** The loop stops for want of progress exactly at a boundary after a leg that brought nothing usable back. */
  lemma NoProgressExactly(l: Loop, a: Attempt, c: Setup, start: nat)
    requires c.b.legSteps >= 1 && AtHead(l, c.b, start) && !a.abortedBefore
    ensures StopsBarren(Iterated(l, a, c)) <==>
      (IsBoundary(l.i, c.b.legSteps) && !UsableIn(l.log, l.i - c.b.legSteps, l.i))
  {
    BoundaryEndsLeg(l, c.b, start);
    if !Barren(l, c.b) {
      var outOfTime := l.turn.ceilingFired || a.elapsedMs >= c.durationCeilingMs;
      var m := Begun(l, c.b, outOfTime);
      var finalization := l.i == c.b.stepCeiling - 1 || outOfTime;
      if a.outcome.Came? { TakenShape(m, finalization, a.outcome); }
      else { ThrownStops(m, c, finalization, a.outcome); }
    }
  }

  lemma ThrownStops(l: Loop, c: Setup, finalization: bool, o: Outcome)
    requires c.b.legSteps >= 1 && o.Threw? && Clocked(l.turn)
    ensures !StopsBarren(Thrown(l, finalization, o, c))
  {
    var f := FailedAt(l.i, finalization, o, TriesCompaction(l, o, c.canCompact));
    RecoveryClocked(l.turn, f, c.b, c.s);
    RecoveryStops(l.turn, f, c.b, c.s);
  }

  /**
   * `recoveryStepAvailable`, asked inside step i, is true exactly when the turn would not stop before
   * taking the next one: there is such a step, and it does not end a leg that brought nothing back.
   */
  lemma AvailableExactly(l: Loop, b: Budgets, start: nat, finalization: bool)
    requires b.legSteps >= 1 && InStep(l, b, start, finalization)
    ensures RecoveryStepAvailable(l.turn, l.i, b) <==>
      l.i + 1 < b.stepCeiling && (IsBoundary(l.i + 1, b.legSteps) ==> UsableIn(l.log, l.i + 1 - b.legSteps, l.i + 1))
  {
    if IsBoundary(l.i + 1, b.legSteps) { NextBoundary(start, l.i + 1, b.legSteps); }
    Ahead(l.log, start, l.i, b.legSteps);
  }

  function LogOf(next: Next): seq<Event> { if next.Again? then next.loop.log else next.log }

  ghost predicate Starts(before: seq<Event>, log: seq<Event>, i: nat) {
    exists p :: |before| <= p < |log| && log[p] == StepStarted(i)
  }

  /** The loop takes step m.i: it is within the bound, and the iteration there begins the step. */
  ghost predicate TakesStep(m: Loop, a: Attempt, c: Setup)
    requires c.b.legSteps >= 1
  {
    m.i < c.b.stepCeiling && Starts(m.log, LogOf(Iterated(m, a, c)), m.i)
  }

  lemma IteratedGrows(m: Loop, a: Attempt, c: Setup)
    requires c.b.legSteps >= 1 && !a.abortedBefore && !Barren(m, c.b)
    ensures m.log + StartEvents(m.turn, m.i, c.b) <= LogOf(Iterated(m, a, c))
  {
    var outOfTime := m.turn.ceilingFired || a.elapsedMs >= c.durationCeilingMs;
    var finalization := m.i == c.b.stepCeiling - 1 || outOfTime;
    if a.outcome.Came? { TakenShape(Begun(m, c.b, outOfTime), finalization, a.outcome); }
  }

  /**
   * `recoveryStepAvailable`, asked in step l.i: it is true exactly when a turn that goes on to the next index,
   * with the same leg under way and no abort, takes that step.
   */
  lemma AvailableMeansTaken(l: Loop, m: Loop, a: Attempt, c: Setup)
    requires c.b.legSteps >= 1 && m.i == l.i + 1 && !a.abortedBefore
    requires m.turn.lastBoundary == l.turn.lastBoundary && m.turn.progress == l.turn.progress
    ensures RecoveryStepAvailable(l.turn, l.i, c.b) <==> TakesStep(m, a, c)
  {
    if !Barren(m, c.b) {
      IteratedGrows(m, a, c);
      var started := m.log + StartEvents(m.turn, m.i, c.b);
      assert LogOf(Iterated(m, a, c))[|started| - 1] == StepStarted(m.i);
    }
  }

  // ----- the clock over a whole run, told by its history -----

  /** A refused request the turn's one compaction is tried on, if nothing has interrupted it. */
  predicate Refuses(o: Outcome) {
    o.Threw? && o.err.SizeRefusal? && o.overflows && !o.deadlineFired && !o.aborted
  }

  /** The first refusal of the turn is the one it compacts for. */
  ghost predicate CompactsAt(world: nat -> Attempt, c: Setup, k: nat) {
    c.canCompact && Refuses(world(k).outcome) && forall j :: 0 <= j < k ==> !Refuses(world(j).outcome)
  }

  /** The deadline cut iteration k short, in its request or in the compaction after it, and the user did not. */
  ghost predicate CutShort(world: nat -> Attempt, c: Setup, k: nat) {
    var o := world(k).outcome;
    o.Threw? && if CompactsAt(world, c, k) then !o.freed && o.firedDuring && !o.abortedDuring
                else o.deadlineFired && !o.aborted
  }

  ghost predicate CutBefore(world: nat -> Attempt, c: Setup, k: nat) {
    exists j :: 0 <= j < k && CutShort(world, c, j)
  }

  /** The time is up in iteration k: the clock says so, or the deadline has cut an earlier one short. */
  ghost predicate TimeUp(world: nat -> Attempt, c: Setup, k: nat) {
    world(k).elapsedMs >= c.durationCeilingMs || CutBefore(world, c, k)
  }

  ghost predicate UpBefore(world: nat -> Attempt, c: Setup, k: nat) {
    exists j :: 0 <= j < k && TimeUp(world, c, j)
  }

  /** Iteration k begins the step reserved for the summary. */
  ghost predicate Reserved(run: seq<Loop>, world: nat -> Attempt, c: Setup, k: nat)
    requires k < |run|
  {
    run[k].i + 1 == c.b.stepCeiling || TimeUp(world, c, k)
  }

  /** Time does not go back. */
  ghost predicate ClockRuns(world: nat -> Attempt) {
    forall j, k :: 0 <= j <= k ==> world(j).elapsedMs <= world(k).elapsedMs
  }

  /** A boundary after a leg that brought nothing usable back. */
  ghost predicate Fruitless(l: Loop, leg: nat)
    requires leg >= 1
  {
    l.i > 0 && l.i % leg == 0 && !UsableIn(l.log, l.i - leg, l.i)
  }

  /** What iteration k tells the observers, given the index the run has next. */
  ghost function Happened(run: seq<Loop>, world: nat -> Attempt, c: Setup, k: nat): seq<Event>
    requires c.b.legSteps >= 1 && k < |run|
  {
    var i, o := run[k].i, world(k).outcome;
    var arrives := k == 0 || run[k - 1].i != i;
    if world(k).abortedBefore || Fruitless(run[k], c.b.legSteps) then []
    else
      (if i > 0 && i % c.b.legSteps == 0 && arrives then [TaskContinued(i)] else []) + [StepStarted(i)]
      + (if o.Came? then [StepFinished(i, o.usable, Reserved(run, world, c, k))]
         else (if CompactsAt(world, c, k) then [OverflowCompaction(i)] else [])
              + (if k + 1 < |run| && run[k + 1].i != i then [Announced(i)] else []))
  }

  predicate CompactsNow(attempted: bool, o: Outcome, c: Setup) { c.canCompact && Refuses(o) && !attempted }

  predicate CutNow(attempted: bool, o: Outcome, c: Setup) {
    o.Threw? && if CompactsNow(attempted, o, c) then !o.freed && o.firedDuring && !o.abortedDuring
                else o.deadlineFired && !o.aborted
  }

  function Compacted(l: Loop, o: Outcome, c: Setup): seq<Event> {
    if CompactsNow(l.overflowAttempted, o, c) then [OverflowCompaction(l.i)] else []
  }

  lemma MetGoesOn(l: Loop, f: Failed, o: Outcome, c: Setup, m: Loop)
    requires c.b.legSteps >= 1 && o.Threw? && Met(l, Recovered(l.turn, f, c.b, c.s), o) == Again(m)
    ensures m.overflowAttempted == l.overflowAttempted && m.turn.lastBoundary == l.turn.lastBoundary
    ensures m.turn.endedOnFinal == l.turn.endedOnFinal
    ensures m.turn.ceilingFired <==> l.turn.ceilingFired || CeilingFired(f)
    ensures m.turn.stopCause == if CeilingFired(f) then TimeCeiling else l.turn.stopCause
    ensures m.i == l.i || m.i == l.i + 1
    ensures f.finalization ==> m.i == l.i
    ensures m.log == l.log + if m.i != l.i then [Announced(l.i)] else []
  {
    RetriesSameExactly(l.turn, f, c.b, c.s);
    RetriesNextExactly(l.turn, f, c.b, c.s);
    WaitsExactly(l.turn, f, c.b, c.s);
    OutOfMemoryExactly(l.turn, f, c.b, c.s);
    assert l.log + [] == l.log;
  }

  lemma MetEnds(l: Loop, f: Failed, o: Outcome, c: Setup, end: Ended, log: seq<Event>)
    requires c.b.legSteps >= 1 && o.Threw? && Met(l, Recovered(l.turn, f, c.b, c.s), o) == Over(end, log)
    ensures end.at == l.i && log == l.log && end.onFinal == l.turn.endedOnFinal
    ensures end.stopCause == l.turn.stopCause || (end.reason == MaxSteps && end.stopCause == CreditStop)
  {
    RecoveryStops(l.turn, f, c.b, c.s);
  }

  lemma ThrownGoesOn(l: Loop, finalization: bool, o: Outcome, c: Setup, m: Loop)
    requires c.b.legSteps >= 1 && o.Threw? && Thrown(l, finalization, o, c) == Again(m)
    ensures m.overflowAttempted == (l.overflowAttempted || CompactsNow(l.overflowAttempted, o, c))
    ensures m.turn.lastBoundary == l.turn.lastBoundary && m.turn.endedOnFinal == l.turn.endedOnFinal
    ensures m.turn.ceilingFired <==> l.turn.ceilingFired || CutNow(l.overflowAttempted, o, c)
    ensures m.turn.stopCause == if CutNow(l.overflowAttempted, o, c) then TimeCeiling else l.turn.stopCause
    ensures m.i == l.i || m.i == l.i + 1
    ensures finalization ==> m.i == l.i
    ensures m.log == l.log + Compacted(l, o, c) + if m.i != l.i then [Announced(l.i)] else []
  {
    assert l.log + [] == l.log;
    if CompactsNow(l.overflowAttempted, o, c) {
      var n := l.(overflowAttempted := true, log := l.log + [OverflowCompaction(l.i)]);
      assert n.log + [] == n.log;
      if !o.freed { MetGoesOn(n, FailedAt(l.i, finalization, o, true), o, c, m); }
    } else {
      MetGoesOn(l, FailedAt(l.i, finalization, o, false), o, c, m);
    }
  }

  lemma ThrownEnds(l: Loop, finalization: bool, o: Outcome, c: Setup, end: Ended, log: seq<Event>)
    requires c.b.legSteps >= 1 && o.Threw? && Thrown(l, finalization, o, c) == Over(end, log)
    ensures end.at == l.i && log == l.log + Compacted(l, o, c) && end.onFinal == l.turn.endedOnFinal
    ensures end.stopCause == l.turn.stopCause || (end.reason == MaxSteps && end.stopCause == CreditStop)
  {
    assert l.log + [] == l.log;
    if CompactsNow(l.overflowAttempted, o, c) {
      var n := l.(overflowAttempted := true, log := l.log + [OverflowCompaction(l.i)]);
      MetEnds(n, FailedAt(l.i, finalization, o, true), o, c, end, log);
    } else {
      MetEnds(l, FailedAt(l.i, finalization, o, false), o, c, end, log);
    }
  }

  /** An iteration that comes back: what it did to the clock, the index, the boundary and the log. */
  lemma IterationGoesOn(l: Loop, a: Attempt, c: Setup, m: Loop)
    requires c.b.legSteps >= 1 && Iterated(l, a, c) == Again(m)
    ensures !a.abortedBefore && !Barren(l, c.b)
    ensures m.turn.lastBoundary == if IsBoundary(l.i, c.b.legSteps) then l.i else l.turn.lastBoundary
    ensures m.turn.endedOnFinal == l.turn.endedOnFinal
    ensures m.overflowAttempted == (l.overflowAttempted || CompactsNow(l.overflowAttempted, a.outcome, c))
    ensures m.turn.ceilingFired <==> l.turn.ceilingFired || CutNow(l.overflowAttempted, a.outcome, c)
    ensures var out := l.turn.ceilingFired || a.elapsedMs >= c.durationCeilingMs;
      && m.turn.stopCause ==
        (if out || CutNow(l.overflowAttempted, a.outcome, c) then TimeCeiling else l.turn.stopCause)
      && (out || l.i + 1 == c.b.stepCeiling ==> m.i == l.i)
      && m.log == l.log + StartEvents(l.turn, l.i, c.b) + Told(l, a.outcome, c, out, m.i != l.i)
    ensures m.i == l.i || m.i == l.i + 1
  {
    var out := l.turn.ceilingFired || a.elapsedMs >= c.durationCeilingMs;
    var finalization, n := l.i == c.b.stepCeiling - 1 || out, Begun(l, c.b, out);
    if a.outcome.Came? { TakenShape(n, finalization, a.outcome); }
    else { ThrownGoesOn(n, finalization, a.outcome, c, m); TellsThrown(l, n, a.outcome, c, out, m); }
  }

  /** What an iteration tells once its step has begun. */
  function Told(l: Loop, o: Outcome, c: Setup, outOfTime: bool, moves: bool): seq<Event> {
    if o.Came? then [StepFinished(l.i, o.usable, l.i + 1 == c.b.stepCeiling || outOfTime)]
    else Compacted(l, o, c) + if moves then [Announced(l.i)] else []
  }

  lemma TellsThrown(l: Loop, n: Loop, o: Outcome, c: Setup, outOfTime: bool, m: Loop)
    requires c.b.legSteps >= 1 && o.Threw? && n.i == l.i && n.overflowAttempted == l.overflowAttempted
    requires m.log == n.log + Compacted(n, o, c) + if m.i != n.i then [Announced(n.i)] else []
    ensures m.log == n.log + Told(l, o, c, outOfTime, m.i != l.i)
  {
  }

  ghost predicate RefusedBefore(world: nat -> Attempt, k: nat) {
    exists j :: 0 <= j < k && Refuses(world(j).outcome)
  }

  lemma RefusedOneMore(world: nat -> Attempt, k: nat)
    ensures RefusedBefore(world, k + 1) <==> RefusedBefore(world, k) || Refuses(world(k).outcome)
  {
  }

  lemma CutOneMore(world: nat -> Attempt, c: Setup, k: nat)
    ensures CutBefore(world, c, k + 1) <==> CutBefore(world, c, k) || CutShort(world, c, k)
  {
  }

  lemma UpOneMore(world: nat -> Attempt, c: Setup, k: nat)
    ensures UpBefore(world, c, k + 1) <==> UpBefore(world, c, k) || TimeUp(world, c, k)
  {
  }

  /** The loop's own record of the clock and of its compaction is the history of the turn. */
  ghost predicate RecordsClock(l: Loop, world: nat -> Attempt, c: Setup, k: nat) {
    && (l.overflowAttempted <==> c.canCompact && RefusedBefore(world, k))
    && (l.turn.ceilingFired <==> CutBefore(world, c, k))
    && (l.turn.stopCause == if UpBefore(world, c, k) || CutBefore(world, c, k) then TimeCeiling else StepCeiling)
    && l.turn.lastBoundary <= l.i && !l.turn.endedOnFinal
  }

  lemma RecordsOn(l: Loop, world: nat -> Attempt, c: Setup, k: nat, m: Loop)
    requires c.b.legSteps >= 1 && RecordsClock(l, world, c, k) && Iterated(l, world(k), c) == Again(m)
    ensures RecordsClock(m, world, c, k + 1)
  {
    IterationGoesOn(l, world(k), c, m);
    NowIsAt(l.overflowAttempted, world, c, k);
    RefusedOneMore(world, k);
    CutOneMore(world, c, k);
    UpOneMore(world, c, k);
  }

  lemma {:induction false} ClockIsHistory(run: seq<Loop>, world: nat -> Attempt, c: Setup, k: nat)
    requires c.b.legSteps >= 1 && IsRun(run, world, c) && k < |run|
    ensures RecordsClock(run[k], world, c, k)
  {
    if k > 0 {
      ClockIsHistory(run, world, c, k - 1);
      RecordsOn(run[k - 1], world, c, k - 1, run[k]);
    }
  }

  lemma NowIsAt(attempted: bool, world: nat -> Attempt, c: Setup, k: nat)
    requires attempted <==> c.canCompact && RefusedBefore(world, k)
    ensures CompactsNow(attempted, world(k).outcome, c) <==> CompactsAt(world, c, k)
    ensures CutNow(attempted, world(k).outcome, c) <==> CutShort(world, c, k)
  {
  }

  lemma BarrenExactly(l: Loop, b: Budgets, start: nat)
    requires b.legSteps >= 1 && AtHead(l, b, start)
    ensures Barren(l, b) <==> Fruitless(l, b.legSteps)
  {
    BoundaryEndsLeg(l, b, start);
  }

  /** A boundary is new exactly if the loop has just arrived at its index. */
  lemma ArrivesAnew(run: seq<Loop>, world: nat -> Attempt, c: Setup, k: nat)
    requires c.b.legSteps >= 1 && IsRun(run, world, c) && k < |run|
    ensures AtNewBoundary(run[k].turn, run[k].i, c.b) <==>
      IsBoundary(run[k].i, c.b.legSteps) && (k == 0 || run[k - 1].i != run[k].i)
  {
    if k > 0 {
      ClockIsHistory(run, world, c, k - 1);
      IterationGoesOn(run[k - 1], world(k - 1), c, run[k]);
    }
  }

  lemma ReservedExactly(run: seq<Loop>, world: nat -> Attempt, c: Setup, k: nat)
    requires c.b.legSteps >= 1 && IsRun(run, world, c) && k < |run|
    ensures Reserved(run, world, c, k) <==>
      run[k].i == c.b.stepCeiling - 1 || run[k].turn.ceilingFired || world(k).elapsedMs >= c.durationCeilingMs
    ensures Compacted(run[k], world(k).outcome, c) ==
      if CompactsAt(world, c, k) then [OverflowCompaction(run[k].i)] else []
  {
    ClockIsHistory(run, world, c, k);
    NowIsAt(run[k].overflowAttempted, world, c, k);
  }

  /** What an iteration tells is told by the history of the turn. */
  lemma HappenedExactly(run: seq<Loop>, world: nat -> Attempt, c: Setup, k: nat)
    requires 1 <= c.b.legSteps <= c.b.stepCeiling && IsRun(run, world, c) && k < |run|
    ensures Barren(run[k], c.b) <==> Fruitless(run[k], c.b.legSteps)
    ensures
      var out := run[k].turn.ceilingFired || world(k).elapsedMs >= c.durationCeilingMs;
      var moves := k + 1 < |run| && run[k + 1].i != run[k].i;
      var told := StartEvents(run[k].turn, run[k].i, c.b) + Told(run[k], world(k).outcome, c, out, moves);
      Happened(run, world, c, k) == if world(k).abortedBefore || Barren(run[k], c.b) then [] else told
  {
    var start := HeadsHold(run, world, c, k);
    BarrenExactly(run[k], c.b, start);
    ArrivesAnew(run, world, c, k);
    ReservedExactly(run, world, c, k);
  }

  lemma TellsOn(run: seq<Loop>, world: nat -> Attempt, c: Setup, k: nat)
    requires 1 <= c.b.legSteps <= c.b.stepCeiling && IsRun(run, world, c) && k + 1 < |run|
    ensures run[k + 1].log == run[k].log + Happened(run, world, c, k)
  {
    HappenedExactly(run, world, c, k);
    IterationGoesOn(run[k], world(k), c, run[k + 1]);
  }

  lemma IterationEnds(l: Loop, a: Attempt, c: Setup, end: Ended, log: seq<Event>)
    requires c.b.legSteps >= 1 && Iterated(l, a, c) == Over(end, log)
    ensures end.at == l.i
    ensures a.abortedBefore || Barren(l, c.b) || a.outcome.Threw? ==> end.onFinal == l.turn.endedOnFinal
    ensures a.abortedBefore || Barren(l, c.b) ==> log == l.log
    ensures !a.abortedBefore && !Barren(l, c.b) ==>
      var out := l.turn.ceilingFired || a.elapsedMs >= c.durationCeilingMs;
      log == l.log + StartEvents(l.turn, l.i, c.b) + Told(l, a.outcome, c, out, false)
  {
    if !a.abortedBefore && !Barren(l, c.b) {
      var out := l.turn.ceilingFired || a.elapsedMs >= c.durationCeilingMs;
      var finalization, n := l.i == c.b.stepCeiling - 1 || out, Begun(l, c.b, out);
      if a.outcome.Came? { TakenShape(n, finalization, a.outcome); }
      else { ThrownEnds(n, finalization, a.outcome, c, end, log); }
    }
  }

  lemma TellsEnd(run: seq<Loop>, world: nat -> Attempt, c: Setup, end: Ended, log: seq<Event>)
    requires 1 <= c.b.legSteps <= c.b.stepCeiling && IsRun(run, world, c)
    requires Iterated(run[|run| - 1], world(|run| - 1), c) == Over(end, log)
    ensures end.at == run[|run| - 1].i && log == run[|run| - 1].log + Happened(run, world, c, |run| - 1)
  {
    HappenedExactly(run, world, c, |run| - 1);
    IterationEnds(run[|run| - 1], world(|run| - 1), c, end, log);
  }

  /** Once the loop has begun its reserved step, it comes back to no other. */
  lemma {:induction false} ReservedIsLast(run: seq<Loop>, world: nat -> Attempt, c: Setup, k: nat, m: nat)
    requires c.b.legSteps >= 1 && IsRun(run, world, c) && k <= m < |run|
    requires ClockRuns(world) && Reserved(run, world, c, k)
    ensures run[m].i == run[k].i && Reserved(run, world, c, m)
  {
    if k < m {
      ReservedIsLast(run, world, c, k, m - 1);
      ReservedExactly(run, world, c, m - 1);
      IterationGoesOn(run[m - 1], world(m - 1), c, run[m]);
    }
  }

  /** With time not going back, the time is up now if it was up before. */
  lemma StillUp(world: nat -> Attempt, c: Setup, k: nat)
    requires ClockRuns(world)
    ensures UpBefore(world, c, k) ==> TimeUp(world, c, k)
  {
  }

  /** Iteration k gets past the boundary and begins its step. */
  ghost predicate Begins(run: seq<Loop>, world: nat -> Attempt, c: Setup, k: nat)
    requires c.b.legSteps >= 1 && k < |run|
  {
    !world(k).abortedBefore && !Fruitless(run[k], c.b.legSteps)
  }

  /** The verb, the ceiling and the breaker, in this order, say how a completed step ends the turn. */
  ghost predicate EndsOnStep(run: seq<Loop>, world: nat -> Attempt, c: Setup, end: Ended)
    requires run != [] && world(|run| - 1).outcome.Came?
  {
    var k, o := |run| - 1, world(|run| - 1).outcome;
    && (o.terminal.EndsSession? ==> end.reason == Finish)
    && (o.terminal.EndsTurn? ==> end.reason == Reply)
    && (end.onFinal <==> !o.terminal.NotTerminal? && Reserved(run, world, c, k))
    && (o.terminal.NotTerminal? && Reserved(run, world, c, k) ==> end.reason == MaxSteps)
    && (o.terminal.NotTerminal? && !Reserved(run, world, c, k) ==> o.breaker && end.reason == Reply)
  }

  /**
   * What the clock does to a turn. Its whole log is what its iterations tell; a step is logged as final
   * exactly if it is the last of the bound or the time was up when it began; once such a step has begun no
   * other does; and the turn ends with the time as its cause exactly if the time was up in its last iteration.
   */
  ghost predicate KeepsTime(run: seq<Loop>, world: nat -> Attempt, c: Setup, end: Ended, log: seq<Event>)
    requires c.b.legSteps >= 1
  {
    && run != [] && run[0].log == [] && end.at == run[|run| - 1].i
    && (forall k :: 0 <= k < |run| - 1 ==> run[k + 1].log == run[k].log + Happened(run, world, c, k))
    && log == run[|run| - 1].log + Happened(run, world, c, |run| - 1)
    && (ClockRuns(world) ==>
          forall k, m :: 0 <= k <= m < |run| && Reserved(run, world, c, k) ==> run[m].i == run[k].i)
    && (forall k :: 0 <= k < |run| - 1 && world(k).outcome.Came? ==>
          && world(k).outcome.terminal.NotTerminal? && !world(k).outcome.breaker && !Reserved(run, world, c, k)
          && run[k + 1].i == run[k].i + 1)
    && (Begins(run, world, c, |run| - 1) ==>
          && (world(|run| - 1).outcome.Came? ==> EndsOnStep(run, world, c, end))
          && (ClockRuns(world) && end.stopCause != CreditStop ==>
                end.stopCause == if TimeUp(world, c, |run| - 1) then TimeCeiling else StepCeiling)
          && (end.stopCause == CreditStop ==> world(|run| - 1).outcome.Threw? && end.reason == MaxSteps))
  }

  lemma StepsOn(l: Loop, a: Attempt, c: Setup, m: Loop)
    requires c.b.legSteps >= 1 && Iterated(l, a, c) == Again(m) && a.outcome.Came?
    ensures a.outcome.terminal.NotTerminal? && !a.outcome.breaker && m.i == l.i + 1
    ensures l.i != c.b.stepCeiling - 1 && !l.turn.ceilingFired && a.elapsedMs < c.durationCeilingMs
  {
  }

  lemma ComesOn(run: seq<Loop>, world: nat -> Attempt, c: Setup, k: nat)
    requires c.b.legSteps >= 1 && IsRun(run, world, c) && k + 1 < |run| && world(k).outcome.Came?
    ensures world(k).outcome.terminal.NotTerminal? && !world(k).outcome.breaker && !Reserved(run, world, c, k)
    ensures run[k + 1].i == run[k].i + 1
  {
    ReservedExactly(run, world, c, k);
    StepsOn(run[k], world(k), c, run[k + 1]);
  }

  /** How the last iteration ends the turn once its step has begun. */
  lemma EndsIteration(l: Loop, a: Attempt, c: Setup, end: Ended, log: seq<Event>)
    requires c.b.legSteps >= 1 && Iterated(l, a, c) == Over(end, log) && !a.abortedBefore && !Barren(l, c.b)
    ensures var out := l.turn.ceilingFired || a.elapsedMs >= c.durationCeilingMs;
      && (end.stopCause == (if out then TimeCeiling else l.turn.stopCause)
          || (a.outcome.Threw? && end.reason == MaxSteps && end.stopCause == CreditStop))
      && (a.outcome.Came? ==>
            var last := l.i == c.b.stepCeiling - 1 || out;
            && (a.outcome.terminal.EndsSession? ==> end.reason == Finish)
            && (a.outcome.terminal.EndsTurn? ==> end.reason == Reply)
            && end.onFinal == (if a.outcome.terminal.NotTerminal? then l.turn.endedOnFinal else last)
            && (a.outcome.terminal.NotTerminal? ==>
                  if last then end.reason == MaxSteps else a.outcome.breaker && end.reason == Reply))
  {
    var out := l.turn.ceilingFired || a.elapsedMs >= c.durationCeilingMs;
    var finalization, n := l.i == c.b.stepCeiling - 1 || out, Begun(l, c.b, out);
    if a.outcome.Came? { TakenShape(n, finalization, a.outcome); }
    else { ThrownEnds(n, finalization, a.outcome, c, end, log); }
  }

  lemma EndsInTime(run: seq<Loop>, world: nat -> Attempt, c: Setup, end: Ended, log: seq<Event>)
    requires 1 <= c.b.legSteps <= c.b.stepCeiling && IsRun(run, world, c)
    requires Iterated(run[|run| - 1], world(|run| - 1), c) == Over(end, log) && Begins(run, world, c, |run| - 1)
    ensures world(|run| - 1).outcome.Came? ==> EndsOnStep(run, world, c, end)
    ensures ClockRuns(world) && end.stopCause != CreditStop ==>
      end.stopCause == if TimeUp(world, c, |run| - 1) then TimeCeiling else StepCeiling
    ensures end.stopCause == CreditStop ==> world(|run| - 1).outcome.Threw? && end.reason == MaxSteps
  {
    var k := |run| - 1;
    HappenedExactly(run, world, c, k);
    ReservedExactly(run, world, c, k);
    ClockIsHistory(run, world, c, k);
    EndsIteration(run[k], world(k), c, end, log);
    if ClockRuns(world) { StillUp(world, c, k); }
  }

  lemma TurnKeepsTime(run: seq<Loop>, world: nat -> Attempt, c: Setup, end: Ended, log: seq<Event>)
    requires 1 <= c.b.legSteps <= c.b.stepCeiling && IsRun(run, world, c)
    requires Iterated(run[|run| - 1], world(|run| - 1), c) == Over(end, log)
    ensures KeepsTime(run, world, c, end, log)
  {
    forall k | 0 <= k < |run| - 1 ensures run[k + 1].log == run[k].log + Happened(run, world, c, k) {
      TellsOn(run, world, c, k);
    }
    TellsEnd(run, world, c, end, log);
    if ClockRuns(world) {
      forall k, m | 0 <= k <= m < |run| && Reserved(run, world, c, k) ensures run[m].i == run[k].i {
        ReservedIsLast(run, world, c, k, m);
      }
    }
    forall k | 0 <= k < |run| - 1 && world(k).outcome.Came?
      ensures world(k).outcome.terminal.NotTerminal? && !world(k).outcome.breaker && !Reserved(run, world, c, k)
      ensures run[k + 1].i == run[k].i + 1
    {
      ComesOn(run, world, c, k);
    }
    if Begins(run, world, c, |run| - 1) { EndsInTime(run, world, c, end, log); }
  }

  // ----- the loop itself -----

  datatype Control = Continue | Break(end: Ended)

  /** The loop variables and the turn after an iteration are what `Iterated` says. */
  ghost predicate Follows(next: Next, control: Control, i: nat, t: Turn, attempted: bool, log: seq<Event>) {
    next == if control.Continue? then Again(Loop(i, t, attempted, log)) else Over(control.end, log)
  }

  function EndOf(turn: TurnLoopState, reason: Reason, i: nat): Ended
    reads turn
  {
    Ended(reason, turn.stopCause, turn.stepsTaken, i, turn.endedOnFinalizationStep)
  }

  /** The turn's record of a completed step. */
  method RecordStep(turn: TurnLoopState, i: nat, usable: bool)
    modifies turn
    ensures turn.State() == Recorded(old(turn.State()), i, usable)
  {
    NoteRecovered(turn);
    turn.stepsTaken := turn.stepsTaken + 1;
    turn.oomRestarts := 0;
    var sameStep := turn.truncationRetry.Some? && turn.truncationRetry.value.stepIndex == i;
    turn.truncationRetries := if sameStep then turn.truncationRetries else 0;
    turn.emptyRecoveries := 0;
    turn.legMadeProgress := turn.legMadeProgress || usable;
  }

  /** The step that came back after a wait hands the next outage a fresh budget. */
  method NoteRecovered(turn: TurnLoopState)
    modifies turn`awaitingRecovery, turn`outageWaitedMs, turn`outageAttempts
    ensures turn.State() == Answered(old(turn.State()))
  {
    if turn.awaitingRecovery {
      turn.awaitingRecovery, turn.outageWaitedMs, turn.outageAttempts := false, 0, 0;
    }
  }

  /** A completed step: the record, then what it decides. */
  method TakeStep(turn: TurnLoopState, log: seq<Event>, i: nat, attempted: bool, finalization: bool, o: Outcome)
    returns (control: Control, i': nat, log': seq<Event>)
    requires o.Came?
    modifies turn
    ensures Follows(Taken(Loop(i, old(turn.State()), attempted, log), finalization, o),
                    control, i', turn.State(), attempted, log')
  {
    TakenShape(Loop(i, turn.State(), attempted, log), finalization, o);
    i', log' := i, log + [StepFinished(i, o.usable, finalization)];
    RecordStep(turn, i, o.usable);
    if !o.terminal.NotTerminal? {
      turn.endedOnFinalizationStep := finalization;
      turn.reason := if o.terminal.EndsSession? then Finish else Reply;
      control := Break(EndOf(turn, turn.reason, i));
    } else if finalization {
      turn.reason := MaxSteps;
      control := Break(EndOf(turn, turn.reason, i));
    } else if o.breaker {
      turn.reason := Reply;
      control := Break(EndOf(turn, turn.reason, i));
    } else {
      control, i' := Continue, i + 1;
    }
  }

  /** `recoverTurnStep` and the loop's answer to its decision. */
  method MeetFailure(turn: TurnLoopState, log: seq<Event>, i: nat, attempted: bool, f: Failed, c: Setup, o: Outcome)
    returns (control: Control, i': nat, log': seq<Event>)
    requires o.Threw? && c.b.legSteps >= 1 && f.index == i
    modifies turn
    ensures var l := Loop(i, old(turn.State()), attempted, log);
      Follows(Met(l, Recovered(l.turn, f, c.b, c.s), o), control, i', turn.State(), attempted, log')
  {
    control, i', log' := Continue, i, log;
    var decision := turn.RecoverTurnStep(f, c.b, c.s);
    match decision
    case Wait(nextRetryMs) =>
      turn.outageWaitedMs := turn.outageWaitedMs + nextRetryMs;
      if o.abortedAfter { control := Break(EndOf(turn, Cancelled, i)); }
    case OutOfMemory =>
      if o.restarted && turn.oomRestarts < OUT_OF_MEMORY_MAX_RESTARTS {
        turn.oomRestarts := turn.oomRestarts + 1;
      } else {
        var reason := if o.abortedAfter then Cancelled else Reason.Failed;
        control := Break(EndOf(turn, reason, i));
      }
    case RetrySame =>
    case RetryNext => i', log' := i + 1, log + [Announced(i)];
    case Stop => control := Break(EndOf(turn, MaxSteps, i));
    case Failure(cancelled) =>
      control := Break(EndOf(turn, if cancelled then Cancelled else Reason.Failed, i));
  }

  /** A step that threw: the turn's one overflow compaction first, then the ordinary recovery. */
  method FailStep(turn: TurnLoopState, log: seq<Event>, i: nat, attempted: bool, finalization: bool, o: Outcome,
                  c: Setup)
    returns (control: Control, i': nat, attempted': bool, log': seq<Event>)
    requires o.Threw? && c.b.legSteps >= 1
    modifies turn
    ensures Follows(Thrown(Loop(i, old(turn.State()), attempted, log), finalization, o, c),
                    control, i', turn.State(), attempted', log')
  {
    i', attempted', log' := i, attempted, log;
    if o.err.SizeRefusal? && o.overflows && !attempted && c.canCompact && !o.deadlineFired && !o.aborted {
      attempted', log' := true, log + [OverflowCompaction(i)];
      if o.freed {
        turn.sizeRepackRetry := Some(i);
        return Continue, i, attempted', log';
      }
    }
    var deadlineFired, aborted := o.deadlineFired, o.aborted;
    if attempted' && !attempted {
      deadlineFired, aborted := deadlineFired || o.firedDuring, aborted || o.abortedDuring;
    }
    var f := Failed.Failed(o.err, i, finalization, o.cloud, deadlineFired, aborted);
    control, i', log' := MeetFailure(turn, log', i, attempted', f, c, o);
  }

  /** A leg boundary: the turn ends there if the leg brought nothing back, and else begins the next leg. */
  method CrossBoundary(turn: TurnLoopState, i: nat, b: Budgets) returns (barren: bool, continued: bool)
    requires b.legSteps >= 1
    modifies turn
    ensures continued == (AtNewBoundary(old(turn.State()), i, b) && !barren)
    ensures barren == (AtNewBoundary(old(turn.State()), i, b) && !old(turn.State()).progress)
    ensures turn.State() ==
      if barren then old(turn.State()).(lastBoundary := i, stopCause := NoProgress, reason := MaxSteps)
      else Crossed(old(turn.State()), i, b, false)
  {
    barren, continued := false, false;
    if IsBoundary(i, b.legSteps) && i != turn.lastBoundaryIndex {
      turn.lastBoundaryIndex := i;
      if !turn.legMadeProgress {
        turn.stopCause, turn.reason := NoProgress, MaxSteps;
        return true, false;
      }
      turn.legMadeProgress := false;
      continued := true;
    }
  }

  /** The body of the loop. */
  method Iterate(turn: TurnLoopState, log: seq<Event>, i: nat, attempted: bool, a: Attempt, c: Setup)
    returns (control: Control, i': nat, attempted': bool, log': seq<Event>)
    requires c.b.legSteps >= 1
    modifies turn
    ensures Follows(Iterated(Loop(i, old(turn.State()), attempted, log), a, c),
                    control, i', turn.State(), attempted', log')
  {
    i', attempted', log' := i, attempted, log;
    if a.abortedBefore {
      return Break(EndOf(turn, Cancelled, i)), i, attempted, log;
    }
    var barren, continued := CrossBoundary(turn, i, c.b);
    if barren { return Break(EndOf(turn, turn.reason, i)), i, attempted, log; }
    if continued { log' := log' + [TaskContinued(i)]; }
    log' := log' + [StepStarted(i)];
    var outOfTime := turn.ceilingFiredMidRequest || a.elapsedMs >= c.durationCeilingMs;
    if outOfTime { turn.stopCause := TimeCeiling; }
    var finalization := i == c.b.stepCeiling - 1 || outOfTime;
    assert turn.State() == Crossed(old(turn.State()), i, c.b, outOfTime);
    assert log' == log + StartEvents(old(turn.State()), i, c.b);
    if a.outcome.Came? {
      control, i', log' := TakeStep(turn, log', i, attempted, finalization, a.outcome);
    } else {
      control, i', attempted', log' := FailStep(turn, log', i, attempted, finalization, a.outcome, c);
    }
  }

  /** One iteration, with what it keeps. */
  method Advance(turn: TurnLoopState, log: seq<Event>, i: nat, attempted: bool, a: Attempt, c: Setup, ghost start: nat)
    returns (control: Control, i': nat, attempted': bool, log': seq<Event>, ghost start': nat)
    requires c.b.legSteps >= 1 && AtHead(Loop(i, turn.State(), attempted, log), c.b, start)
    modifies turn
    ensures Follows(Iterated(Loop(i, old(turn.State()), attempted, log), a, c),
                    control, i', turn.State(), attempted', log')
    ensures control.Break? ==> Promised(control.end, log', c.b)
    ensures control.Continue? ==> AtHead(Loop(i', turn.State(), attempted', log'), c.b, start')
    ensures control.Continue? ==>
      Nearer(Loop(i, old(turn.State()), attempted, log), Loop(i', turn.State(), attempted', log'), c)
  {
    IterationAdvances(Loop(i, turn.State(), attempted, log), a, c, start);
    control, i', attempted', log' := Iterate(turn, log, i, attempted, a, c);
    start' := start;
    if control.Continue? { start' :| AtHead(Loop(i', turn.State(), attempted', log'), c.b, start'); }
  }

  lemma RunGrows(run: seq<Loop>, world: nat -> Attempt, c: Setup, m: Loop)
    requires c.b.legSteps >= 1 && IsRun(run, world, c) && Iterated(run[|run| - 1], world(|run| - 1), c) == Again(m)
    ensures IsRun(run + [m], world, c)
  {
  }

  /**
   * `runTurnInner`: for every world this terminates, however the wait, out-of-memory, overflow and
   * same-step retries hold the index back. It runs exactly the iterations of `Iterated` and keeps
   * what `Promised` says.
   */
  method RunTurnInner(c: Setup, world: nat -> Attempt) returns (end: Ended, log: seq<Event>, ghost run: seq<Loop>)
    requires 1 <= c.b.legSteps <= c.b.stepCeiling
    ensures IsRun(run, world, c)
    ensures Iterated(run[|run| - 1], world(|run| - 1), c) == Over(end, log)
    ensures Promised(end, log, c.b) && KeepsTime(run, world, c, end, log)
  {
    var turn := new TurnLoopState();
    var i: nat, n: nat, overflowAttempted := 0, 0, false;
    ghost var start: nat := 0;
    log, run := [], [START];
    while i < c.b.stepCeiling
      invariant fresh(turn) && |run| == n + 1 && run[n] == Loop(i, turn.State(), overflowAttempted, log)
      invariant IsRun(run, world, c) && AtHead(run[n], c.b, start)
      decreases c.b.stepCeiling - i, !overflowAttempted, RetriesLeft(turn.State(), i, c.s)
    {
      var control;
      control, i, overflowAttempted, log, start := Advance(turn, log, i, overflowAttempted, world(n), c, start);
      if control.Break? {
        TurnKeepsTime(run, world, c, control.end, log);
        return control.end, log, run;
      }
      RunGrows(run, world, c, Loop(i, turn.State(), overflowAttempted, log));
      run := run + [Loop(i, turn.State(), overflowAttempted, log)];
      n := n + 1;
    }
    assert false;
  }
}
