/** The control state of a turn, read off everything that has happened in it: src/agent/agent-loop.ts. */
module TurnHistory {
  import opened Wrappers
  import opened Numbers
  import opened TurnRecovery
  import opened TurnLog
  import opened AgentLoop

  // ----- what one iteration that comes back leaves -----

  /** What a failure the turn goes on from leaves behind, by what was thrown and whether the deadline fired. */
  ghost function Left(t: Turn, i: nat, err: TurnRecovery.Thrown, cut: bool, s: Settings): Turn {
    if cut then t.(stopCause := TimeCeiling, ceilingFired := true)
    else if err.Outage? then
      t.(outageAttempts := t.outageAttempts + 1, awaiting := true,
         waitedMs := Max(0, t.waitedMs + WaitFor(err, t.outageAttempts, s.maxWaitMs - t.waitedMs)))
    else if err.LocalOutOfMemory? then t.(oomRestarts := t.oomRestarts + 1)
    else if err.Truncated? then
      t.(truncation := Some(TruncationRetry(i, TriesAt(t, i) + 1, err.raisesCap)),
         truncationRetries := t.truncationRetries + 1, emptyRecoveries := 0)
    else if err.Unparseable? then
      t.(parseRecoveries := t.parseRecoveries + 1, stepsTaken := t.stepsTaken + 1, emptyRecoveries := 0)
    else if err.EmptyCompletion? then
      t.(emptyRecoveries := t.emptyRecoveries + 1, stepsTaken := t.stepsTaken + 1)
    else t.(repacked := Some(i))
  }

  ghost function TriesAt(t: Turn, i: nat): nat {
    if t.truncation.Some? && t.truncation.value.stepIndex == i then t.truncation.value.attempts else 0
  }

  lemma MetLeaves(l: Loop, f: Failed, o: Outcome, c: Setup, m: Loop)
    requires c.b.legSteps >= 1 && o.Threw? && f.index == l.i && f.err == o.err
    requires Met(l, Recovered(l.turn, f, c.b, c.s), o) == Again(m)
    ensures m.turn == Left(l.turn, l.i, o.err, f.deadlineFired && !f.aborted, c.s)
    ensures m.i == if (o.err.Unparseable? || o.err.EmptyCompletion?) && !f.deadlineFired then l.i + 1 else l.i
  {
    RetriesSameExactly(l.turn, f, c.b, c.s);
    RetriesNextExactly(l.turn, f, c.b, c.s);
    WaitsExactly(l.turn, f, c.b, c.s);
    OutOfMemoryExactly(l.turn, f, c.b, c.s);
    if Recovered(l.turn, f, c.b, c.s).decision.Wait? { WaitLastsExactly(l.turn, f, c.b, c.s); }
  }

  lemma ThrownLeaves(l: Loop, finalization: bool, o: Outcome, c: Setup, m: Loop)
    requires c.b.legSteps >= 1 && o.Threw? && AgentLoop.Thrown(l, finalization, o, c) == Again(m)
    ensures m.turn == Left(l.turn, l.i, o.err, CutNow(l.overflowAttempted, o, c), c.s)
    ensures m.i ==
      l.i + if (o.err.Unparseable? || o.err.EmptyCompletion?) && !CutNow(l.overflowAttempted, o, c) then 1 else 0
  {
    if CompactsNow(l.overflowAttempted, o, c) {
      var n := l.(overflowAttempted := true, log := l.log + [OverflowCompaction(l.i)]);
      if !o.freed { MetLeaves(n, FailedAt(l.i, finalization, o, true), o, c, m); }
    } else {
      MetLeaves(l, FailedAt(l.i, finalization, o, false), o, c, m);
    }
  }

  // ----- the history of a turn -----

  /** Iteration j threw of itself, not because the deadline cut it short. */
  ghost predicate Fails(world: nat -> Attempt, c: Setup, j: nat) {
    world(j).outcome.Threw? && !CutShort(world, c, j)
  }

  ghost predicate Lost(world: nat -> Attempt, c: Setup, j: nat) {
    Fails(world, c, j) && (world(j).outcome.err.Unparseable? || world(j).outcome.err.EmptyCompletion?)
  }

  /** A completed step moves the index on, and so does a completion that could not be used. */
  ghost function Index(world: nat -> Attempt, c: Setup, k: nat): nat {
    if k == 0 then 0
    else Index(world, c, k - 1) + if world(k - 1).outcome.Came? || Lost(world, c, k - 1) then 1 else 0
  }

  /** The outages since a step last completed, and how long they have been waited out. */
  ghost function Outages(world: nat -> Attempt, c: Setup, k: nat): nat {
    if k == 0 || world(k - 1).outcome.Came? then 0
    else Outages(world, c, k - 1) + if Fails(world, c, k - 1) && world(k - 1).outcome.err.Outage? then 1 else 0
  }

  ghost function Parked(world: nat -> Attempt, c: Setup, k: nat): nat {
    if k == 0 || world(k - 1).outcome.Came? then 0
    else if Fails(world, c, k - 1) && world(k - 1).outcome.err.Outage? then
      var before := Parked(world, c, k - 1);
      Max(0, before + WaitFor(world(k - 1).outcome.err, Outages(world, c, k - 1), c.s.maxWaitMs - before))
    else Parked(world, c, k - 1)
  }

  /** The restarts of the local model since a step last completed. */
  ghost function Restarts(world: nat -> Attempt, c: Setup, k: nat): nat {
    if k == 0 || world(k - 1).outcome.Came? then 0
    else
      Restarts(world, c, k - 1)
      + if Fails(world, c, k - 1) && world(k - 1).outcome.err.LocalOutOfMemory? then 1 else 0
  }

  /** The unreadable completions of the whole turn. */
  ghost function Unreadable(world: nat -> Attempt, c: Setup, k: nat): nat {
    if k == 0 then 0
    else Unreadable(world, c, k - 1) + if Fails(world, c, k - 1) && world(k - 1).outcome.err.Unparseable? then 1 else 0
  }

  /** The empty completions since anything else came back. */
  ghost function Empties(world: nat -> Attempt, c: Setup, k: nat): nat {
    if k == 0 || world(k - 1).outcome.Came? then 0
    else if !Fails(world, c, k - 1) then Empties(world, c, k - 1)
    else
      match world(k - 1).outcome.err
      case EmptyCompletion => Empties(world, c, k - 1) + 1
      case Unparseable => 0
      case Truncated(_, _, _) => 0
      case _ => Empties(world, c, k - 1)
  }

  /** A reply of step i was cut in iteration j. */
  ghost predicate Cuts(world: nat -> Attempt, c: Setup, j: nat, i: nat) {
    Fails(world, c, j) && world(j).outcome.err.Truncated? && Index(world, c, j) == i
  }

  ghost function CutsOf(world: nat -> Attempt, c: Setup, k: nat, i: nat): nat {
    if k == 0 then 0 else CutsOf(world, c, k - 1, i) + if Cuts(world, c, k - 1, i) then 1 else 0
  }

  /** The cut replies since a step last completed that had none itself. */
  ghost function CutsInARow(world: nat -> Attempt, c: Setup, k: nat): nat {
    if k == 0 then 0
    else
      var here := CutsOf(world, c, k - 1, Index(world, c, k - 1));
      if world(k - 1).outcome.Came? && here == 0 then 0
      else CutsInARow(world, c, k - 1) + if Cuts(world, c, k - 1, Index(world, c, k - 1)) then 1 else 0
  }

  /** The latest cut reply of step i was answered by raising the cap. */
  ghost predicate Raised(world: nat -> Attempt, c: Setup, k: nat, i: nat) {
    k > 0 && if Cuts(world, c, k - 1, i) then world(k - 1).outcome.err.raisesCap else Raised(world, c, k - 1, i)
  }

  /** Step i has been refused for its size before. */
  ghost predicate Packed(world: nat -> Attempt, c: Setup, k: nat, i: nat) {
    k > 0 && ((Fails(world, c, k - 1) && world(k - 1).outcome.err.SizeRefusal? && Index(world, c, k - 1) == i)
              || Packed(world, c, k - 1, i))
  }

  lemma {:induction false} NothingAhead(world: nat -> Attempt, c: Setup, k: nat, i: nat)
    requires i > Index(world, c, k)
    ensures CutsOf(world, c, k, i) == 0 && !Raised(world, c, k, i) && !Packed(world, c, k, i)
  {
    if k > 0 { NothingAhead(world, c, k - 1, i); }
  }

  // ----- the turn remembers its history -----

  ghost predicate RemembersWaits(l: Loop, world: nat -> Attempt, c: Setup, k: nat) {
    && l.i == Index(world, c, k) && l.turn.stepsTaken == Index(world, c, k)
    && l.turn.outageAttempts == Outages(world, c, k) && l.turn.waitedMs == Parked(world, c, k)
    && (l.turn.awaiting <==> Outages(world, c, k) > 0)
    && l.turn.oomRestarts == Restarts(world, c, k)
    && (Outages(world, c, k) == 0 ==> Parked(world, c, k) == 0)
  }

  ghost predicate RemembersRetries(l: Loop, world: nat -> Attempt, c: Setup, k: nat) {
    && l.turn.parseRecoveries == Unreadable(world, c, k) && l.turn.emptyRecoveries == Empties(world, c, k)
    && TriesAt(l.turn, l.i) == CutsOf(world, c, k, l.i) && l.turn.truncationRetries == CutsInARow(world, c, k)
    && (CutsOf(world, c, k, l.i) > 0 <==> l.turn.truncation.Some? && l.turn.truncation.value.stepIndex == l.i)
    && (Raised(world, c, k, l.i) <==>
          (l.turn.truncation.Some? && l.turn.truncation.value.stepIndex == l.i && l.turn.truncation.value.raised))
    && (l.turn.repacked == Some(l.i) <==> Packed(world, c, k, l.i))
    && (l.turn.truncation.Some? ==> l.turn.truncation.value.stepIndex <= l.i)
    && (l.turn.repacked.Some? ==> l.turn.repacked.value <= l.i)
  }

  /** The parts of the control state that count waits and retries. */
  ghost predicate SameCounts(t: Turn, u: Turn) {
    && t.stepsTaken == u.stepsTaken && t.outageAttempts == u.outageAttempts && t.waitedMs == u.waitedMs
    && t.awaiting == u.awaiting && t.oomRestarts == u.oomRestarts && t.parseRecoveries == u.parseRecoveries
    && t.emptyRecoveries == u.emptyRecoveries && t.truncation == u.truncation
    && t.truncationRetries == u.truncationRetries && t.repacked == u.repacked
  }

  lemma CameLeaves(l: Loop, a: Attempt, c: Setup, m: Loop)
    requires c.b.legSteps >= 1 && Iterated(l, a, c) == Again(m) && a.outcome.Came?
    ensures m.i == l.i + 1
    ensures var waited := l.turn.awaiting;
      var cut := l.turn.truncation.Some? && l.turn.truncation.value.stepIndex == l.i;
      SameCounts(m.turn, l.turn.(
        stepsTaken := l.turn.stepsTaken + 1, outageAttempts := if waited then 0 else l.turn.outageAttempts,
        waitedMs := if waited then 0 else l.turn.waitedMs, awaiting := false, oomRestarts := 0, emptyRecoveries := 0,
        truncationRetries := if cut then l.turn.truncationRetries else 0))
  {
  }

  lemma LeftCounts(t: Turn, u: Turn, i: nat, err: TurnRecovery.Thrown, cut: bool, s: Settings)
    requires SameCounts(t, u)
    ensures SameCounts(Left(t, i, err, cut, s), Left(u, i, err, cut, s))
  {
  }

  lemma Throws(l: Loop, a: Attempt, c: Setup, m: Loop) returns (n: Loop, finalization: bool)
    requires c.b.legSteps >= 1 && Iterated(l, a, c) == Again(m) && a.outcome.Threw?
    ensures n.i == l.i && n.overflowAttempted == l.overflowAttempted && SameCounts(n.turn, l.turn)
    ensures AgentLoop.Thrown(n, finalization, a.outcome, c) == Again(m)
  {
    var out := l.turn.ceilingFired || a.elapsedMs >= c.durationCeilingMs;
    n, finalization := Begun(l, c.b, out), l.i == c.b.stepCeiling - 1 || out;
  }

  lemma ThrewLeaves(l: Loop, a: Attempt, c: Setup, m: Loop)
    requires c.b.legSteps >= 1 && Iterated(l, a, c) == Again(m) && a.outcome.Threw?
    ensures var err, cut := a.outcome.err, CutNow(l.overflowAttempted, a.outcome, c);
      && SameCounts(m.turn, Left(l.turn, l.i, err, cut, c.s))
      && m.i == l.i + (if (err.Unparseable? || err.EmptyCompletion?) && !cut then 1 else 0)
      && (!cut ==> GoesOnFrom(err))
  {
    var n, finalization := Throws(l, a, c, m);
    assert CutNow(n.overflowAttempted, a.outcome, c) == CutNow(l.overflowAttempted, a.outcome, c);
    ThrownLeaves(n, finalization, a.outcome, c, m);
    LeftCounts(n.turn, l.turn, l.i, a.outcome.err, CutNow(l.overflowAttempted, a.outcome, c), c.s);
    if !CutNow(l.overflowAttempted, a.outcome, c) { ThrownKinds(n, finalization, a.outcome, c, m); }
  }

  predicate GoesOnFrom(err: TurnRecovery.Thrown) {
    || err.Outage? || err.LocalOutOfMemory? || err.Truncated? || err.Unparseable? || err.EmptyCompletion?
    || err.SizeRefusal?
  }

  /** These are the failures a turn can go on from. */
  lemma ThrownKinds(l: Loop, finalization: bool, o: Outcome, c: Setup, m: Loop)
    requires c.b.legSteps >= 1 && o.Threw? && AgentLoop.Thrown(l, finalization, o, c) == Again(m)
    requires !CutNow(l.overflowAttempted, o, c)
    ensures GoesOnFrom(o.err)
  {
    if !o.err.SizeRefusal? {
      var f := FailedAt(l.i, finalization, o, false);
      RetriesSameExactly(l.turn, f, c.b, c.s);
      RetriesNextExactly(l.turn, f, c.b, c.s);
      WaitsExactly(l.turn, f, c.b, c.s);
      OutOfMemoryExactly(l.turn, f, c.b, c.s);
    }
  }

  lemma RemembersWaitsOn(l: Loop, world: nat -> Attempt, c: Setup, k: nat, m: Loop)
    requires c.b.legSteps >= 1 && RemembersWaits(l, world, c, k) && Iterated(l, world(k), c) == Again(m)
    requires CutNow(l.overflowAttempted, world(k).outcome, c) <==> CutShort(world, c, k)
    ensures RemembersWaits(m, world, c, k + 1)
  {
    if world(k).outcome.Came? { CameLeaves(l, world(k), c, m); } else { ThrewLeaves(l, world(k), c, m); }
  }

  lemma CameRemembered(l: Loop, world: nat -> Attempt, c: Setup, k: nat, m: Loop)
    requires RemembersRetries(l, world, c, k) && world(k).outcome.Came? && l.i == Index(world, c, k) && m.i == l.i + 1
    requires m.turn.parseRecoveries == l.turn.parseRecoveries && m.turn.emptyRecoveries == 0
    requires m.turn.truncation == l.turn.truncation && m.turn.repacked == l.turn.repacked
    requires var cut := l.turn.truncation.Some? && l.turn.truncation.value.stepIndex == l.i;
      m.turn.truncationRetries == if cut then l.turn.truncationRetries else 0
    ensures RemembersRetries(m, world, c, k + 1)
  {
    NothingAhead(world, c, k, l.i + 1);
  }

  lemma ThrewRemembered(l: Loop, world: nat -> Attempt, c: Setup, k: nat, m: Loop, cut: bool)
    requires RemembersRetries(l, world, c, k) && world(k).outcome.Threw? && l.i == Index(world, c, k)
    requires (cut <==> CutShort(world, c, k)) && (!cut ==> GoesOnFrom(world(k).outcome.err))
    requires SameCounts(m.turn, Left(l.turn, l.i, world(k).outcome.err, cut, c.s))
    requires m.i == l.i + if Lost(world, c, k) then 1 else 0
    ensures RemembersRetries(m, world, c, k + 1)
  {
    if Lost(world, c, k) { NothingAhead(world, c, k, l.i + 1); }
  }

  lemma RemembersRetriesOn(l: Loop, world: nat -> Attempt, c: Setup, k: nat, m: Loop)
    requires c.b.legSteps >= 1 && RemembersRetries(l, world, c, k) && Iterated(l, world(k), c) == Again(m)
    requires l.i == Index(world, c, k)
    requires CutNow(l.overflowAttempted, world(k).outcome, c) <==> CutShort(world, c, k)
    ensures RemembersRetries(m, world, c, k + 1)
  {
    if world(k).outcome.Came? {
      CameLeaves(l, world(k), c, m);
      CameRemembered(l, world, c, k, m);
    } else {
      ThrewLeaves(l, world(k), c, m);
      ThrewRemembered(l, world, c, k, m, CutNow(l.overflowAttempted, world(k).outcome, c));
    }
  }

  lemma RemembersStart(world: nat -> Attempt, c: Setup)
    ensures RemembersWaits(START, world, c, 0) && RemembersRetries(START, world, c, 0)
  {
  }

  /** Between two iterations the control state holds exactly what has happened so far. */
  lemma {:induction false} TurnRemembers(run: seq<Loop>, world: nat -> Attempt, c: Setup, k: nat)
    requires c.b.legSteps >= 1 && IsRun(run, world, c) && k < |run|
    ensures RemembersWaits(run[k], world, c, k) && RemembersRetries(run[k], world, c, k)
  {
    if k == 0 {
      RemembersStart(world, c);
    } else {
      TurnRemembers(run, world, c, k - 1);
      CutsAreShort(run, world, c, k - 1);
      RemembersWaitsOn(run[k - 1], world, c, k - 1, run[k]);
      RemembersRetriesOn(run[k - 1], world, c, k - 1, run[k]);
    }
  }

  lemma CutsAreShort(run: seq<Loop>, world: nat -> Attempt, c: Setup, k: nat)
    requires c.b.legSteps >= 1 && IsRun(run, world, c) && k < |run|
    ensures CutNow(run[k].overflowAttempted, world(k).outcome, c) <==> CutShort(world, c, k)
  {
    ClockIsHistory(run, world, c, k);
    NowIsAt(run[k].overflowAttempted, world, c, k);
  }

  // ----- which iterations come back, and how the others end the turn -----

  /** A completion that could not be used is retried in the next step, if the turn will take one. */
  ghost predicate MayMoveOn(t: Turn, log: seq<Event>, f: Failed, b: Budgets)
    requires b.legSteps >= 1
  {
    && Uninterrupted(f) && !f.finalization
    && ((f.err.Unparseable? && t.parseRecoveries < 2) || (f.err.EmptyCompletion? && t.emptyRecoveries < 1))
    && f.index + 1 < b.stepCeiling
    && ((f.index + 1) % b.legSteps == 0 ==> UsableIn(log, f.index + 1 - b.legSteps, f.index + 1))
  }

  predicate OutOfMemoryHere(f: Failed) { f.err.LocalOutOfMemory? && Uninterrupted(f) && !f.finalization }

  /** The turn goes on from a failure: at the same step, in the next one, after a wait or on a restarted model. */
  ghost predicate MayGoOn(t: Turn, log: seq<Event>, f: Failed, o: Outcome, c: Setup)
    requires c.b.legSteps >= 1 && o.Threw?
  {
    || MustRetrySame(t, f) || MayMoveOn(t, log, f, c.b) || (MustWait(t, f, c.s) && !o.abortedAfter)
    || (OutOfMemoryHere(f) && o.restarted && t.oomRestarts < 3)
  }

  /** Otherwise it ends: stopped in order, cancelled by the user, now or while it waited, or failed. */
  ghost predicate MustEndAs(t: Turn, f: Failed, o: Outcome, c: Setup, end: Ended)
    requires o.Threw?
  {
    && (end.reason == MaxSteps <==> MustStop(t, f, c.s))
    && (end.reason == Cancelled <==>
          EndedByUser(f) || (o.abortedAfter && (MustWait(t, f, c.s) || OutOfMemoryHere(f))))
    && (end.reason == MaxSteps || end.reason == Cancelled || end.reason == Reason.Failed)
    && (end.stopCause == CreditStop <==> MustStop(t, f, c.s) && !f.finalization)
    && end.stepsTaken == t.stepsTaken + if MustStop(t, f, c.s) && f.finalization then 1 else 0
  }

  lemma DecidedExactly(t: Turn, f: Failed, c: Setup)
    requires c.b.legSteps >= 1
    ensures var d := Recovered(t, f, c.b, c.s).decision;
      && (d.RetrySame? <==> MustRetrySame(t, f)) && (d.RetryNext? <==> MustRetryNext(t, f, c.b))
      && (d.Wait? <==> MustWait(t, f, c.s)) && (d.OutOfMemory? <==> OutOfMemoryHere(f))
      && (d.Stop? <==> MustStop(t, f, c.s)) && (d == Failure(true) <==> EndedByUser(f))
  {
    RetriesSameExactly(t, f, c.b, c.s);
    RetriesNextExactly(t, f, c.b, c.s);
    WaitsExactly(t, f, c.b, c.s);
    OutOfMemoryExactly(t, f, c.b, c.s);
    StopsExactly(t, f, c.b, c.s);
    FailsExactly(t, f, c.b, c.s);
  }

  lemma MovesOnExactly(l: Loop, b: Budgets, start: nat, f: Failed)
    requires b.legSteps >= 1 && f.index == l.i && InStep(l, b, start, f.finalization)
    ensures MustRetryNext(l.turn, f, b) <==> MayMoveOn(l.turn, l.log, f, b)
  {
    AvailableExactly(l, b, start, f.finalization);
  }

  lemma MetExactly(l: Loop, f: Failed, o: Outcome, c: Setup, start: nat)
    requires c.b.legSteps >= 1 && o.Threw? && f.index == l.i && InStep(l, c.b, start, f.finalization)
    ensures var next := Met(l, Recovered(l.turn, f, c.b, c.s), o);
      && (next.Again? <==> MayGoOn(l.turn, l.log, f, o, c))
      && (next.Over? ==> MustEndAs(l.turn, f, o, c, next.end))
  {
    DecidedExactly(l.turn, f, c);
    MovesOnExactly(l, c.b, start, f);
    StopsExactly(l.turn, f, c.b, c.s);
    FailsExactly(l.turn, f, c.b, c.s);
    OutOfMemoryExactly(l.turn, f, c.b, c.s);
    RecoveryStops(l.turn, f, c.b, c.s);
    RecoveryCounts(l.turn, f, c.b, c.s);
  }

  /** The failure of iteration k as the recovery reads it. */
  ghost function FailureOf(run: seq<Loop>, world: nat -> Attempt, c: Setup, k: nat): Failed
    requires k < |run| && world(k).outcome.Threw?
  {
    var o, late := world(k).outcome, CompactsAt(world, c, k);
    Failed.Failed(o.err, run[k].i, Reserved(run, world, c, k), o.cloud,
                  if late then o.firedDuring else o.deadlineFired, if late then o.abortedDuring else o.aborted)
  }

  /** Iteration k, once its step has thrown, leads to another: by the compaction that freed room, or by the recovery. */
  ghost predicate Recovers(run: seq<Loop>, world: nat -> Attempt, c: Setup, k: nat)
    requires c.b.legSteps >= 1 && k < |run| && world(k).outcome.Threw?
  {
    || (CompactsAt(world, c, k) && world(k).outcome.freed)
    || MayGoOn(run[k].turn, run[k].log, FailureOf(run, world, c, k), world(k).outcome, c)
  }

  lemma QuietUsable(log: seq<Event>, more: seq<Event>, lo: int, hi: int)
    requires forall p :: 0 <= p < |more| ==> !more[p].StepFinished?
    ensures UsableIn(log + more, lo, hi) <==> UsableIn(log, lo, hi)
    decreases |more|
  {
    if more == [] {
      assert log + more == log;
    } else {
      var n := |more| - 1;
      QuietUsable(log, more[..n], lo, hi);
      UsableAppend(log + more[..n], more[n], lo, hi);
      assert log + more == log + more[..n] + [more[n]];
    }
  }

  /** The decisions read counters that a boundary and the clock leave alone. */
  lemma SameDecisions(t: Turn, u: Turn, log: seq<Event>, more: seq<Event>, f: Failed, o: Outcome, c: Setup)
    requires c.b.legSteps >= 1 && o.Threw? && SameCounts(t, u)
    requires forall p :: 0 <= p < |more| ==> !more[p].StepFinished?
    ensures MayGoOn(t, log + more, f, o, c) <==> MayGoOn(u, log, f, o, c)
    ensures forall end :: MustEndAs(t, f, o, c, end) <==> MustEndAs(u, f, o, c, end)
  {
    QuietUsable(log, more, f.index + 1 - c.b.legSteps, f.index + 1);
  }

  /** The step of iteration k as it threw. */
  lemma BegunThrows(run: seq<Loop>, world: nat -> Attempt, c: Setup, k: nat) returns (n: Loop, start: nat)
    requires 1 <= c.b.legSteps <= c.b.stepCeiling && IsRun(run, world, c) && k < |run|
    requires world(k).outcome.Threw? && Begins(run, world, c, k)
    ensures n.i == run[k].i && n.overflowAttempted == run[k].overflowAttempted && SameCounts(n.turn, run[k].turn)
    ensures n.log == run[k].log + StartEvents(run[k].turn, run[k].i, c.b)
    ensures InStep(n, c.b, start, Reserved(run, world, c, k))
    ensures Iterated(run[k], world(k), c) == AgentLoop.Thrown(n, Reserved(run, world, c, k), world(k).outcome, c)
  {
    var l := run[k];
    var leg := HeadsHold(run, world, c, k);
    BarrenExactly(l, c.b, leg);
    ReservedExactly(run, world, c, k);
    var out := l.turn.ceilingFired || world(k).elapsedMs >= c.durationCeilingMs;
    BeginsInStep(l, c.b, leg, out);
    n, start := Begun(l, c.b, out), LegAt(l.turn, l.i, c.b, leg);
  }

  lemma ThrownExactly(n: Loop, start: nat, finalization: bool, o: Outcome, c: Setup)
    requires c.b.legSteps >= 1 && o.Threw? && InStep(n, c.b, start, finalization)
    ensures
      var f := FailedAt(n.i, finalization, o, CompactsNow(n.overflowAttempted, o, c));
      var next := AgentLoop.Thrown(n, finalization, o, c);
      && (next.Again? <==>
            (CompactsNow(n.overflowAttempted, o, c) && o.freed) || MayGoOn(n.turn, n.log + Compacted(n, o, c), f, o, c))
      && (next.Over? ==> MustEndAs(n.turn, f, o, c, next.end))
  {
    if CompactsNow(n.overflowAttempted, o, c) {
      Compacts(n, c.b, start, finalization);
      var m := n.(overflowAttempted := true, log := n.log + [OverflowCompaction(n.i)]);
      MetExactly(m, FailedAt(n.i, finalization, o, true), o, c, start);
    } else {
      assert n.log + [] == n.log;
      MetExactly(n, FailedAt(n.i, finalization, o, false), o, c, start);
    }
  }

  /** Exactly when a thrown step leads to another iteration, and how the turn ends when it does not. */
  lemma ThrewExactly(run: seq<Loop>, world: nat -> Attempt, c: Setup, k: nat)
    requires 1 <= c.b.legSteps <= c.b.stepCeiling && IsRun(run, world, c) && k < |run|
    requires world(k).outcome.Threw? && Begins(run, world, c, k)
    ensures var next := Iterated(run[k], world(k), c);
      && (next.Again? <==> Recovers(run, world, c, k))
      && (next.Over? ==>
            MustEndAs(run[k].turn, FailureOf(run, world, c, k), world(k).outcome, c, next.end))
  {
    var o, f := world(k).outcome, FailureOf(run, world, c, k);
    var n, start := BegunThrows(run, world, c, k);
    ClockIsHistory(run, world, c, k);
    NowIsAt(run[k].overflowAttempted, world, c, k);
    ThrownExactly(n, start, f.finalization, o, c);
    var told := StartEvents(run[k].turn, run[k].i, c.b) + Compacted(n, o, c);
    assert n.log + Compacted(n, o, c) == run[k].log + told;
    SameDecisions(n.turn, run[k].turn, run[k].log, told, f, o, c);
  }

  // ----- the ending of a turn -----

  /**
   * Before its step begins a turn is ended by the user or by a leg without progress; a completed step ends it by
   * a verb, the reserved step or the breaker; a thrown one when there is nothing left to recover with.
   */
  ghost predicate EndsAsItMust(run: seq<Loop>, world: nat -> Attempt, c: Setup, end: Ended)
    requires c.b.legSteps >= 1 && run != []
  {
    var k, o := |run| - 1, world(|run| - 1).outcome;
    && (world(k).abortedBefore ==> end.reason == Cancelled && end.stepsTaken == run[k].i)
    && (!world(k).abortedBefore && Fruitless(run[k], c.b.legSteps) ==>
          end.reason == MaxSteps && end.stopCause == NoProgress && end.stepsTaken == run[k].i)
    && (Begins(run, world, c, k) && o.Came? ==> EndsOnStep(run, world, c, end) && end.stepsTaken == run[k].i + 1)
    && (Begins(run, world, c, k) && o.Threw? ==>
          !Recovers(run, world, c, k) && MustEndAs(run[k].turn, FailureOf(run, world, c, k), o, c, end))
    && (end.onFinal ==> Begins(run, world, c, k) && o.Came?)
  }

  lemma EndsEarly(l: Loop, a: Attempt, c: Setup, end: Ended, log: seq<Event>)
    requires c.b.legSteps >= 1 && Iterated(l, a, c) == Over(end, log)
    ensures a.abortedBefore ==> end.reason == Cancelled && end.stepsTaken == l.turn.stepsTaken
    ensures !a.abortedBefore && Barren(l, c.b) ==>
      end.reason == MaxSteps && end.stopCause == NoProgress && end.stepsTaken == l.turn.stepsTaken
    ensures !a.abortedBefore && !Barren(l, c.b) && a.outcome.Came? ==> end.stepsTaken == l.turn.stepsTaken + 1
  {
  }

  lemma EndsExactly(run: seq<Loop>, world: nat -> Attempt, c: Setup, end: Ended, log: seq<Event>)
    requires 1 <= c.b.legSteps <= c.b.stepCeiling && IsRun(run, world, c)
    requires Iterated(run[|run| - 1], world(|run| - 1), c) == Over(end, log)
    ensures EndsAsItMust(run, world, c, end)
  {
    var k := |run| - 1;
    TurnRemembers(run, world, c, k);
    ClockIsHistory(run, world, c, k);
    HappenedExactly(run, world, c, k);
    EndsEarly(run[k], world(k), c, end, log);
    IterationEnds(run[k], world(k), c, end, log);
    if Begins(run, world, c, k) {
      if world(k).outcome.Came? { EndsInTime(run, world, c, end, log); } else { ThrewExactly(run, world, c, k); }
    }
  }

  /** An iteration that comes back was not ended before its step, and its step completed or was recovered. */
  lemma GoesOnExactly(run: seq<Loop>, world: nat -> Attempt, c: Setup, k: nat)
    requires 1 <= c.b.legSteps <= c.b.stepCeiling && IsRun(run, world, c) && k + 1 < |run|
    ensures Begins(run, world, c, k) && run[k + 1].i == Index(world, c, k + 1)
    ensures world(k).outcome.Came? ==>
      world(k).outcome.terminal.NotTerminal? && !world(k).outcome.breaker && !Reserved(run, world, c, k)
    ensures world(k).outcome.Threw? ==> Recovers(run, world, c, k)
  {
    IterationGoesOn(run[k], world(k), c, run[k + 1]);
    HappenedExactly(run, world, c, k);
    TurnRemembers(run, world, c, k + 1);
    if world(k).outcome.Came? { ComesOn(run, world, c, k); } else { ThrewExactly(run, world, c, k); }
  }
}
