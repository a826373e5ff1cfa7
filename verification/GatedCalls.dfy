/** Calls sent through the tracker one after another: src/agent/dispatch/batch-scheduler.ts:185-235, 340-350. */
module GatedCalls {
  import opened Wrappers
  import opened LoopLimits
  import opened LoopHistory
  import opened LoopVerdicts
  import opened LoopRuns
  import opened LoopTraces
  import opened LoopDetector
  import opened MutationEpochs
  import opened TestRepeats
  import Probes = ProbeRuns
  import Rules = StopRules
  import WanderingRuns

  /** A call, the step it is made in, and what the tool answers if it runs. */
  datatype Request = Request(call: Call, step: nat, test: Option<TestCommand>, result: ToolResult)

  /** What the request leaves in the past. */
  function EventOf(q: Request, epoch: Option<nat>, round: Option<nat>, ran: bool): Event {
    if ran then Ran(q.call, epoch, round, q.result.resultHash) else Refused(q.call, epoch, round)
  }

  lemma EmitShifts(s: Emissions, l: Limits, key: Key, round: Option<nat>, escalated: bool, result: string)
    ensures Emit(s, l, key, round, escalated, result) ==
      (var once := Emit(Emissions(s.gate, 0), l, key, round, escalated, result); Emissions(once.gate, s.ran + once.ran))
  {
  }

  lemma AdmittedIsEmission(g: Gate, l: Limits, q: Request, key: Key, late: Option<nat>, round: Option<nat>,
                           escalated: bool)
    requires Ladder(l) && !q.result.veto && key.call == q.call && !Refuses(g, l, key, escalated)
    ensures Emit(Emissions(g, 0), l, key, round, escalated, q.result.resultHash) ==
      Emissions(AfterLanding(AfterGate(g, q.call, key.epoch, round, true, l.historySize),
                             q.call, late, round, PatchOf(q.result), l.historySize), 1)
  {
    EventIsCallThenOutcome(g.history, EventOf(q, key.epoch, round, true), late, l.historySize);
  }

  lemma RefusedIsEmission(g: Gate, l: Limits, q: Request, key: Key, round: Option<nat>, escalated: bool)
    requires key.call == q.call && Refuses(g, l, key, escalated)
    ensures Emit(Emissions(g, 0), l, key, round, escalated, q.result.resultHash) ==
      Emissions(AfterGate(g, q.call, key.epoch, round, false, l.historySize), 0)
  {
  }

  /** Whether a wandering rule stops the call, by the tracker's own window and run bookkeeping. */
  ghost predicate Escalates(history: seq<Entry>, l: Limits, book: Probes.Book, call: Call, round: Option<nat>) {
    Stopped(history, l, call, round, book.Ladder(call.tool, call.args, round)).escalated
  }

  /** A call that ran was an attempt on whatever it targets; a refused one was not. */
  ghost predicate Noted(t: ToolLoopTracker, before: Attempts, q: Request, ran: bool, after: Attempts) {
    if ran then t.Attempted(before, q.call, q.result.ok, after) else after == before
  }

  /** The probe runs after the gate has asked and, if the call ran, its completion is in. */
  function BookOf(book: Probes.Book, q: Request, round: Option<nat>, ran: bool): Probes.Book {
    var asked := book.AskedOf(q.call.tool);
    if ran then asked.Recorded(Probes.Completion(q.call.tool, q.call.args, q.result.ok, round)) else asked
  }

  lemma BookIsStepped(book: Probes.Book, q: Request, epoch: Option<nat>, round: Option<nat>, ran: bool)
    ensures BookOf(book, q, round, ran) == Rules.Stepped(book, EventOf(q, epoch, round, ran), q.result.ok)
  {
  }

  /** What the request adds to the test commands' past. */
  function TestsIn(q: Request, ran: bool): seq<TestEvent> {
    TestsOf(q.call, q.test, ran) + if ran then [TestEvent.Landed(q.call, false, q.result.summary)] else []
  }

  lemma TestsJoin(past: seq<TestEvent>, q: Request, ran: bool)
    ensures past + TestsIn(q, ran) ==
      if ran then (past + TestsOf(q.call, q.test, true)) + [TestEvent.Landed(q.call, false, q.result.summary)]
      else past + TestsOf(q.call, q.test, false)
  {
    if !ran { assert TestsIn(q, ran) == TestsOf(q.call, q.test, ran); }
  }

  /** The gate, and the outcome if the call runs. */
  method GateAndLand(t: ToolLoopTracker, q: Request) returns (ran: bool, ghost escalated: bool)
    requires t.Valid() && !q.result.veto
    modifies t, t.probeRuns, t.mutations, t.tests
    ensures t.Valid()
    ensures escalated == Escalates(old(t.history), t.limits, old(t.probeRuns.State()), q.call, t.stepRound)
    ensures ran <==> !Refuses(old(t.GateState()), t.limits, Key(q.call, old(t.EpochOf(q.call))), escalated)
    ensures var gated := AfterGate(old(t.GateState()), q.call, old(t.EpochOf(q.call)), t.stepRound, ran,
                                   t.limits.historySize);
      t.GateState() ==
        if ran then AfterLanding(gated, q.call, t.EpochOf(q.call), t.stepRound, PatchOf(q.result), t.limits.historySize)
        else gated
    ensures t.events ==
      if ran then Answered(old(t.events) + [Abandoned(q.call, old(t.EpochOf(q.call)), t.stepRound)], q.call,
                           t.EpochOf(q.call), t.stepRound, PatchOf(q.result), t.limits.historySize)
      else old(t.events) + [Refused(q.call, old(t.EpochOf(q.call)), t.stepRound)]
    ensures t.landed == old(t.landed) + [Landing(q.call, !ran)]
    ensures t.probeRuns.State() == BookOf(old(t.probeRuns.State()), q, t.stepRound, ran)
    ensures Noted(t, old(t.mutations.All()), q, ran, t.mutations.All())
    ensures var gated := old(t.tests.trace) + TestsOf(q.call, q.test, ran);
      t.tests.trace == if ran then gated + [TestEvent.Landed(q.call, false, q.result.summary)] else gated
  {
    ghost var history, book := t.history, t.probeRuns.State();
    var signal, repeat;
    ran, signal, repeat := t.RunSyncLoopGate(q.call, q.step, q.test);
    escalated := Escalates(history, t.limits, book, q.call, t.stepRound);
    if ran { var check := t.RecordOutcome(q.call, q.result); }
  }

  /** One call: one emission of the veto protocol, one event, one step of the probe runs and of the epochs. */
  method Send(t: ToolLoopTracker, q: Request) returns (ran: bool, ghost escalated: bool)
    requires t.Valid() && !q.result.veto
    modifies t, t.probeRuns, t.mutations, t.tests
    ensures t.Valid()
    ensures escalated == Escalates(old(t.history), t.limits, old(t.probeRuns.State()), q.call, t.stepRound)
    ensures ran <==> !Refuses(old(t.GateState()), t.limits, Key(q.call, old(t.EpochOf(q.call))), escalated)
    ensures Emissions(t.GateState(), if ran then 1 else 0) ==
      Emit(Emissions(old(t.GateState()), 0), t.limits, Key(q.call, old(t.EpochOf(q.call))), t.stepRound, escalated,
           q.result.resultHash)
    ensures t.events == old(t.events) + [EventOf(q, old(t.EpochOf(q.call)), t.stepRound, ran)]
    ensures t.landed == old(t.landed) + [Landing(q.call, !ran)]
    ensures t.probeRuns.State() ==
      Rules.Stepped(old(t.probeRuns.State()), EventOf(q, old(t.EpochOf(q.call)), t.stepRound, ran), q.result.ok)
    ensures Noted(t, old(t.mutations.All()), q, ran, t.mutations.All())
    ensures t.tests.trace == old(t.tests.trace) + TestsIn(q, ran)
  {
    ghost var before, past, key := t.GateState(), t.events, Key(q.call, t.EpochOf(q.call));
    ghost var book, tests := t.probeRuns.State(), t.tests.trace;
    ran, escalated := GateAndLand(t, q);
    BookIsStepped(book, q, key.epoch, t.stepRound, ran);
    TestsJoin(tests, q, ran);
    if ran {
      AdmittedIsEmission(before, t.limits, q, key, t.EpochOf(q.call), t.stepRound, escalated);
      OneEvent(past, q.call, key.epoch, t.stepRound, t.EpochOf(q.call), PatchOf(q.result), t.limits.historySize);
    } else {
      RefusedIsEmission(before, t.limits, q, key, t.stepRound, escalated);
    }
  }

  /**
   * Calls sent one after another: no warning about a test command ever quotes a result of an earlier state of
   * the workspace than its latest run's.
   */
  method SendTested(t: ToolLoopTracker, q: Request) returns (ran: bool)
    requires t.Valid() && !q.result.veto && Idle(t.tests.trace) && Current(t.tests.trace)
    modifies t, t.probeRuns, t.mutations, t.tests
    ensures t.Valid() && Idle(t.tests.trace) && Current(t.tests.trace)
    ensures t.tests.trace == old(t.tests.trace) + TestsIn(q, ran)
  {
    ghost var past := t.tests.trace;
    var r, escalated := Send(t, q);
    ran := r;
    if r {
      OneAtATime(past, q.call, q.test, q.result.summary);
      TestsJoin(past, q, true);
    } else {
      RefusedStaysCurrent(past, q.call);
      assert TestsIn(q, false) == [TestEvent.Landed(q.call, true, "")];
    }
  }

  /** The epoch and the round a call was made in. */
  datatype When = When(epoch: Option<nat>, round: Option<nat>)

  function EventsOf(calls: seq<Request>, whens: seq<When>, ran: seq<bool>): seq<Event>
    requires |calls| == |whens| == |ran|
  {
    seq(|calls|, (i: nat) requires i < |calls| => EventOf(calls[i], whens[i].epoch, whens[i].round, ran[i]))
  }

  lemma StillGated(events: seq<Event>, q: Request, when: When, ran: bool, g: Gate, l: Limits, escalated: bool)
    requires Gated(events, l) && g.history == Window(events, l.historySize) && q.call.tool != BATCH_LOOP_LABEL
    requires ran <==> !Refuses(g, l, Key(q.call, when.epoch), escalated)
    ensures Gated(events + [EventOf(q, when.epoch, when.round, ran)], l)
  {
    GatedMore(events, EventOf(q, when.epoch, when.round, ran), l);
  }

  method SendGated(t: ToolLoopTracker, q: Request) returns (ran: bool)
    requires t.Valid() && Gated(t.events, t.limits) && !q.result.veto && q.call.tool != BATCH_LOOP_LABEL
    modifies t, t.probeRuns, t.mutations, t.tests
    ensures t.Valid() && Gated(t.events, t.limits)
    ensures t.events == old(t.events) + [EventOf(q, old(t.EpochOf(q.call)), t.stepRound, ran)]
  {
    ghost var before, past, epoch := t.GateState(), t.events, t.EpochOf(q.call);
    var r, escalated := Send(t, q);
    ran := r;
    StillGated(past, q, When(epoch, t.stepRound), r, before, t.limits, escalated);
  }

  lemma EventsMore(calls: seq<Request>, i: nat, whens: seq<When>, ran: seq<bool>, when: When, r: bool)
    requires i < |calls| && |whens| == |ran| == i
    ensures EventsOf(calls[..i + 1], whens + [when], ran + [r]) ==
      EventsOf(calls[..i], whens, ran) + [EventOf(calls[i], when.epoch, when.round, r)]
  {
  }

  /** No single-call streak has passed the critical threshold. */
  ghost predicate Plateaued(history: seq<Entry>, critical: nat) {
    forall key: Key :: key.call.tool != BATCH_LOOP_LABEL ==> Streak(history, key) <= critical
  }

  lemma GatedIsPlateaued(events: seq<Event>, l: Limits)
    requires Ladder(l) && Gated(events, l)
    ensures Plateaued(Window(events, l.historySize), l.critical)
  {
    forall key: Key | key.call.tool != BATCH_LOOP_LABEL
      ensures Streak(Window(events, l.historySize), key) <= l.critical
    {
      StreakPlateaus(events, l, key);
    }
  }

  /** However many calls go through, whatever they answer, no streak in the tracker's own window passes critical. */
  method SendAll(t: ToolLoopTracker, calls: seq<Request>) returns (ran: seq<bool>, ghost whens: seq<When>)
    requires t.Valid() && Gated(t.events, t.limits)
    requires forall i :: 0 <= i < |calls| ==> !calls[i].result.veto && calls[i].call.tool != BATCH_LOOP_LABEL
    modifies t, t.probeRuns, t.mutations, t.tests
    ensures t.Valid() && Gated(t.events, t.limits)
    ensures |calls| == |ran| == |whens| && t.events == old(t.events) + EventsOf(calls, whens, ran)
    ensures Plateaued(t.history, t.limits.critical)
  {
    ran, whens := [], [];
    ghost var start, sent: seq<Event> := t.events, [];
    for i := 0 to |calls|
      invariant t.Valid() && Gated(t.events, t.limits)
      invariant i == |ran| == |whens| && t.events == start + sent && sent == EventsOf(calls[..i], whens, ran)
    {
      ghost var epoch := t.EpochOf(calls[i].call);
      var r := SendGated(t, calls[i]);
      ghost var when := When(epoch, t.stepRound);
      EventsMore(calls, i, whens, ran, when, r);
      Associates(start, sent, EventOf(calls[i], when.epoch, when.round, r));
      sent := sent + [EventOf(calls[i], when.epoch, when.round, r)];
      ran, whens := ran + [r], whens + [when];
    }
    assert calls[..|calls|] == calls;
    GatedIsPlateaued(t.events, t.limits);
  }

  lemma Associates<T>(a: seq<T>, b: seq<T>, x: T)
    ensures (a + b) + [x] == a + (b + [x])
  {
  }

  // ----- the wandering rules, on the tracker's own past -----

  /** The run bookkeeping is what the calls of the past have made of it; `ok(i)`: the i-th came back well. */
  ghost predicate Booked(t: ToolLoopTracker, ok: nat -> bool)
    reads t, t.probeRuns
  {
    t.probeRuns.State() == Rules.BookAfter(t.events, ok)
  }

  ghost function OkAt(ok: nat -> bool, n: nat, b: bool): nat -> bool { (i: nat) => if i == n then b else ok(i) }

  lemma BookedMore(events: seq<Event>, e: Event, ok: nat -> bool, b: bool)
    ensures Rules.BookAfter(events + [e], OkAt(ok, |events|, b)) == Rules.Stepped(Rules.BookAfter(events, ok), e, b)
  {
    Rules.BookStep(events, e, OkAt(ok, |events|, b));
    Rules.SameBook(events, ok, OkAt(ok, |events|, b));
  }

  lemma EscalatesIsStop(events: seq<Event>, ok: nat -> bool, l: Limits, call: Call, round: Option<nat>)
    ensures Rules.StopsAt(events, ok, l, call, round) <==>
      (WanderingRuns.FreshRound(Window(events, l.historySize), call, round)
       && Escalates(Window(events, l.historySize), l, Rules.BookAfter(events, ok), call, round))
  {
  }

  /** Probes of the tool come one a round, and the run ladder warns below its stop. */
  ghost predicate Paced(events: seq<Event>, l: Limits, tool: string) {
    WanderingRuns.OneProbePerRound(events, tool, l.historySize) && l.wandering < l.escalation
  }

  /**
   * One call through the tracker: if a wandering rule stops it, in a step of its own, some earlier call of its
   * tool was at a rung of either ladder, unless the run rule's two thresholds are one.
   */
  method SendWatched(t: ToolLoopTracker, q: Request, ghost ok: nat -> bool)
    returns (ran: bool, ghost escalated: bool, ghost after: nat -> bool)
    requires t.Valid() && Booked(t, ok) && !q.result.veto
    modifies t, t.probeRuns, t.mutations, t.tests
    ensures t.Valid() && Booked(t, after) && after == OkAt(ok, |old(t.events)|, q.result.ok)
    ensures escalated == Escalates(old(t.history), t.limits, old(t.probeRuns.State()), q.call, t.stepRound)
    ensures escalated ==> !ran
    ensures escalated && WanderingRuns.FreshRound(old(t.history), q.call, t.stepRound) ==>
      Paced(old(t.events), t.limits, q.call.tool) ==>
      exists i :: Rules.AtRungOf(old(t.events), ok, t.limits, q.call.tool, i)
  {
    ghost var past, epoch := t.events, t.EpochOf(q.call);
    ran, escalated := Send(t, q);
    after := OkAt(ok, |past|, q.result.ok);
    BookedMore(past, EventOf(q, epoch, t.stepRound, ran), ok, q.result.ok);
    EscalatesIsStop(past, ok, t.limits, q.call, t.stepRound);
    if Rules.StopsAt(past, ok, t.limits, q.call, t.stepRound) && Paced(past, t.limits, q.call.tool) {
      var i := Rules.StopFollowsRung(past, ok, t.limits, q.call, t.stepRound);
    }
  }

  // ----- the breaker, on the tracker's own past -----

  /** What each emission so far was: the round it was made in and whether a wandering rule stopped it. */
  ghost predicate EmittedAs(run: seq<Emissions>, l: Limits, key: Key, rounds: seq<Option<nat>>, escalations: seq<bool>,
                            result: string)
  {
    && |run| == |rounds| + 1 == |escalations| + 1
    && forall k :: 0 <= k < |rounds| ==> run[k + 1] == Emit(run[k], l, key, rounds[k], escalations[k], result)
  }

  lemma EmittedMore(run: seq<Emissions>, next: Emissions, l: Limits, key: Key, rounds: seq<Option<nat>>,
                    round: Option<nat>, escalations: seq<bool>, escalated: bool, result: string)
    requires EmittedAs(run, l, key, rounds, escalations, result)
    requires next == Emit(run[|run| - 1], l, key, round, escalated, result)
    ensures EmittedAs(run + [next], l, key, rounds + [round], escalations + [escalated], result)
  {
  }

  lemma EmittedTrips(run: seq<Emissions>, l: Limits, key: Key, rounds: seq<Option<nat>>, escalations: seq<bool>,
                     result: string)
    requires Ladder(l) && result != "" && l.historySize >= l.critical + l.breaker - 1
    requires EmittedAs(run, l, key, rounds, escalations, result) && |run| == l.critical + l.breaker + 1
    requires run[0].ran == 0
    ensures Tripped(run[|run| - 1].gate, key.call, l.breaker) && run[|run| - 1].ran <= l.critical
  {
    var roundAt: nat -> Option<nat> := (k: nat) => if k < |rounds| then rounds[k] else None;
    var escalatedAt: nat -> bool := (k: nat) => k < |escalations| && escalations[k];
    BreakerTrips(run, run[0].gate, l, key, roundAt, escalatedAt, result);
  }

  /** A call never targets what it reads: reads mutate nothing. */
  ghost predicate ReadsOnly(t: ToolLoopTracker, call: Call) {
    t.readTarget(call).Some? ==> t.mutationTargets(call).Nothing?
  }

  /** One more emission of the call that is being sent over and over; its epoch stays. */
  method SendAgain(t: ToolLoopTracker, q: Request, ran: nat) returns (now: nat, ghost escalated: bool)
    requires t.Valid() && !q.result.veto && ReadsOnly(t, q.call)
    modifies t, t.probeRuns, t.mutations, t.tests
    ensures t.Valid() && t.EpochOf(q.call) == old(t.EpochOf(q.call))
    ensures Emissions(t.GateState(), now) ==
      Emit(Emissions(old(t.GateState()), ran), t.limits, Key(q.call, t.EpochOf(q.call)), t.stepRound, escalated,
           q.result.resultHash)
  {
    ghost var before, attempts := t.GateState(), t.mutations.All();
    var r, e := Send(t, q);
    escalated, now := e, if r then ran + 1 else ran;
    if t.readTarget(q.call).Some? && r {
      EpochStays(attempts, t.mutations.All(), q.result.ok, t.readTarget(q.call).value);
    }
    EmitShifts(Emissions(before, ran), t.limits, Key(q.call, t.EpochOf(q.call)), t.stepRound, e, q.result.resultHash);
  }

  /** A call that targets nothing opens no epoch. */
  lemma EpochStays(before: Attempts, after: Attempts, landed: bool, path: string)
    requires Sound(before.ledger) && LedgerNoted(before, Nothing, landed, after.ledger)
    ensures after.ledger == before.ledger && Epoch(after.ledger, path) == Epoch(before.ledger, path)
  {
  }

  /**
   * A model that sends one call over and over and gets one result: whatever the tracker has seen before, the
   * breaker has tripped after critical + breaker calls, at most critical of them ran, and the next one is refused
   * with the signal that ends the turn.
   */
  method SendOverAndOver(t: ToolLoopTracker, calls: seq<Request>, call: Call, result: string)
    returns (ran: nat, signal: Option<LoopSignal>)
    requires t.Valid() && ReadsOnly(t, call)
    requires result != "" && t.limits.historySize >= t.limits.critical + t.limits.breaker - 1
    requires |calls| == t.limits.critical + t.limits.breaker + 1
    requires forall i :: 0 <= i < |calls| ==>
      calls[i].call == call && !calls[i].result.veto && calls[i].result.resultHash == result
    modifies t, t.probeRuns, t.mutations, t.tests
    ensures t.Valid() && VetoRun(t.landed, call) > t.limits.breaker
    ensures ran <= t.limits.critical
    ensures signal.Some? && signal.value.kind.BreakerSignal? && signal.value.blockedCount > t.limits.breaker
  {
    ran := SendUntilTripped(t, calls[..|calls| - 1], call, result);
    var last := calls[|calls| - 1];
    ghost var landed := t.landed;
    var proceed, repeat;
    proceed, signal, repeat := t.RunSyncLoopGate(last.call, last.step, last.test);
    LandedMore(landed, Landing(call, true), call);
  }

  method SendUntilTripped(t: ToolLoopTracker, calls: seq<Request>, call: Call, result: string) returns (ran: nat)
    requires t.Valid() && ReadsOnly(t, call)
    requires result != "" && t.limits.historySize >= t.limits.critical + t.limits.breaker - 1
    requires |calls| == t.limits.critical + t.limits.breaker
    requires forall i :: 0 <= i < |calls| ==>
      calls[i].call == call && !calls[i].result.veto && calls[i].result.resultHash == result
    modifies t, t.probeRuns, t.mutations, t.tests
    ensures t.Valid() && VetoRun(t.landed, call) >= t.limits.breaker
    ensures ran <= t.limits.critical
  {
    ran := 0;
    ghost var key := Key(call, t.EpochOf(call));
    ghost var run := [Emissions(t.GateState(), 0)];
    ghost var rounds: seq<Option<nat>>, escalations: seq<bool> := [], [];
    for i := 0 to |calls|
      invariant t.Valid() && t.EpochOf(call) == key.epoch
      invariant |rounds| == i && EmittedAs(run, t.limits, key, rounds, escalations, result)
      invariant run[0].ran == 0 && run[|run| - 1] == Emissions(t.GateState(), ran)
    {
      var now, escalated := SendAgain(t, calls[i], ran);
      ran := now;
      EmittedMore(run, Emissions(t.GateState(), ran), t.limits, key, rounds, t.stepRound, escalations, escalated,
                  result);
      run := run + [Emissions(t.GateState(), ran)];
      rounds, escalations := rounds + [t.stepRound], escalations + [escalated];
    }
    EmittedTrips(run, t.limits, key, rounds, escalations, result);
    assert VetoRun(t.landed, call) == t.vetoes;
  }
}
