/** One turn's control state and how a step that threw is recovered: src/agent/turn/turn-state.ts, turn-recovery.ts. */
module TurnRecovery {
  import opened Wrappers
  import opened Numbers

  const PARSE_RECOVERY_BUDGET := 2
  const EMPTY_COMPLETION_RECOVERY_BUDGET := 1
  const TRUNCATION_RETRY_STEP_BUDGET := 2
  const TRUNCATION_RETRY_TURN_BUDGET := 6
  const OUT_OF_MEMORY_MAX_RESTARTS := 3
  const PROVIDER_WAIT_BASE_MS := 2_000
  const PROVIDER_WAIT_MAX_BACKOFF_MS := 30_000
  const LOCAL_ENGINE_RESTART_GRACE_MS := 8_000
  const LOCAL_ENGINE_GONE_RETRY_MS := 2_000

  /**
   * What an inference threw, as the recovery reads it. `planned` and `repackable` stand for the window
   * arithmetic of the retry plans; `hint` is a provider's own cooldown.
   */
  datatype Thrown =
    | Truncated(contextWindow: bool, planned: bool, raisesCap: bool)
    | EmptyCompletion
    | Unparseable
    | SizeRefusal(repackable: bool)
    | CreditExhausted
    | LocalOutOfMemory
    | Outage(hint: Option<nat>, engineGone: bool)
    | CancelledRequest
    | ToolFailure
    | OtherFailure

  datatype Reason = MaxSteps | Cancelled | Reply | Finish | Failed
  datatype StopCause = StepCeiling | TimeCeiling | NoProgress | CreditStop

  datatype Decision = RetrySame | RetryNext | Stop | Wait(nextRetryMs: nat) | OutOfMemory | Failure(cancelled: bool)

  datatype TruncationRetry = TruncationRetry(stepIndex: nat, attempts: nat, raised: bool)

  datatype Budgets = Budgets(legSteps: nat, stepCeiling: nat)

  /** `prepareTurnBudgets`: without auto-continue the ceiling is the leg. */
  function Prepared(maxSteps: int, autoContinue: bool, taskMaxSteps: int): (b: Budgets)
    ensures 1 <= b.legSteps <= b.stepCeiling
    ensures b.legSteps == Max(1, maxSteps)
    ensures b.stepCeiling == if autoContinue then Max(b.legSteps, taskMaxSteps) else b.legSteps
  {
    var leg := if maxSteps >= 1 then maxSteps else 1;
    Budgets(leg, if autoContinue && taskMaxSteps >= leg then taskMaxSteps else leg)
  }

  /** Settings of the provider wait, and whether an earlier turn's task is resumed. */
  datatype Settings = Settings(waitEnabled: bool, maxWaitMs: nat, resumes: bool)

  /** How one failed step was met: which step, which model, and what the signals said. */
  datatype Failed = Failed(err: Thrown, index: nat, finalization: bool, cloud: bool, deadlineFired: bool, aborted: bool)

  function Doubled(n: nat): (d: nat)
    ensures d >= 1
  {
    if n == 0 then 1 else 2 * Doubled(n - 1)
  }

  predicate IsBoundary(i: nat, leg: nat)
    requires leg >= 1
  {
    i > 0 && i % leg == 0
  }

  /** The values of the turn's mutable control state. */
  datatype Turn = Turn(
    reason: Reason, stepsTaken: nat, stopCause: StopCause, ceilingFired: bool, endedOnFinal: bool, progress: bool,
    waitedMs: nat, outageAttempts: nat, awaiting: bool, oomRestarts: nat,
    truncation: Option<TruncationRetry>, truncationRetries: nat, repacked: Option<nat>,
    lastBoundary: int, parseRecoveries: nat, emptyRecoveries: nat)

  const NEW_TURN := Turn(MaxSteps, 0, StepCeiling, false, false, false, 0, 0, false, 0, None, 0, None, -1, 0, 0)

  /** Truncation retries this step index already took. */
  function AttemptsAt(t: Turn, i: nat): nat {
    if t.truncation.Some? && t.truncation.value.stepIndex == i then t.truncation.value.attempts else 0
  }

  /** `recoveryStepAvailable`: is there a step left for a recovery to be spent in? */
  predicate RecoveryStepAvailable(t: Turn, i: nat, b: Budgets)
    requires b.legSteps >= 1
  {
    var next := i + 1;
    next < b.stepCeiling && (!(IsBoundary(next, b.legSteps) && next != t.lastBoundary) || t.progress)
  }

  /** `planTruncationRetry` finds a retry within the step's and the turn's budgets. */
  predicate PlansTruncationRetry(t: Turn, f: Failed) {
    && f.err.Truncated? && f.err.planned
    && t.truncationRetries < TRUNCATION_RETRY_TURN_BUDGET
    && AttemptsAt(t, f.index) < (if f.cloud then TRUNCATION_RETRY_STEP_BUDGET else 1)
    && (f.err.contextWindow ==> AttemptsAt(t, f.index) == 0)
  }

  /** `planSizeRejectionRepack`: once per step, and not when the refused cap was the loop's own. */
  predicate PlansRepack(t: Turn, f: Failed) {
    && f.err.SizeRefusal? && f.err.repackable
    && t.repacked != Some(f.index)
    && !(t.truncation.Some? && t.truncation.value.stepIndex == f.index && t.truncation.value.raised)
  }

  /** A wait for the provider is still within its budget, and the engine is not known to be gone for good. */
  predicate Waits(t: Turn, f: Failed, s: Settings) {
    && f.err.Outage? && s.waitEnabled && t.waitedMs < s.maxWaitMs
    && !(f.err.hint.None? && f.err.engineGone && t.waitedMs >= Min(LOCAL_ENGINE_RESTART_GRACE_MS, s.maxWaitMs))
  }

  /** How long to sleep before the next try: at least a millisecond, never past the budget. */
  function NextRetryMs(t: Turn, f: Failed, s: Settings): (ms: nat)
    requires f.err.Outage? && t.waitedMs < s.maxWaitMs
    ensures 1 <= ms <= s.maxWaitMs - t.waitedMs
  {
    var asked := match f.err.hint
      case Some(d) => if d >= 1 then d else 1
      case None => Min(PROVIDER_WAIT_MAX_BACKOFF_MS, PROVIDER_WAIT_BASE_MS * Doubled(t.outageAttempts));
    var next := Min(asked, s.maxWaitMs - t.waitedMs);
    if f.err.hint.None? && f.err.engineGone then Min(next, LOCAL_ENGINE_GONE_RETRY_MS) else next
  }

  datatype Recovery = Recovery(turn: Turn, decision: Decision)

  /** The turn once a cut reply has been given another try. */
  function Retruncated(t: Turn, i: nat, raised: bool): Turn {
    t.(truncation := Some(TruncationRetry(i, AttemptsAt(t, i) + 1, raised)),
       truncationRetries := t.truncationRetries + 1, emptyRecoveries := 0)
  }

  predicate RaisesCap(f: Failed) { f.err.Truncated? && f.err.raisesCap }

  predicate CeilingFired(f: Failed) { f.deadlineFired && !f.aborted }

  predicate IsCancelled(f: Failed) {
    !CeilingFired(f) && ((f.aborted && !f.err.ToolFailure?) || f.err.CancelledRequest?)
  }

  /** What `recoverTurnStep` decides, and the state it leaves. */
  function Recovered(t: Turn, f: Failed, b: Budgets, s: Settings): Recovery
    requires b.legSteps >= 1
  {
    if CeilingFired(f) then
      if f.finalization then Recovery(t.(stepsTaken := t.stepsTaken + 1, reason := MaxSteps), Stop)
      else Recovery(t.(stopCause := TimeCeiling, ceilingFired := true), RetrySame)
    else if IsCancelled(f) then Recovery(t, Failure(true))
    else if PlansTruncationRetry(t, f) then
      Recovery(Retruncated(t, f.index, f.err.raisesCap), RetrySame)
    else if f.finalization then
      if t.emptyRecoveries > 0 && f.err.EmptyCompletion? then Recovery(t, Failure(false))
      else Recovery(t.(stepsTaken := t.stepsTaken + 1, reason := MaxSteps), Stop)
    else Respent(t, f, b, s)
  }

  /** A completion that could not be used costs a step, if there is one to spend. */
  function Respent(t: Turn, f: Failed, b: Budgets, s: Settings): Recovery
    requires b.legSteps >= 1
  {
    if f.err.Unparseable? && t.parseRecoveries < PARSE_RECOVERY_BUDGET && RecoveryStepAvailable(t, f.index, b) then
      Recovery(t.(parseRecoveries := t.parseRecoveries + 1, stepsTaken := t.stepsTaken + 1, emptyRecoveries := 0),
               RetryNext)
    else if f.err.EmptyCompletion? && t.emptyRecoveries < EMPTY_COMPLETION_RECOVERY_BUDGET
            && RecoveryStepAvailable(t, f.index, b) then
      Recovery(t.(emptyRecoveries := t.emptyRecoveries + 1, stepsTaken := t.stepsTaken + 1), RetryNext)
    else Requested(t, f, s)
  }

  /** What is left to try once the step itself cannot be recovered. */
  function Requested(t: Turn, f: Failed, s: Settings): Recovery {
    if PlansRepack(t, f) then Recovery(t.(repacked := Some(f.index)), RetrySame)
    else if f.err.CreditExhausted? && (t.stepsTaken > 0 || s.resumes) then
      Recovery(t.(stopCause := CreditStop, reason := MaxSteps), Stop)
    else if f.err.LocalOutOfMemory? then Recovery(t, OutOfMemory)
    else if f.err.Outage? then Parked(t, f, s)
    else Recovery(t, Failure(false))
  }

  /** An outage is waited out while its budget lasts. */
  function Parked(t: Turn, f: Failed, s: Settings): Recovery
    requires f.err.Outage?
  {
    if Waits(t, f, s) then
      Recovery(t.(outageAttempts := t.outageAttempts + 1, awaiting := true), Wait(NextRetryMs(t, f, s)))
    else Recovery(t, Failure(false))
  }

  // ----- what every recovery keeps -----

  /** How often step i can still be taken again at the same index. */
  ghost function RetriesLeft(t: Turn, i: nat, s: Settings): nat {
    (if t.ceilingFired then 0 else 1)
    + (if t.repacked == Some(i) then 0 else 1)
    + (if AttemptsAt(t, i) >= TRUNCATION_RETRY_STEP_BUDGET then 0 else TRUNCATION_RETRY_STEP_BUDGET - AttemptsAt(t, i))
    + (if t.oomRestarts >= OUT_OF_MEMORY_MAX_RESTARTS then 0 else OUT_OF_MEMORY_MAX_RESTARTS - t.oomRestarts)
    + (if t.waitedMs >= s.maxWaitMs then 0 else s.maxWaitMs - t.waitedMs)
  }

  /** Does a turn that is not aborted get past the loop bound and the leg boundary into step i? */
  ghost predicate Enters(t: Turn, i: nat, b: Budgets)
    requires b.legSteps >= 1
  {
    i < b.stepCeiling && (IsBoundary(i, b.legSteps) && i != t.lastBoundary ==> t.progress)
  }

  lemma ClockSpends(t: Turn, i: nat, s: Settings)
    requires !t.ceilingFired
    ensures RetriesLeft(t.(stopCause := TimeCeiling, ceilingFired := true), i, s) < RetriesLeft(t, i, s)
  {
  }

  lemma TruncationSpends(t: Turn, i: nat, s: Settings, raised: bool)
    requires AttemptsAt(t, i) < TRUNCATION_RETRY_STEP_BUDGET
    ensures RetriesLeft(Retruncated(t, i, raised), i, s) < RetriesLeft(t, i, s)
  {
  }

  lemma RepackSpends(t: Turn, i: nat, s: Settings)
    requires t.repacked != Some(i)
    ensures RetriesLeft(t.(repacked := Some(i)), i, s) < RetriesLeft(t, i, s)
  {
  }

  /** The three ways back to the same step, and what each leaves. */
  lemma SameStepCases(t: Turn, f: Failed, b: Budgets, s: Settings)
    requires b.legSteps >= 1 && Recovered(t, f, b, s).decision.RetrySame?
    ensures var r := Recovered(t, f, b, s).turn;
      || (CeilingFired(f) && !f.finalization && r == t.(stopCause := TimeCeiling, ceilingFired := true))
      || (AttemptsAt(t, f.index) < TRUNCATION_RETRY_STEP_BUDGET && r == Retruncated(t, f.index, RaisesCap(f)))
      || (t.repacked != Some(f.index) && r == t.(repacked := Some(f.index)))
  {
  }

  /** Every same-step retry spends one of finitely many chances. */
  lemma SameStepSpends(t: Turn, f: Failed, b: Budgets, s: Settings)
    requires b.legSteps >= 1 && (t.ceilingFired ==> f.finalization)
    requires Recovered(t, f, b, s).decision.RetrySame?
    ensures RetriesLeft(Recovered(t, f, b, s).turn, f.index, s) < RetriesLeft(t, f.index, s)
  {
    SameStepCases(t, f, b, s);
    if !t.ceilingFired { ClockSpends(t, f.index, s); }
    if AttemptsAt(t, f.index) < TRUNCATION_RETRY_STEP_BUDGET { TruncationSpends(t, f.index, s, RaisesCap(f)); }
    if t.repacked != Some(f.index) { RepackSpends(t, f.index, s); }
  }

  /** So does a wait, once its time has passed, and a restart of the local model. */
  lemma WaitSpends(t: Turn, f: Failed, b: Budgets, s: Settings)
    requires b.legSteps >= 1 && Recovered(t, f, b, s).decision.Wait?
    ensures RetriesLeft(Waited(Recovered(t, f, b, s)), f.index, s) < RetriesLeft(t, f.index, s)
  {
  }

  function Waited(r: Recovery): Turn
    requires r.decision.Wait?
  {
    r.turn.(waitedMs := r.turn.waitedMs + r.decision.nextRetryMs)
  }

  lemma RestartSpends(t: Turn, i: nat, s: Settings)
    requires t.oomRestarts < OUT_OF_MEMORY_MAX_RESTARTS
    ensures RetriesLeft(t.(oomRestarts := t.oomRestarts + 1), i, s) < RetriesLeft(t, i, s)
  {
  }

  /**
   * A recovery into the next step is announced only when that step will be entered, and never from the
   * reserved final step; the final step is never waited for or restarted either.
   */
  lemma AnnouncedWillBeEntered(t: Turn, f: Failed, b: Budgets, s: Settings)
    requires b.legSteps >= 1
    ensures var r := Recovered(t, f, b, s);
      && (r.decision.RetryNext? ==> Enters(r.turn, f.index + 1, b))
      && (f.finalization ==> r.decision.RetrySame? || r.decision.Stop? || r.decision.Failure?)
  {
  }

  /** Parse and empty recoveries are bounded over the whole turn and in a row. */
  lemma RecoveriesBounded(t: Turn, f: Failed, b: Budgets, s: Settings)
    requires b.legSteps >= 1
    requires t.parseRecoveries <= PARSE_RECOVERY_BUDGET && t.emptyRecoveries <= EMPTY_COMPLETION_RECOVERY_BUDGET
    ensures var r := Recovered(t, f, b, s).turn;
      r.parseRecoveries <= PARSE_RECOVERY_BUDGET && r.emptyRecoveries <= EMPTY_COMPLETION_RECOVERY_BUDGET
  {
    RequestedCounts(t, f, s);
  }

  lemma RequestedCounts(t: Turn, f: Failed, s: Settings)
    ensures var r := Requested(t, f, s).turn;
      r.parseRecoveries == t.parseRecoveries && r.emptyRecoveries == t.emptyRecoveries
  {
  }

  // ----- which decision, exactly -----

  /** Neither the deadline nor the user has interrupted the request. */
  predicate Uninterrupted(f: Failed) { !f.deadlineFired && !f.aborted }

  /** An outage that may still end by itself, within a budget that is not spent. */
  ghost predicate MustWait(t: Turn, f: Failed, s: Settings) {
    && f.err.Outage? && Uninterrupted(f) && !f.finalization && s.waitEnabled && t.waitedMs < s.maxWaitMs
    && (f.err.hint.Some? || !f.err.engineGone || t.waitedMs < 8_000)
  }

  lemma WaitsExactly(t: Turn, f: Failed, b: Budgets, s: Settings)
    requires b.legSteps >= 1
    ensures Recovered(t, f, b, s).decision.Wait? <==> MustWait(t, f, s)
    ensures Recovered(t, f, b, s).decision.Wait? ==>
      Recovered(t, f, b, s).turn == t.(outageAttempts := t.outageAttempts + 1, awaiting := true)
  {
  }

  /** Two, four, eight and sixteen seconds, and from then on half a minute. */
  function Backoff(attempts: nat): nat {
    if attempts == 0 then 2_000 else if attempts == 1 then 4_000 else if attempts == 2 then 8_000
    else if attempts == 3 then 16_000 else 30_000
  }

  lemma DoubledFirst()
    ensures Doubled(0) == 1 && Doubled(1) == 2 && Doubled(2) == 4 && Doubled(3) == 8 && Doubled(4) == 16
  {
    assert Doubled(1) == 2 * Doubled(0) && Doubled(2) == 2 * Doubled(1);
    assert Doubled(3) == 2 * Doubled(2) && Doubled(4) == 2 * Doubled(3);
  }

  lemma {:induction false} DoubledMore(n: nat)
    requires n >= 4
    ensures Doubled(n) >= 16
  {
    DoubledFirst();
    if n > 4 { DoubledMore(n - 1); }
  }

  /** As long as the provider asked, or as the backoff says; never past the budget, and briefly for a dead engine. */
  ghost function WaitFor(err: Thrown, attempts: nat, left: int): int
    requires err.Outage?
  {
    match err.hint
    case Some(asked) => Min(Max(1, asked), left)
    case None => Min(Min(Backoff(attempts), left), if err.engineGone then 2_000 else left)
  }

  ghost function MustWaitFor(t: Turn, f: Failed, s: Settings): int
    requires f.err.Outage?
  {
    WaitFor(f.err, t.outageAttempts, s.maxWaitMs - t.waitedMs)
  }

  lemma WaitLastsExactly(t: Turn, f: Failed, b: Budgets, s: Settings)
    requires b.legSteps >= 1 && Recovered(t, f, b, s).decision.Wait?
    ensures f.err.Outage? && Recovered(t, f, b, s).decision.nextRetryMs == MustWaitFor(t, f, s)
  {
    DoubledFirst();
    if t.outageAttempts >= 4 { DoubledMore(t.outageAttempts); }
  }

  /** An unreadable or empty completion, with budget left and a step to enter. */
  ghost predicate MustRetryNext(t: Turn, f: Failed, b: Budgets)
    requires b.legSteps >= 1
  {
    && Uninterrupted(f) && !f.finalization
    && ((f.err.Unparseable? && t.parseRecoveries < 2) || (f.err.EmptyCompletion? && t.emptyRecoveries < 1))
    && f.index + 1 < b.stepCeiling
    && ((f.index + 1) % b.legSteps == 0 && f.index + 1 != t.lastBoundary ==> t.progress)
  }

  lemma RetriesNextExactly(t: Turn, f: Failed, b: Budgets, s: Settings)
    requires b.legSteps >= 1
    ensures Recovered(t, f, b, s).decision.RetryNext? <==> MustRetryNext(t, f, b)
    ensures Recovered(t, f, b, s).decision.RetryNext? ==>
      var u := Recovered(t, f, b, s).turn;
      u == t.(stepsTaken := t.stepsTaken + 1,
              parseRecoveries := t.parseRecoveries + if f.err.Unparseable? then 1 else 0,
              emptyRecoveries := if f.err.EmptyCompletion? then t.emptyRecoveries + 1 else 0)
  {
  }

  /** A reply cut short may be tried again: six times a turn, and a step once locally or twice in the cloud. */
  ghost predicate CutWithTriesLeft(t: Turn, f: Failed) {
    var again := t.truncation.Some? && t.truncation.value.stepIndex == f.index;
    var tries := if again then t.truncation.value.attempts else 0;
    && f.err.Truncated? && f.err.planned && t.truncationRetries < 6
    && tries < (if f.cloud then 2 else 1) && (f.err.contextWindow ==> tries == 0)
  }

  /** A refusal for size may be packed smaller: once a step, and not if the cap refused was the loop's own. */
  ghost predicate RefusedWithTriesLeft(t: Turn, f: Failed) {
    && f.err.SizeRefusal? && f.err.repackable && (t.repacked.Some? ==> t.repacked.value != f.index)
    && (t.truncation.Some? && t.truncation.value.stepIndex == f.index ==> !t.truncation.value.raised)
  }

  /** The same step again: for the summary once the time is up, for a cut reply, or for a packed request. */
  ghost predicate MustRetrySame(t: Turn, f: Failed) {
    || (f.deadlineFired && !f.aborted && !f.finalization)
    || (Uninterrupted(f) && CutWithTriesLeft(t, f))
    || (Uninterrupted(f) && !f.finalization && RefusedWithTriesLeft(t, f))
  }

  lemma RetriesSameExactly(t: Turn, f: Failed, b: Budgets, s: Settings)
    requires b.legSteps >= 1
    ensures Recovered(t, f, b, s).decision.RetrySame? <==> MustRetrySame(t, f)
    ensures Recovered(t, f, b, s).decision.RetrySame? ==>
      var u := Recovered(t, f, b, s).turn;
      if f.deadlineFired then u == t.(stopCause := TimeCeiling, ceilingFired := true)
      else if f.err.SizeRefusal? then u == t.(repacked := Some(f.index))
      else
        var again := t.truncation.Some? && t.truncation.value.stepIndex == f.index;
        var tries := if again then t.truncation.value.attempts else 0;
        u == t.(truncation := Some(TruncationRetry(f.index, tries + 1, f.err.raisesCap)),
                truncationRetries := t.truncationRetries + 1, emptyRecoveries := 0)
  {
  }

  /** A model out of memory is restarted exactly if nothing interrupted the request and the step is not the last. */
  lemma OutOfMemoryExactly(t: Turn, f: Failed, b: Budgets, s: Settings)
    requires b.legSteps >= 1
    ensures Recovered(t, f, b, s).decision.OutOfMemory? <==>
      f.err.LocalOutOfMemory? && Uninterrupted(f) && !f.finalization
    ensures Recovered(t, f, b, s).decision.OutOfMemory? ==> Recovered(t, f, b, s).turn == t
  {
  }

  /** The user ended it: the turn's signal, read off any failure but a tool's own, or a cancelled request. */
  predicate EndedByUser(f: Failed) {
    (f.aborted && !f.err.ToolFailure?) || (f.err.CancelledRequest? && (f.aborted || !f.deadlineFired))
  }

  /**
   * The turn stops in order: a failed final step that is neither cancelled nor tried again nor the second
   * empty in a row, or exhausted credit once there is something to resume.
   */
  ghost predicate MustStop(t: Turn, f: Failed, s: Settings) {
    if f.finalization then
      || (f.deadlineFired && !f.aborted)
      || (!EndedByUser(f) && !(Uninterrupted(f) && CutWithTriesLeft(t, f))
          && !(f.err.EmptyCompletion? && t.emptyRecoveries > 0))
    else f.err.CreditExhausted? && Uninterrupted(f) && (t.stepsTaken > 0 || s.resumes)
  }

  lemma StopsExactly(t: Turn, f: Failed, b: Budgets, s: Settings)
    requires b.legSteps >= 1
    ensures Recovered(t, f, b, s).decision.Stop? <==> MustStop(t, f, s)
    ensures Recovered(t, f, b, s).decision.Stop? ==>
      Recovered(t, f, b, s).turn ==
        if f.finalization then t.(stepsTaken := t.stepsTaken + 1, reason := MaxSteps)
        else t.(stopCause := CreditStop, reason := MaxSteps)
  {
  }

  /** A cancelled turn fails as cancelled, exactly; any other failure changes nothing either. */
  lemma FailsExactly(t: Turn, f: Failed, b: Budgets, s: Settings)
    requires b.legSteps >= 1
    ensures Recovered(t, f, b, s).decision == Failure(true) <==> EndedByUser(f)
    ensures Recovered(t, f, b, s).decision.Failure? ==> Recovered(t, f, b, s).turn == t
  {
  }

  class TurnLoopState {
    var reason: Reason
    var stepsTaken: nat
    var stopCause: StopCause
    var ceilingFiredMidRequest: bool
    var endedOnFinalizationStep: bool
    var legMadeProgress: bool
    var outageWaitedMs: nat
    var outageAttempts: nat
    var awaitingRecovery: bool
    var oomRestarts: nat
    var truncationRetry: Option<TruncationRetry>
    var truncationRetries: nat
    var sizeRepackRetry: Option<nat>
    var lastBoundaryIndex: int
    var parseRecoveries: nat
    var emptyRecoveries: nat

    ghost function State(): Turn
      reads this
    {
      Turn(reason, stepsTaken, stopCause, ceilingFiredMidRequest, endedOnFinalizationStep, legMadeProgress,
           outageWaitedMs, outageAttempts, awaitingRecovery, oomRestarts, truncationRetry, truncationRetries,
           sizeRepackRetry, lastBoundaryIndex, parseRecoveries, emptyRecoveries)
    }

    /** `createTurnLoopState`. */
    constructor ()
      ensures State() == NEW_TURN
    {
      reason, stepsTaken, stopCause := MaxSteps, 0, StepCeiling;
      ceilingFiredMidRequest, endedOnFinalizationStep, legMadeProgress := false, false, false;
      outageWaitedMs, outageAttempts, awaitingRecovery, oomRestarts := 0, 0, false, 0;
      truncationRetry, truncationRetries, sizeRepackRetry := None, 0, None;
      lastBoundaryIndex, parseRecoveries, emptyRecoveries := -1, 0, 0;
    }

    function Attempts(i: nat): nat
      reads this
    {
      if truncationRetry.Some? && truncationRetry.value.stepIndex == i then truncationRetry.value.attempts else 0
    }

    /** `planTruncationRetry`, on the fields. */
    predicate WouldTruncationRetry(f: Failed)
      reads this
      ensures WouldTruncationRetry(f) <==> PlansTruncationRetry(State(), f)
    {
      if !f.err.Truncated? || !f.err.planned then false
      else if truncationRetries >= TRUNCATION_RETRY_TURN_BUDGET then false
      else if Attempts(f.index) >= (if f.cloud then TRUNCATION_RETRY_STEP_BUDGET else 1) then false
      else !f.err.contextWindow || Attempts(f.index) == 0
    }

    predicate WouldRepack(f: Failed)
      reads this
      ensures WouldRepack(f) <==> PlansRepack(State(), f)
    {
      if sizeRepackRetry == Some(f.index) then false
      else if truncationRetry.Some? && truncationRetry.value.stepIndex == f.index && truncationRetry.value.raised
      then false
      else f.err.SizeRefusal? && f.err.repackable
    }

    predicate StepAvailable(i: nat, b: Budgets)
      requires b.legSteps >= 1
      reads this
      ensures StepAvailable(i, b) <==> RecoveryStepAvailable(State(), i, b)
    {
      if i + 1 >= b.stepCeiling then false
      else !(IsBoundary(i + 1, b.legSteps) && i + 1 != lastBoundaryIndex) || legMadeProgress
    }

    /** The wait for a provider that does not answer, within its budget. */
    method ParkForProvider(f: Failed, settings: Settings) returns (d: Decision)
      requires f.err.Outage?
      modifies `outageAttempts, `awaitingRecovery
      ensures Recovery(State(), d) == Parked(old(State()), f, settings)
      ensures d.Wait? <==>
        && settings.waitEnabled && old(outageWaitedMs) < settings.maxWaitMs
        && (f.err.hint.Some? || !f.err.engineGone || old(outageWaitedMs) < 8_000)
      ensures d.Wait? ==> d.nextRetryMs == WaitFor(f.err, old(outageAttempts), settings.maxWaitMs - old(outageWaitedMs))
      ensures d.Wait? ==> outageAttempts == old(outageAttempts) + 1 && awaitingRecovery
      ensures !d.Wait? ==> d == Failure(false) && outageAttempts == old(outageAttempts)
    {
      DoubledFirst();
      if outageAttempts >= 4 { DoubledMore(outageAttempts); }
      var gone := f.err.hint.None? && f.err.engineGone;
      var grace := Min(LOCAL_ENGINE_RESTART_GRACE_MS, settings.maxWaitMs);
      var graceSpent := !settings.waitEnabled || outageWaitedMs >= grace;
      if (gone && graceSpent) || !settings.waitEnabled || outageWaitedMs >= settings.maxWaitMs {
        return Failure(false);
      }
      var asked := match f.err.hint
        case Some(delay) => if delay >= 1 then delay else 1
        case None => Min(PROVIDER_WAIT_MAX_BACKOFF_MS, PROVIDER_WAIT_BASE_MS * Doubled(outageAttempts));
      var next := Min(asked, settings.maxWaitMs - outageWaitedMs);
      if gone { next := Min(next, LOCAL_ENGINE_GONE_RETRY_MS); }
      outageAttempts, awaitingRecovery := outageAttempts + 1, true;
      d := Wait(next);
    }

    /** `recoverTurnStep`, branch by branch. */
    method RecoverTurnStep(f: Failed, b: Budgets, settings: Settings) returns (d: Decision)
      requires b.legSteps >= 1
      modifies this
      ensures Recovery(State(), d) == Recovered(old(State()), f, b, settings)
      ensures d.Wait? <==> MustWait(old(State()), f, settings)
      ensures d.Wait? ==> d.nextRetryMs == MustWaitFor(old(State()), f, settings)
      ensures d.RetryNext? <==> MustRetryNext(old(State()), f, b)
      ensures d.RetrySame? <==> MustRetrySame(old(State()), f)
      ensures d.Stop? <==> MustStop(old(State()), f, settings)
      ensures d.OutOfMemory? <==> f.err.LocalOutOfMemory? && Uninterrupted(f) && !f.finalization
      ensures d == Failure(true) <==> EndedByUser(f)
    {
      d := Recover(f, b, settings);
      ghost var t := old(State());
      WaitsExactly(t, f, b, settings);
      if d.Wait? { WaitLastsExactly(t, f, b, settings); }
      RetriesNextExactly(t, f, b, settings);
      RetriesSameExactly(t, f, b, settings);
      StopsExactly(t, f, b, settings);
      OutOfMemoryExactly(t, f, b, settings);
      FailsExactly(t, f, b, settings);
    }

    method Recover(f: Failed, b: Budgets, settings: Settings) returns (d: Decision)
      requires b.legSteps >= 1
      modifies this
      ensures Recovery(State(), d) == Recovered(old(State()), f, b, settings)
    {
      var ceilingFired := f.deadlineFired && !f.aborted;
      var stoppedRequest := f.aborted && !f.err.ToolFailure?;
      var cancelled := !ceilingFired && (stoppedRequest || f.err.CancelledRequest?);
      if ceilingFired {
        if !f.finalization {
          stopCause, ceilingFiredMidRequest := TimeCeiling, true;
          return RetrySame;
        }
        stepsTaken, reason := stepsTaken + 1, MaxSteps;
        return Stop;
      }
      if !cancelled && WouldTruncationRetry(f) {
        truncationRetry := Some(TruncationRetry(f.index, Attempts(f.index) + 1, f.err.raisesCap));
        truncationRetries := truncationRetries + 1;
        emptyRecoveries := 0;
        return RetrySame;
      }
      var repeatedEmpty := emptyRecoveries > 0 && f.err.EmptyCompletion?;
      if f.finalization && !cancelled && !repeatedEmpty {
        stepsTaken, reason := stepsTaken + 1, MaxSteps;
        return Stop;
      }
      d := RecoverCompletion(f, cancelled, b, settings);
    }

    /** A completion that could not be used costs a step, if there is one to spend. */
    method RecoverCompletion(f: Failed, cancelled: bool, b: Budgets, settings: Settings) returns (d: Decision)
      requires b.legSteps >= 1 && (f.finalization ==> cancelled || f.err.EmptyCompletion?)
      requires f.finalization && !cancelled ==> emptyRecoveries > 0
      modifies this
      ensures Recovery(State(), d) ==
        if cancelled then Recovery(old(State()), Failure(true))
        else if f.finalization then Recovery(old(State()), Failure(false))
        else Respent(old(State()), f, b, settings)
    {
      if !cancelled && parseRecoveries < PARSE_RECOVERY_BUDGET && StepAvailable(f.index, b) && f.err.Unparseable? {
        parseRecoveries := parseRecoveries + 1;
        stepsTaken := stepsTaken + 1;
        emptyRecoveries := 0;
        return RetryNext;
      }
      if !cancelled && !f.finalization && emptyRecoveries < EMPTY_COMPLETION_RECOVERY_BUDGET
         && StepAvailable(f.index, b) && f.err.EmptyCompletion? {
        emptyRecoveries := emptyRecoveries + 1;
        stepsTaken := stepsTaken + 1;
        return RetryNext;
      }
      d := RecoverRequest(f, cancelled, settings);
    }

    /**
     * What is left to try once the step itself cannot be recovered: the request, the credit, the model, the provider.
     */
    method RecoverRequest(f: Failed, cancelled: bool, settings: Settings) returns (d: Decision)
      modifies this
      ensures Recovery(State(), d) ==
        if cancelled then Recovery(old(State()), Failure(true)) else Requested(old(State()), f, settings)
    {
      if !cancelled && WouldRepack(f) {
        sizeRepackRetry := Some(f.index);
        return RetrySame;
      }
      if !cancelled && f.err.CreditExhausted? && (stepsTaken > 0 || settings.resumes) {
        stopCause, reason := CreditStop, MaxSteps;
        return Stop;
      }
      if !cancelled && f.err.LocalOutOfMemory? { return OutOfMemory; }
      if !cancelled && f.err.Outage? {
        d := ParkForProvider(f, settings);
        return d;
      }
      d := Failure(cancelled);
    }
  }
}
