/** What a cut or refused request is retried with: src/agent/turn/truncation-recovery.ts, size-rejection-recovery.ts. */
module RetryPlans {
  import opened Wrappers
  import opened Numbers
  import opened TurnRecovery

  const TRUNCATION_RETRY_CAP_MULTIPLIER := 2
  const TRUNCATION_RETRY_CAP_CEILING := 32_768
  const WINDOW_HEADROOM_TOKENS := 512
  const MIN_PLAUSIBLE_WINDOW := 1_024

  datatype Cause = ContextWindow | OutputLimit | ProviderLimit | ReplyCap | Unknown

  /** What the server said of a reply it cut. */
  datatype Truncation = Truncation(
    cause: Cause, promptTokens: int, completionTokens: int, requested: Option<int>, repetitive: bool)

  /** The model link a step runs on, as far as the plans ask. */
  datatype Link = Link(cloud: bool, nativeTools: bool, window: Option<int>, canFitWindow: bool, fallbackMaxTokens: int,
                       lastPromptTokens: nat)

  datatype CapRetry = RaiseCap(maxTokens: int) | SameCap(maxTokens: int) | FitWindow(window: int)

  /** The cap the cut reply ran under. */
  function RequestedCap(d: Truncation, link: Link): int {
    if d.requested.Some? && d.requested.value > 0 then d.requested.value else link.fallbackMaxTokens
  }

  /** The tokens left for a reply in a window that is known. */
  function Room(d: Truncation, link: Link): Option<int> {
    if link.window.Some? && link.window.value > 0 && d.promptTokens > 0
    then Some(link.window.value - d.promptTokens - WINDOW_HEADROOM_TOKENS) else None
  }

  function Within(cap: int, room: Option<int>): int { if room.Some? then Min(cap, room.value) else cap }

  /** `planTruncationRetry` once the budgets allow a retry. */
  function CapPlan(d: Truncation, link: Link): Option<CapRetry> {
    if d.cause.ContextWindow? then
      if !link.canFitWindow || d.promptTokens + d.completionTokens <= 0 then None
      else Some(FitWindow(d.promptTokens + d.completionTokens))
    else
      var requested := RequestedCap(d, link);
      if d.cause.OutputLimit? || (link.cloud && d.cause.ProviderLimit?) then
        var limit := if d.completionTokens > 0 then d.completionTokens else requested;
        if limit <= 0 then None else Some(SameCap(limit))
      else if requested <= 0 then None
      else if link.cloud then Some(SameCap(requested))
      else
        var raised := Within(Min(TRUNCATION_RETRY_CAP_CEILING, requested * TRUNCATION_RETRY_CAP_MULTIPLIER),
                             Room(d, link));
        var kept := Within(requested, Room(d, link));
        if !d.repetitive && raised > requested then Some(RaiseCap(raised))
        else if kept <= 0 then None else Some(SameCap(kept))
  }

  /** `planTruncationRetry`. */
  function PlanTruncationRetry(detail: Option<Truncation>, stepAttempts: nat, turnAttempts: nat,
                               link: Link): Option<CapRetry>
  {
    if detail.None? || turnAttempts >= TRUNCATION_RETRY_TURN_BUDGET then None
    else if stepAttempts >= (if link.cloud then TRUNCATION_RETRY_STEP_BUDGET else 1) then None
    else if detail.value.cause.ContextWindow? && stepAttempts > 0 then None
    else CapPlan(detail.value, link)
  }

  /**
   * A raised cap is larger, at most doubled, within the ceiling and within a known window; cloud caps are never raised.
   */
  lemma RaisedCapFits(d: Truncation, link: Link)
    requires CapPlan(d, link).Some? && CapPlan(d, link).value.RaiseCap?
    ensures var m := CapPlan(d, link).value.maxTokens;
      && RequestedCap(d, link) < m <= 2 * RequestedCap(d, link) && m <= TRUNCATION_RETRY_CAP_CEILING
      && !link.cloud && !d.repetitive
      && (Room(d, link).Some? ==> d.promptTokens + m + WINDOW_HEADROOM_TOKENS <= link.window.value)
  {
  }

  /** A kept cap never exceeds what was asked for, unless the provider delivered more; locally it fits the window. */
  lemma KeptCapFits(d: Truncation, link: Link)
    requires CapPlan(d, link).Some? && CapPlan(d, link).value.SameCap?
    ensures var m := CapPlan(d, link).value.maxTokens;
      && m > 0 && m <= Max(RequestedCap(d, link), d.completionTokens)
      && (!link.cloud && !d.cause.OutputLimit? && Room(d, link).Some? ==>
            d.promptTokens + m + WINDOW_HEADROOM_TOKENS <= link.window.value)
  {
  }

  /** A reply cut at its cap on a local model is retried exactly if there was a cap and a known window has room left. */
  lemma LocalRetriedExactly(d: Truncation, link: Link)
    requires !link.cloud && !d.cause.ContextWindow? && !d.cause.OutputLimit?
    ensures CapPlan(d, link).Some? <==> RequestedCap(d, link) > 0 && (Room(d, link).Some? ==> Room(d, link).value > 0)
  {
  }

  /** The cap a cut reply ran under: the positive one the server names, or else the link's own. */
  ghost predicate RanUnder(d: Truncation, link: Link, cap: int) {
    cap == if d.requested.Some? && d.requested.value >= 1 then d.requested.value else link.fallbackMaxTokens
  }

  /** Room for n tokens of reply, as far as the window and the prompt are known. */
  predicate HasRoom(d: Truncation, link: Link, n: int) {
    link.window.Some? && link.window.value >= 1 && d.promptTokens >= 1 ==> d.promptTokens + n + 512 <= link.window.value
  }

  /**
   * The plan, branch by branch. A reply cut at the end of the window is packed into what it took. One cut at a
   * provider's limit is kept at what was delivered, and a cloud reply at its cap. A local reply gets the largest cap
   * above its own, up to twice that and 32768, that there is room for, and if there is none the largest up to its own.
   */
  lemma PlansExactly(d: Truncation, link: Link, cap: int, m: int)
    requires RanUnder(d, link, cap)
    ensures CapPlan(d, link) == Some(FitWindow(m)) <==>
      d.cause.ContextWindow? && link.canFitWindow && m == d.promptTokens + d.completionTokens && m >= 1
    ensures CapPlan(d, link) == Some(RaiseCap(m)) <==>
      && !d.cause.ContextWindow? && !d.cause.OutputLimit? && !link.cloud && !d.repetitive
      && 1 <= cap < m <= 2 * cap && m <= 32_768 && HasRoom(d, link, m)
      && (m + 1 <= 2 * cap && m + 1 <= 32_768 ==> !HasRoom(d, link, m + 1))
    ensures d.cause.OutputLimit? || (link.cloud && d.cause.ProviderLimit?) ==>
      (CapPlan(d, link) == Some(SameCap(m)) <==>
         m >= 1 && m == if d.completionTokens >= 1 then d.completionTokens else cap)
    ensures link.cloud && (d.cause.ReplyCap? || d.cause.Unknown?) ==>
      (CapPlan(d, link) == Some(SameCap(m)) <==> m == cap >= 1)
    ensures !link.cloud && !d.cause.ContextWindow? && !d.cause.OutputLimit? ==>
      (CapPlan(d, link) == Some(SameCap(m)) <==>
         && 1 <= m <= cap && HasRoom(d, link, m) && (m < cap ==> !HasRoom(d, link, m + 1))
         && (d.repetitive || cap >= 32_768 || !HasRoom(d, link, cap + 1)))
  {
  }

  // ----- refusals for size -----

  /** A provider's refusal, as its body reads: whether it speaks of the context and which length it names. */
  datatype Refusal = Refusal(ofSize: bool, namesContext: bool, named: Option<int>)

  datatype Repack = Repack(window: int, fromProvider: bool)

  /** Four fifths of the prompt, `SIZE_REJECTION_SHRINK`, rounded down. */
  function Shrunk(promptTokens: nat): nat { 4 * promptTokens / 5 }

  /** `planSizeRejectionRepack` once a retry is allowed. */
  function WindowPlan(refusal: Refusal, link: Link): Option<Repack> {
    if !link.canFitWindow || !link.nativeTools || !refusal.ofSize || !refusal.namesContext then None
    else if refusal.named.Some? && refusal.named.value >= MIN_PLAUSIBLE_WINDOW
            && (link.window.None? || refusal.named.value < link.window.value)
    then Some(Repack(refusal.named.value, true))
    else
      var estimated := Shrunk(link.lastPromptTokens);
      if estimated < MIN_PLAUSIBLE_WINDOW || (link.window.Some? && estimated >= link.window.value) then None
      else Some(Repack(estimated, false))
  }

  function PlanSizeRejectionRepack(refusal: Refusal, alreadyRetried: bool, raisedCapRefused: bool,
                                   link: Link): Option<Repack>
  {
    if alreadyRetried || raisedCapRefused then None else WindowPlan(refusal, link)
  }

  /** A window learned from a refusal is plausible and strictly smaller than the one believed in. */
  lemma LearnedWindowShrinks(refusal: Refusal, link: Link)
    requires WindowPlan(refusal, link).Some?
    ensures var w := WindowPlan(refusal, link).value.window;
      && w >= MIN_PLAUSIBLE_WINDOW && (link.window.Some? ==> w < link.window.value)
      && (WindowPlan(refusal, link).value.fromProvider ==> refusal.named == Some(w))
      && (!WindowPlan(refusal, link).value.fromProvider ==> w < link.lastPromptTokens)
  {
  }

  /** A length the refusal names that could be the window: plausible, and below the one believed in. */
  predicate Teaches(refusal: Refusal, link: Link) {
    && refusal.named.Some? && refusal.named.value >= 1_024
    && (link.window.Some? ==> refusal.named.value < link.window.value)
  }

  /** The window it names, if that could be it; else four fifths of the prompt, if that could. */
  lemma LearnsExactly(refusal: Refusal, link: Link, w: int)
    ensures WindowPlan(refusal, link) == Some(Repack(w, true)) <==>
      && link.canFitWindow && link.nativeTools && refusal.ofSize && refusal.namesContext
      && Teaches(refusal, link) && refusal.named == Some(w)
    ensures WindowPlan(refusal, link) == Some(Repack(w, false)) <==>
      && link.canFitWindow && link.nativeTools && refusal.ofSize && refusal.namesContext && !Teaches(refusal, link)
      && 5 * w <= 4 * link.lastPromptTokens < 5 * (w + 1) && w >= 1_024 && (link.window.Some? ==> w < link.window.value)
  {
  }

  /** How the believed window changes: a refusal teaches a smaller one, or something else sets it. */
  datatype Change = Taught(refusal: Refusal, link: Link) | SetTo(window: int)

  /** windows[k] is what is believed before the k-th change. */
  ghost predicate Believed(windows: seq<int>, changes: seq<Change>) {
    && |windows| == |changes| + 1
    && forall k :: 0 <= k < |changes| ==> LeadsTo(windows[k], changes[k], windows[k + 1])
  }

  ghost predicate LeadsTo(before: int, change: Change, after: int) {
    match change
    case Taught(refusal, link) =>
      link.window == Some(before) && WindowPlan(refusal, link).Some? && WindowPlan(refusal, link).value.window == after
    case SetTo(window) => after == window
  }

  ghost function Lessons(changes: seq<Change>): nat {
    if changes == [] then 0
    else Lessons(changes[..|changes| - 1]) + if changes[|changes| - 1].Taught? then 1 else 0
  }

  /** How far the other changes have raised the window, all together. */
  ghost function Raised(windows: seq<int>, changes: seq<Change>): nat
    requires |windows| == |changes| + 1
  {
    if changes == [] then 0
    else
      var n := |changes| - 1;
      Raised(windows[..n + 1], changes[..n]) + if changes[n].SetTo? then Max(0, windows[n + 1] - windows[n]) else 0
  }

  lemma {:induction false} LessonsCost(windows: seq<int>, changes: seq<Change>)
    requires Believed(windows, changes)
    ensures Lessons(changes) <= windows[0] + Raised(windows, changes) - windows[|changes|]
  {
    if changes != [] {
      var n := |changes| - 1;
      LessonsCost(windows[..n + 1], changes[..n]);
      assert LeadsTo(windows[n], changes[n], windows[n + 1]);
      if changes[n].Taught? { LearnedWindowShrinks(changes[n].refusal, changes[n].link); }
    }
  }

  /**
   * However refusals and corrections alternate, refusals teach a new window no more often than the first window
   * and everything it has been raised by exceed the least plausible one.
   */
  lemma LearningEnds(windows: seq<int>, changes: seq<Change>)
    requires Believed(windows, changes) && changes != [] && changes[|changes| - 1].Taught?
    ensures Lessons(changes) <= windows[0] + Raised(windows, changes) - MIN_PLAUSIBLE_WINDOW
  {
    var n := |changes| - 1;
    LessonsCost(windows, changes);
    assert LeadsTo(windows[n], changes[n], windows[n + 1]);
    LearnedWindowShrinks(changes[n].refusal, changes[n].link);
  }

  // ----- how the recovery reads them -----

  /** A cut reply as `recoverTurnStep` meets it. */
  function CutReply(detail: Option<Truncation>, link: Link): Thrown {
    var plan := if detail.Some? then CapPlan(detail.value, link) else None;
    Truncated(detail.Some? && detail.value.cause.ContextWindow?, plan.Some?,
              plan.Some? && (plan.value.RaiseCap? || (plan.value.SameCap? && detail.value.requested.None?)))
  }

  function Refused(refusal: Refusal, link: Link): Thrown { SizeRefusal(WindowPlan(refusal, link).Some?) }

  /** The recovery takes a truncation retry exactly when `planTruncationRetry` plans one. */
  lemma CutReplyPlanned(t: Turn, f: Failed, detail: Option<Truncation>, link: Link)
    requires f.err == CutReply(detail, link) && f.cloud == link.cloud
    ensures PlansTruncationRetry(t, f) <==>
      PlanTruncationRetry(detail, AttemptsAt(t, f.index), t.truncationRetries, link).Some?
    ensures PlansTruncationRetry(t, f) ==>
      var plan := PlanTruncationRetry(detail, AttemptsAt(t, f.index), t.truncationRetries, link).value;
      RaisesCap(f) <==> plan.RaiseCap? || (plan.SameCap? && detail.value.requested.None?)
  {
  }

  /** And repacks exactly when `planSizeRejectionRepack` finds a window. */
  lemma RefusalPlanned(t: Turn, f: Failed, refusal: Refusal, link: Link)
    requires f.err == Refused(refusal, link)
    ensures var raised := t.truncation.Some? && t.truncation.value.stepIndex == f.index && t.truncation.value.raised;
      PlansRepack(t, f) <==> PlanSizeRejectionRepack(refusal, t.repacked == Some(f.index), raised, link).Some?
  {
  }
}
