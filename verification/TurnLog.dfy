/** What a turn tells its observers, and what a whole log of it must satisfy: src/agent/agent-loop.ts. */
module TurnLog {
  import opened TurnRecovery

  /** `usable`: some result was ok and not a progress note. `Announced` is a parse or empty recovery. */
  datatype Event =
    | TaskContinued(index: nat)
    | StepStarted(index: nat)
    | StepFinished(index: nat, usable: bool, finalization: bool)
    | OverflowCompaction(index: nat)
    | Announced(index: nat)

  /** Some completed step with an index in [lo, hi) brought back something usable. */
  ghost predicate UsableIn(log: seq<Event>, lo: int, hi: int) {
    exists p :: 0 <= p < |log| && log[p].StepFinished? && log[p].usable && lo <= log[p].index < hi
  }

  /** Steps complete in index order, each index at most once, all below the bound. */
  ghost predicate Ordered(log: seq<Event>, bound: nat) {
    && (forall p :: 0 <= p < |log| && log[p].StepFinished? ==> log[p].index < bound)
    && (forall p, q :: 0 <= p < q < |log| && log[p].StepFinished? && log[q].StepFinished? ==>
          log[p].index < log[q].index)
  }

  /** Every step begun at a leg boundary follows a leg that brought something usable back. */
  ghost predicate BoundariesEarned(log: seq<Event>, leg: nat)
    requires leg >= 1
  {
    forall p :: 0 <= p < |log| && log[p].StepStarted? && IsBoundary(log[p].index, leg) ==>
      UsableIn(log, log[p].index - leg, log[p].index)
  }

  /** The retry announced at p is the next thing that happens. */
  ghost predicate Performed(log: seq<Event>, p: nat)
    requires p < |log| && log[p].Announced?
  {
    var next := log[p].index + 1;
    || (p + 1 < |log| && log[p + 1] == StepStarted(next))
    || (p + 2 < |log| && log[p + 1] == TaskContinued(next) && log[p + 2] == StepStarted(next))
  }

  /** Nothing at all happens after a completed finalization step. */
  ghost predicate NothingAfterFinal(log: seq<Event>) {
    forall p :: 0 <= p < |log| - 1 && log[p].StepFinished? ==> !log[p].finalization
  }

  ghost function Compactions(log: seq<Event>): nat {
    if log == [] then 0 else Compactions(log[..|log| - 1]) + if log[|log| - 1].OverflowCompaction? then 1 else 0
  }

  ghost function Completed(log: seq<Event>): nat {
    if log == [] then 0 else Completed(log[..|log| - 1]) + if log[|log| - 1].StepFinished? then 1 else 0
  }

  lemma Counts(log: seq<Event>, e: Event)
    ensures Compactions(log + [e]) == Compactions(log) + if e.OverflowCompaction? then 1 else 0
    ensures Completed(log + [e]) == Completed(log) + if e.StepFinished? then 1 else 0
  {
    assert (log + [e])[..|log|] == log;
  }

  lemma UsableAppend(log: seq<Event>, e: Event, lo: int, hi: int)
    ensures UsableIn(log + [e], lo, hi) <==>
      UsableIn(log, lo, hi) || (e.StepFinished? && e.usable && lo <= e.index < hi)
  {
    var all := log + [e];
    if UsableIn(log, lo, hi) {
      var p :| 0 <= p < |log| && log[p].StepFinished? && log[p].usable && lo <= log[p].index < hi;
      assert all[p] == log[p];
    }
    assert all[|log|] == e;
  }

  /** All a turn's log promises at a point where the next step index is i. */
  ghost predicate Good(log: seq<Event>, leg: nat, i: nat)
    requires leg >= 1
  {
    Ordered(log, i) && BoundariesEarned(log, leg) && NothingAfterFinal(log)
  }

  /** Events other than a finished step, a boundary step or anything after a final step keep it. */
  lemma AppendQuiet(log: seq<Event>, e: Event, leg: nat, i: nat)
    requires leg >= 1 && Good(log, leg, i) && !e.StepFinished?
    requires log != [] ==> !IsFinal(log[|log| - 1])
    requires e.StepStarted? && IsBoundary(e.index, leg) ==> UsableIn(log, e.index - leg, e.index)
    ensures Good(log + [e], leg, i)
  {
    AppendEarned(log, e, leg);
  }

  ghost predicate IsFinal(e: Event) { e.StepFinished? && e.finalization }

  lemma AppendEarned(log: seq<Event>, e: Event, leg: nat)
    requires leg >= 1 && BoundariesEarned(log, leg)
    requires e.StepStarted? && IsBoundary(e.index, leg) ==> UsableIn(log, e.index - leg, e.index)
    ensures BoundariesEarned(log + [e], leg)
  {
    var all := log + [e];
    forall p | 0 <= p < |all| && all[p].StepStarted? && IsBoundary(all[p].index, leg)
      ensures UsableIn(all, all[p].index - leg, all[p].index)
    {
      if p < |log| { assert all[p] == log[p]; }
      UsableAppend(log, e, all[p].index - leg, all[p].index);
    }
  }

  lemma AppendFinished(log: seq<Event>, e: Event, leg: nat, i: nat)
    requires leg >= 1 && Good(log, leg, i) && e.StepFinished? && e.index == i
    requires log != [] ==> !IsFinal(log[|log| - 1])
    ensures Good(log + [e], leg, i + 1)
  {
    AppendEarned(log, e, leg);
  }

  // ----- announced retries -----

  /** Every announcement has been performed, except possibly one just made. */
  ghost predicate Settled(log: seq<Event>) {
    forall p :: 0 <= p < |log| - 1 && log[p].Announced? ==> Performed(log, p)
  }

  /** An announcement just made is about the step before i. */
  ghost predicate Owed(log: seq<Event>) { log != [] && log[|log| - 1].Announced? }

  lemma StillPerformed(log: seq<Event>, e: Event, p: nat)
    requires p < |log| && log[p].Announced? && Performed(log, p)
    ensures Performed(log + [e], p)
  {
    var all := log + [e];
    assert all[p] == log[p];
    if p + 1 < |log| { assert all[p + 1] == log[p + 1]; }
    if p + 2 < |log| { assert all[p + 2] == log[p + 2]; }
  }

  lemma AppendSettled(log: seq<Event>, e: Event)
    requires Settled(log) && !Owed(log)
    ensures Settled(log + [e])
  {
    forall p | 0 <= p < |log + [e]| - 1 && (log + [e])[p].Announced? ensures Performed(log + [e], p) {
      StillPerformed(log, e, p);
    }
  }

  /** Entering step i, across a boundary or not, performs what was announced. */
  lemma StartPerforms(log: seq<Event>, i: nat, continued: bool)
    requires Settled(log) && (Owed(log) ==> log[|log| - 1].index + 1 == i)
    ensures Settled(log + (if continued then [TaskContinued(i)] else []) + [StepStarted(i)])
  {
    var middle := if continued then [TaskContinued(i)] else [];
    var all := log + middle + [StepStarted(i)];
    forall p | 0 <= p < |all| - 1 && all[p].Announced? ensures Performed(all, p) {
      assert p < |log| && all[p] == log[p];
      if p < |log| - 1 {
        StillPerformed(log, all[|log|], p);
        if continued { StillPerformed(log + [TaskContinued(i)], StepStarted(i), p); }
        assert continued ==> log + [TaskContinued(i)] + [StepStarted(i)] == all;
        assert !continued ==> log + [StepStarted(i)] == all;
      } else {
        assert all[|log|] == if continued then TaskContinued(i) else StepStarted(i);
        assert continued ==> all[|log| + 1] == StepStarted(i);
      }
    }
  }
}
