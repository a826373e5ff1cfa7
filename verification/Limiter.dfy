/** The first-come concurrency limiter: eval-memory/harness/p-limit.ts. */
module Limiter {
  import opened DistinctLists
  import opened Wrappers
  import opened Numbers

  /** Tasks are numbered in the order of submission. `settled`: resolved or rejected, in that order. */
  type Task = nat

  datatype State = State(active: nat, queue: seq<Task>, submitted: nat, started: seq<Task>, settled: seq<Task>)

  datatype Event = Submit | Settle(task: Task)

  const FRESH := State(0, [], 0, [], [])

  predicate Running(s: State, t: Task) { t in s.started && t !in s.settled }

  function Started(s: State, t: Task): State { s.(active := s.active + 1, started := s.started + [t]) }

  /** Calling the limiter: run at once if there is a slot, queue otherwise. */
  function Submitted(s: State, concurrency: nat): State {
    var t, m := s.submitted, s.(submitted := s.submitted + 1);
    if s.active < concurrency then Started(m, t) else m.(queue := s.queue + [t])
  }

  /** A promise settles: its slot goes to whichever has waited longest. */
  function Settled(s: State, t: Task): State
    requires s.active >= 1
  {
    var m := s.(active := s.active - 1, settled := s.settled + [t]);
    if s.queue == [] then m else Started(m.(queue := s.queue[1..]), s.queue[0])
  }

  ghost predicate Step(s: State, e: Event, next: State, concurrency: nat) {
    match e
    case Submit => next == Submitted(s, concurrency)
    case Settle(t) => Running(s, t) && s.active >= 1 && next == Settled(s, t)
  }

  /** states[k] is the limiter after k events; only running tasks settle. */
  ghost predicate IsRun(states: seq<State>, events: seq<Event>, concurrency: nat) {
    && |states| == |events| + 1 && states[0] == FRESH
    && forall k :: 0 <= k < |events| ==> Step(states[k], events[k], states[k + 1], concurrency)
  }

  function Upto(n: nat): (s: seq<Task>)
    ensures |s| == n && forall k :: 0 <= k < n ==> s[k] == k
  {
    seq(n, (k: nat) => k)
  }

  /** What holds between any two events. */
  ghost predicate Sound(s: State, concurrency: nat) {
    && s.active <= concurrency
    && (s.queue != [] ==> s.active == concurrency)
    && s.started + s.queue == Upto(s.submitted)
    && |s.started| == |s.settled| + s.active
    && Distinct(s.settled) && (forall t :: t in s.settled ==> t in s.started)
  }

  lemma Membership(s: State)
    requires s.started + s.queue == Upto(s.submitted)
    ensures |s.started| + |s.queue| == s.submitted
    ensures Distinct(s.started) && forall t :: t in s.started <==> 0 <= t < |s.started|
    ensures forall k :: 0 <= k < |s.queue| ==> s.queue[k] == |s.started| + k
  {
    var all := s.started + s.queue;
    assert forall k :: 0 <= k < |s.started| ==> s.started[k] == all[k] == k;
    assert forall k :: 0 <= k < |s.queue| ==> s.queue[k] == all[|s.started| + k];
    forall t | 0 <= t < |s.started| ensures t in s.started { assert s.started[t] == t; }
  }

  /** While a task is running a slot is taken. */
  lemma RunningIsActive(s: State, t: Task, concurrency: nat)
    requires Sound(s, concurrency) && Running(s, t)
    ensures s.active >= 1
  {
    Membership(s);
    MoreThan(s.settled, |s.started|, t);
  }

  /** Distinct tasks below n that leave one out are fewer than n. */
  lemma MoreThan(tasks: seq<Task>, n: nat, t: Task)
    requires Distinct(tasks) && (forall x :: x in tasks ==> x < n) && t < n && t !in tasks
    ensures |tasks| < n
  {
    MembersOnce(Upto(n));
    MembersOnce(tasks);
    assert Upto(n)[t] == t;
    forall x | x in tasks ensures x in Members(Upto(n)) - {t} { assert Upto(n)[x] == x; }
    SubsetSize(Members(tasks), Members(Upto(n)) - {t});
  }

  lemma SubmittedSound(s: State, concurrency: nat)
    requires Sound(s, concurrency)
    ensures Sound(Submitted(s, concurrency), concurrency)
  {
    Membership(s);
    assert Upto(s.submitted + 1) == Upto(s.submitted) + [s.submitted];
  }

  lemma SettledSound(s: State, t: Task, concurrency: nat)
    requires Sound(s, concurrency) && Running(s, t) && s.active >= 1
    ensures Sound(Settled(s, t), concurrency)
  {
    if s.queue != [] {
      assert s.started + s.queue == (s.started + [s.queue[0]]) + s.queue[1..];
    }
  }

  /**
   * In every interleaving of submissions and settlements: never more than `concurrency` tasks at once, a
   * task waits only while all slots are taken, and tasks start in exactly the order they were submitted.
   */
  lemma {:induction false} AlwaysSound(states: seq<State>, events: seq<Event>, concurrency: nat, k: nat)
    requires IsRun(states, events, concurrency) && k < |states|
    ensures Sound(states[k], concurrency)
  {
    if k > 0 {
      AlwaysSound(states, events, concurrency, k - 1);
      match events[k - 1]
      case Submit => SubmittedSound(states[k - 1], concurrency);
      case Settle(t) => SettledSound(states[k - 1], t, concurrency);
    } else {
      assert [] + [] == Upto(0);
    }
  }

  /** Every submitted task has settled, runs, or waits. */
  lemma Accounted(s: State, concurrency: nat)
    requires Sound(s, concurrency)
    ensures s.submitted == |s.settled| + s.active + |s.queue|
    ensures |s.started| == Min(s.submitted, |s.settled| + concurrency)
  {
    Membership(s);
  }

  /** Once nothing runs any more, every submitted task has run exactly once. */
  lemma NoneLeftBehind(s: State, concurrency: nat)
    requires Sound(s, concurrency) && concurrency >= 1 && forall t :: !Running(s, t)
    ensures s.queue == [] && s.started == Upto(s.submitted)
    ensures Distinct(s.settled) && |s.settled| == s.submitted && forall t :: t in s.settled <==> 0 <= t < s.submitted
  {
    Membership(s);
    forall t | t in s.started ensures t in s.settled {
      assert !Running(s, t);
    }
    AllSettled(s, concurrency);
  }

  lemma AllSettled(s: State, concurrency: nat)
    requires Sound(s, concurrency) && concurrency >= 1 && forall t :: t in s.started ==> t in s.settled
    ensures s.active == 0
  {
    Membership(s);
    MembersOnce(s.started);
    MembersOnce(s.settled);
    assert Members(s.started) == Members(s.settled);
  }

  /**
   * If every started task settles, every submitted task runs: as many settlements as are outstanding
   * leave none behind, whichever running task settles when.
   */
  lemma {:induction false} SettlementsSuffice(states: seq<State>, events: seq<Event>, concurrency: nat, from: nat)
    requires IsRun(states, events, concurrency) && concurrency >= 1 && from <= |events|
    requires forall k :: from <= k < |events| ==> events[k].Settle?
    ensures |states[|events|].settled| == |states[from].settled| + (|events| - from)
    ensures states[|events|].submitted == states[from].submitted
    ensures |events| - from <= states[from].submitted - |states[from].settled|
    ensures |events| - from == states[from].submitted - |states[from].settled| ==>
      states[|events|].queue == [] && states[|events|].active == 0
    decreases |events| - from
  {
    AlwaysSound(states, events, concurrency, |events|);
    Accounted(states[|events|], concurrency);
    if from < |events| {
      assert Step(states[from], events[from], states[from + 1], concurrency);
      SettlementsSuffice(states, events, concurrency, from + 1);
    }
  }

  /** And while any task is outstanding, some task is running, so a settlement can happen. */
  lemma SomeoneRuns(s: State, concurrency: nat) returns (t: Task)
    requires Sound(s, concurrency) && concurrency >= 1 && |s.settled| < s.submitted
    ensures Running(s, t)
  {
    if forall x :: !Running(s, x) {
      NoneLeftBehind(s, concurrency);
      assert false;
    }
    t :| Running(s, t);
  }

  // ----- the limiter -----

  class ConcurrencyLimiter {
    const concurrency: nat
    var active: nat
    var queue: seq<Task>
    var submitted: nat
    ghost var started: seq<Task>
    ghost var settled: seq<Task>

    ghost function Contents(): State
      reads this
    {
      State(active, queue, submitted, started, settled)
    }

    constructor (concurrency: nat)
      requires concurrency >= 1
      ensures Contents() == FRESH && this.concurrency == concurrency
    {
      this.concurrency := concurrency;
      active, queue, submitted, started, settled := 0, [], 0, [], [];
    }

    method Run(t: Task)
      modifies `active, `started
      ensures Contents() == Started(old(Contents()), t)
    {
      active, started := active + 1, started + [t];
    }

    /** A slot is free again: hand it to whichever has waited longest. */
    method Next()
      requires active >= 1
      modifies `active, `queue, `started
      ensures var m := old(Contents()).(active := old(active) - 1);
        Contents() == if old(queue) == [] then m else Started(m.(queue := old(queue)[1..]), old(queue)[0])
    {
      active := active - 1;
      if |queue| > 0 {
        var cont := queue[0];
        queue := queue[1..];
        Run(cont);
      }
    }

    /** The limiter called with a task. */
    method Limit() returns (t: Task)
      requires Sound(Contents(), concurrency)
      modifies this
      ensures t == old(submitted) && Contents() == Submitted(old(Contents()), concurrency)
      ensures Sound(Contents(), concurrency)
    {
      SubmittedSound(Contents(), concurrency);
      t := submitted;
      submitted := submitted + 1;
      if active < concurrency { Run(t); } else { queue := queue + [t]; }
    }

    /** A running task resolves or rejects. */
    method OnSettled(t: Task)
      requires Sound(Contents(), concurrency) && Running(Contents(), t)
      modifies this
      ensures old(active) >= 1 && Contents() == Settled(old(Contents()), t) && Sound(Contents(), concurrency)
    {
      RunningIsActive(Contents(), t, concurrency);
      SettledSound(Contents(), t, concurrency);
      settled := settled + [t];
      Next();
    }
  }

  /** `pLimit` refuses anything but a positive concurrency. */
  method PLimit(concurrency: int) returns (limiter: Option<ConcurrencyLimiter>)
    ensures limiter.Some? <==> concurrency >= 1
    ensures limiter.Some? ==>
      fresh(limiter.value) && limiter.value.concurrency == concurrency && limiter.value.Contents() == FRESH
  {
    if concurrency < 1 { return None; }
    var l := new ConcurrencyLimiter(concurrency);
    limiter := Some(l);
  }
}
