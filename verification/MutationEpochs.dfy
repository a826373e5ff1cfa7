/** Per-turn mutation epochs of the paths a model reads: src/agent/progress/mutation-epochs.ts. */
module MutationEpochs {
  import opened Wrappers
  import opened DistinctLists
  import opened OrderedMaps

  const MAX_TRACKED_PATHS := 200
  const MAX_FAILED_EPOCHS := 3

  predicate EndsWith(s: string, tail: string) {
    |tail| <= |s| && s[|s| - |tail|..] == tail
  }

  /** `samePathTarget`: equal, or one is the other behind leading directories. */
  predicate SamePathTarget(a: string, b: string) {
    if a == b then true
    else if a == "" || b == "" then false
    else if |a| < |b| then EndsWith(b, "/" + a) else EndsWith(a, "/" + b)
  }

  /** Two names are of one file exactly if they are equal or one is the other below some directory. */
  lemma SamePathExactly(a: string, b: string)
    ensures SamePathTarget(a, b) <==>
      a == b || (a != "" && b != "" && exists dir: string :: b == dir + ("/" + a) || a == dir + ("/" + b))
    ensures SamePathTarget(a, b) <==> SamePathTarget(b, a)
  {
    TailIsUnder(a, b);
    TailIsUnder(b, a);
    if |a| == |b| && a != b {
      forall dir: string ensures b != dir + ("/" + a) && a != dir + ("/" + b) {
        assert |dir + ("/" + a)| > |b| && |dir + ("/" + b)| > |a|;
      }
    }
  }

  lemma TailIsUnder(a: string, b: string)
    ensures EndsWith(b, "/" + a) <==> exists dir: string :: b == dir + ("/" + a)
    ensures |b| <= |a| ==> !EndsWith(b, "/" + a)
  {
    if EndsWith(b, "/" + a) {
      var dir := b[..|b| - |"/" + a|];
      assert b == dir + ("/" + a);
    }
  }

  /** What a call mutates: nothing, files it does not name, or these (normalized) paths. */
  datatype Targets = Nothing | Anything | Paths(paths: seq<string>)

  type Book = m: OrderedMap<string, nat> | m.Valid() witness OrderedMap([], map[])

  /** The part of the state an epoch is computed from. */
  datatype Ledger = Ledger(clock: nat, anySeq: nat, floor: nat, latest: Book)

  ghost predicate Sound(l: Ledger) {
    && l.anySeq <= l.clock && l.floor <= l.clock
    && forall p :: p in l.latest.vals ==> l.latest.vals[p] <= l.clock
  }

  /** The epoch a read of this path would be made in: the latest attempt that may have touched it. */
  ghost predicate IsEpoch(l: Ledger, path: string, e: nat) {
    && l.anySeq <= e && l.floor <= e
    && (forall t :: t in l.latest.vals && SamePathTarget(t, path) ==> l.latest.vals[t] <= e)
    && (e == l.anySeq || e == l.floor ||
        exists t :: t in l.latest.vals && SamePathTarget(t, path) && l.latest.vals[t] == e)
  }

  /** Nothing a ledger knew is lost: every attempt stays, got newer, or sank into the floor. */
  ghost predicate Grows(before: Ledger, after: Ledger) {
    && before.clock <= after.clock && before.anySeq <= after.anySeq && before.floor <= after.floor
    && forall t :: t in before.latest.vals ==>
         || (t in after.latest.vals && before.latest.vals[t] <= after.latest.vals[t])
         || before.latest.vals[t] <= after.floor
  }

  lemma GrowsTwice(before: Ledger, between: Ledger, after: Ledger)
    requires Grows(before, between) && Grows(between, after)
    ensures Grows(before, after)
  {
  }

  /** An attempt on `path` stays visible to reads of it, in its entry or in the floor. */
  ghost predicate Visible(l: Ledger, path: string, at: nat) {
    (path in l.latest.vals && l.latest.vals[path] >= at) || l.floor >= at
  }

  /** Epochs only ever grow for a path, eviction included. */
  lemma EpochsOnlyGrow(before: Ledger, after: Ledger, path: string, e: nat, e': nat)
    requires Grows(before, after) && IsEpoch(before, path, e) && IsEpoch(after, path, e')
    ensures e <= e'
  {
  }

  /** An epoch-opening attempt puts every later read of that file in a strictly newer epoch. */
  lemma OpenedIsNewer(before: Ledger, after: Ledger, target: string, path: string, e: nat, e': nat)
    requires Sound(before) && IsEpoch(before, path, e) && IsEpoch(after, path, e')
    requires SamePathTarget(target, path) && Visible(after, target, before.clock + 1)
    ensures e < e'
  {
  }

  /** There is one epoch for a path. */
  lemma EpochIsOne(l: Ledger, path: string, e: nat, e': nat)
    requires IsEpoch(l, path, e) && IsEpoch(l, path, e')
    ensures e == e'
  {
  }

  function Later(a: nat, b: nat): nat { if a >= b then a else b }

  /** The latest of these attempts that may have touched the path. */
  function LatestOf(keys: seq<string>, vals: map<string, nat>, path: string): nat {
    if keys == [] then 0
    else
      var front, touched := LatestOf(keys[..|keys| - 1], vals, path), keys[|keys| - 1];
      if touched in vals && SamePathTarget(touched, path) then Later(front, vals[touched]) else front
  }

  /** The epoch of a path, computed. */
  function Epoch(l: Ledger, path: string): nat {
    Later(Later(l.anySeq, l.floor), LatestOf(l.latest.keys, l.latest.vals, path))
  }

  lemma {:induction false} LatestBounds(keys: seq<string>, vals: map<string, nat>, path: string)
    ensures forall t :: t in keys && t in vals && SamePathTarget(t, path) ==> vals[t] <= LatestOf(keys, vals, path)
    ensures LatestOf(keys, vals, path) == 0 ||
      exists t :: t in keys && t in vals && SamePathTarget(t, path) && vals[t] == LatestOf(keys, vals, path)
  {
    if keys != [] {
      LatestBounds(keys[..|keys| - 1], vals, path);
      assert keys == keys[..|keys| - 1] + [keys[|keys| - 1]];
    }
  }

  lemma EpochIs(l: Ledger, path: string)
    ensures IsEpoch(l, path, Epoch(l, path))
  {
    LatestBounds(l.latest.keys, l.latest.vals, path);
    forall t | t in l.latest.vals ensures t in l.latest.keys { assert t in l.latest.vals.Keys; }
  }

  // ----- the failures in a row -----

  function FailuresIn(failures: Book, path: string): nat {
    match failures.Get(path)
    case Some(n) => n
    case None => 0
  }

  /** The count once one more attempt on the path is in. */
  function Tried(failures: Book, path: string, landed: bool): nat {
    if landed then 0 else FailuresIn(failures, path) + 1
  }

  function Counted(failures: Book, paths: seq<string>, landed: bool): Book {
    if paths == [] then failures
    else
      var before, path := Counted(failures, paths[..|paths| - 1], landed), paths[|paths| - 1];
      before.Set(path, Tried(before, path, landed))
  }

  /** The paths the attempt opens an epoch for, in their order. */
  function Opened(failures: Book, paths: seq<string>, landed: bool): seq<string> {
    if paths == [] then []
    else
      var front, path := paths[..|paths| - 1], paths[|paths| - 1];
      Opened(failures, front, landed) +
        if Tried(Counted(failures, front, landed), path, landed) <= MAX_FAILED_EPOCHS then [path] else []
  }

  function OpenedTargets(failures: Book, paths: seq<string>, landed: bool): Targets {
    if Opened(failures, paths, landed) == [] then Nothing else Paths(Opened(failures, paths, landed))
  }

  lemma CountStep(failures: Book, paths: seq<string>, i: nat, landed: bool)
    requires i < |paths|
    ensures var before := Counted(failures, paths[..i], landed); var tried := Tried(before, paths[i], landed);
      && Counted(failures, paths[..i + 1], landed) == before.Set(paths[i], tried)
      && Opened(failures, paths[..i + 1], landed) ==
           Opened(failures, paths[..i], landed) + if tried <= MAX_FAILED_EPOCHS then [paths[i]] else []
  {
    assert paths[..i + 1][..i] == paths[..i];
  }

  lemma SetGet(failures: Book, path: string, n: nat, other: string)
    ensures FailuresIn(failures.Set(path, n), other) == if other == path then n else FailuresIn(failures, other)
  {
  }

  lemma Mentions(paths: seq<string>, path: string)
    requires paths != []
    ensures var front, last := paths[..|paths| - 1], paths[|paths| - 1];
      && (path in paths <==> path in front || path == last)
      && (path !in front ==> multiset(front)[path] == 0)
      && multiset(paths)[path] == multiset(front)[path] + if path == last then 1 else 0
  {
    assert paths == paths[..|paths| - 1] + [paths[|paths| - 1]];
  }

  /** Each mention of a path in a failed attempt is one more failure; a landed one starts it over. */
  lemma {:induction false} CountedExactly(failures: Book, paths: seq<string>, landed: bool, path: string)
    ensures FailuresIn(Counted(failures, paths, landed), path) ==
      if !landed then FailuresIn(failures, path) + multiset(paths)[path]
      else if path in paths then 0 else FailuresIn(failures, path)
  {
    if paths != [] {
      var front, last := paths[..|paths| - 1], paths[|paths| - 1];
      CountedExactly(failures, front, landed, path);
      var before := Counted(failures, front, landed);
      SetGet(before, last, Tried(before, last, landed), path);
      Mentions(paths, path);
    }
  }

  /** A path is opened exactly if the change landed or fewer than three attempts on it failed before. */
  lemma {:induction false} OpenedExactly(failures: Book, paths: seq<string>, landed: bool, path: string)
    ensures path in Opened(failures, paths, landed) <==>
      (path in paths && (landed || FailuresIn(failures, path) < MAX_FAILED_EPOCHS))
  {
    if paths != [] {
      var front := paths[..|paths| - 1];
      OpenedExactly(failures, front, landed, path);
      CountedExactly(failures, front, landed, path);
      Mentions(paths, path);
      LastOpened(failures, paths, landed, path);
    }
  }

  lemma LastOpened(failures: Book, paths: seq<string>, landed: bool, path: string)
    requires paths != []
    ensures var front, last := paths[..|paths| - 1], paths[|paths| - 1];
      path in Opened(failures, paths, landed) <==>
        (path in Opened(failures, front, landed)
         || (path == last && Tried(Counted(failures, front, landed), last, landed) <= MAX_FAILED_EPOCHS))
  {
  }

  /** Eviction forgets a path's failures; it never makes any up. */
  ghost predicate Faded(before: Book, after: Book) {
    forall p :: FailuresIn(after, p) == FailuresIn(before, p) || FailuresIn(after, p) == 0
  }

  lemma FadeOne(before: Book, failures: Book, path: string)
    requires Faded(before, failures)
    ensures Faded(before, failures.Delete(path))
    ensures failures.keys != [] && path == failures.keys[0] ==> Faded(before, failures.Evict(MAX_TRACKED_PATHS))
  {
  }

  lemma FadeTwice(before: Book, between: Book, after: Book)
    requires Faded(before, between) && Faded(between, after)
    ensures Faded(before, after)
  {
  }

  // ----- the latest attempts -----

  function Stamped(vals: map<string, nat>, touched: set<string>, clock: nat): map<string, nat> {
    map p | p in vals.Keys + touched :: if p in touched then clock else vals[p]
  }

  lemma StampOne(vals: map<string, nat>, touched: set<string>, path: string, clock: nat)
    ensures Stamped(vals, touched, clock)[path := clock] == Stamped(vals, touched + {path}, clock)
  {
  }

  lemma StampedGrows(l: Ledger, after: Ledger, touched: set<string>)
    requires Sound(l) && after.clock == l.clock + 1 && after.anySeq == l.anySeq && after.floor == l.floor
    requires after.latest.vals == Stamped(l.latest.vals, touched, l.clock + 1)
    ensures Sound(after) && Grows(l, after) && forall p :: p in touched ==> Visible(after, p, l.clock + 1)
  {
  }

  lemma KeyCount(m: Book)
    ensures |m.keys| == |m.vals.Keys|
  {
    MembersOnce(m.keys);
    assert m.vals.Keys == Members(m.keys);
  }

  // ----- eviction -----

  ghost predicate Within(part: map<string, nat>, whole: map<string, nat>) {
    forall t :: t in part ==> t in whole && part[t] == whole[t]
  }

  /** Nothing known is lost, and every attempt stays visible. */
  ghost predicate Keeps(before: Ledger, after: Ledger) {
    Grows(before, after) && forall p, at :: Visible(before, p, at) ==> Visible(after, p, at)
  }

  /** The ledger without its oldest entry, whose epoch the floor takes over. */
  ghost function Sunk(l: Ledger): Ledger
    requires |l.latest.keys| > MAX_TRACKED_PATHS
  {
    assert l.latest.keys[0] in l.latest.vals.Keys;
    l.(floor := if l.floor >= l.latest.vals[l.latest.keys[0]] then l.floor else l.latest.vals[l.latest.keys[0]],
       latest := l.latest.Evict(MAX_TRACKED_PATHS))
  }

  lemma SinksIntoFloor(before: Ledger, l: Ledger)
    requires |l.latest.keys| > MAX_TRACKED_PATHS && Sound(l) && Keeps(before, l)
    ensures Sound(Sunk(l)) && Keeps(before, Sunk(l))
  {
    assert l.latest.keys[0] in l.latest.vals.Keys;
    var after := Sunk(l);
    forall p, at | Visible(before, p, at) ensures Visible(after, p, at) { assert Visible(l, p, at); }
  }

  /** Neither table grows past its cap by this attempt, so nothing is evicted. */
  ghost predicate Fits(latest: Book, failures: Book, paths: seq<string>, landed: bool) {
    && |latest.vals.Keys + Members(Opened(failures, paths, landed))| <= MAX_TRACKED_PATHS
    && |Counted(failures, paths, landed).keys| <= MAX_TRACKED_PATHS
  }

  /** All the book remembers. */
  datatype Attempts = Attempts(ledger: Ledger, anyFailures: nat, failures: Book)

  /** What an attempt opens a new epoch for. */
  function Moved(b: Attempts, targets: Targets, landed: bool): Targets {
    match targets
    case Nothing => Nothing
    case Anything => if landed || b.anyFailures < MAX_FAILED_EPOCHS then Anything else Nothing
    case Paths(paths) => OpenedTargets(b.failures, paths, landed)
  }

  /** How an attempt leaves the epochs. */
  ghost predicate LedgerNoted(b: Attempts, targets: Targets, landed: bool, after: Ledger) {
    var moved := Moved(b, targets, landed);
    && Sound(after) && Grows(b.ledger, after)
    && after.clock == b.ledger.clock + (if moved.Nothing? then 0 else 1)
    && after.anySeq == (if moved.Anything? then after.clock else b.ledger.anySeq)
    && (!moved.Paths? ==> after.latest == b.ledger.latest && after.floor == b.ledger.floor)
    && (moved.Paths? ==> PathsMoved(b.ledger, moved.paths, after))
    && (targets.Paths? && Fits(b.ledger.latest, b.failures, targets.paths, landed) ==> after.floor == b.ledger.floor)
  }

  /** The paths are at the new epoch; other entries are as they were, unless they sank into the floor. */
  ghost predicate PathsMoved(before: Ledger, paths: seq<string>, after: Ledger) {
    var stamped := Stamped(before.latest.vals, Members(paths), after.clock);
    && |after.latest.keys| <= MAX_TRACKED_PATHS && Within(after.latest.vals, stamped)
    && (|stamped.Keys| <= MAX_TRACKED_PATHS ==> after.latest.vals == stamped)
    && forall p :: p in paths ==> Visible(after, p, after.clock)
  }

  /** How an attempt leaves the failure counts. */
  ghost predicate FailuresNoted(b: Attempts, targets: Targets, landed: bool, anyFailures: nat, failures: Book) {
    && anyFailures == (if !targets.Anything? then b.anyFailures else if landed then 0 else b.anyFailures + 1)
    && (!targets.Paths? ==> failures == b.failures)
    && (targets.Paths? ==> Faded(Counted(b.failures, targets.paths, landed), failures))
    && (targets.Paths? && Moved(b, targets, landed).Nothing? ==> failures == Counted(b.failures, targets.paths, landed))
    && (targets.Paths? && Fits(b.ledger.latest, b.failures, targets.paths, landed) ==>
          failures == Counted(b.failures, targets.paths, landed))
  }

  class MutationEpochs {
    var clock: nat
    var anySeq: nat
    var evictedFloor: nat
    var anyFailures: nat
    var latest: Book
    var failures: Book

    ghost predicate Valid()
      reads this
    {
      Sound(State())
    }

    ghost function State(): Ledger
      reads this
    {
      Ledger(clock, anySeq, evictedFloor, latest)
    }

    ghost function All(): Attempts
      reads this
    {
      Attempts(State(), anyFailures, failures)
    }

    constructor ()
      ensures Valid() && State() == Ledger(0, 0, 0, OrderedMap([], map[]))
      ensures anyFailures == 0 && failures == OrderedMap([], map[])
    {
      clock, anySeq, evictedFloor, anyFailures := 0, 0, 0, 0;
      latest, failures := OrderedMap([], map[]), OrderedMap([], map[]);
    }

    /** `epochFor`. */
    method EpochFor(path: string) returns (epoch: nat)
      requires Valid()
      ensures epoch == Epoch(State(), path) && IsEpoch(State(), path, epoch)
    {
      epoch := if anySeq >= evictedFloor then anySeq else evictedFloor;
      for i := 0 to |latest.keys|
        invariant anySeq <= epoch && evictedFloor <= epoch
        invariant forall k :: 0 <= k < i && SamePathTarget(latest.keys[k], path) ==>
          latest.vals[latest.keys[k]] <= epoch
        invariant epoch == anySeq || epoch == evictedFloor ||
          exists t :: t in latest.vals && SamePathTarget(t, path) && latest.vals[t] == epoch
      {
        var touched := latest.keys[i];
        assert touched in latest.vals.Keys;
        if latest.vals[touched] > epoch && SamePathTarget(touched, path) {
          epoch := latest.vals[touched];
        }
      }
      forall t | t in latest.vals && SamePathTarget(t, path) ensures latest.vals[t] <= epoch {
        assert t in latest.vals.Keys;
        var k :| 0 <= k < |latest.keys| && latest.keys[k] == t;
      }
      EpochIs(State(), path);
      EpochIsOne(State(), path, epoch, Epoch(State(), path));
    }

    function FailuresOf(path: string): nat
      reads this`failures
    {
      FailuresIn(failures, path)
    }

    /**
     * `note`: the paths that landed, or have failed fewer than three times, move to one new epoch, and
     * nothing known before is lost to eviction. An attempt that opens nothing only counts its failures.
     */
    method Note(targets: Targets, landed: bool) returns (moved: Targets)
      requires Valid()
      modifies this
      ensures Valid() && moved == Moved(old(All()), targets, landed)
      ensures LedgerNoted(old(All()), targets, landed, State())
      ensures FailuresNoted(old(All()), targets, landed, anyFailures, failures)
    {
      if targets.Nothing? { return Nothing; }
      if targets.Anything? {
        anyFailures := if landed then 0 else anyFailures + 1;
        if anyFailures > MAX_FAILED_EPOCHS { return Nothing; }
        clock := clock + 1;
        anySeq := clock;
        return Anything;
      }
      moved := NotePaths(targets.paths, landed);
    }

    method NotePaths(paths: seq<string>, landed: bool) returns (moved: Targets)
      requires Valid()
      modifies this`clock, this`latest, this`evictedFloor, this`failures
      ensures Valid() && Grows(old(State()), State())
      ensures moved == OpenedTargets(old(failures), paths, landed)
      ensures moved.Nothing? ==> State() == old(State()) && failures == Counted(old(failures), paths, landed)
      ensures moved.Paths? ==> clock == old(clock) + 1 && PathsMoved(old(State()), moved.paths, State())
      ensures Faded(Counted(old(failures), paths, landed), failures)
      ensures Fits(old(latest), old(failures), paths, landed) ==> failures == Counted(old(failures), paths, landed)
      ensures Fits(old(latest), old(failures), paths, landed) ==> evictedFloor == old(evictedFloor)
    {
      var moving := CountAttempts(paths, landed);
      if moving == [] { return Nothing; }
      moved := Paths(moving);
      ghost var before := State();
      MovePaths(moving);
      ghost var stamped := State();
      KeyCount(latest);
      assert latest.vals.Keys == before.latest.vals.Keys + Members(moving);
      Evict();
      GrowsTwice(before, stamped, State());
    }

    /** Both tables back within their caps. */
    method Evict()
      requires Valid()
      modifies this`latest, this`evictedFloor, this`failures
      ensures Valid() && Keeps(old(State()), State())
      ensures |latest.keys| <= MAX_TRACKED_PATHS && Within(latest.vals, old(latest).vals)
      ensures Faded(old(failures), failures)
      ensures |old(latest).keys| <= MAX_TRACKED_PATHS ==> latest == old(latest) && evictedFloor == old(evictedFloor)
      ensures |old(latest).keys| <= MAX_TRACKED_PATHS && |old(failures).keys| <= MAX_TRACKED_PATHS ==>
        failures == old(failures)
    {
      ghost var counted := failures;
      EvictLatest();
      ghost var kept := failures;
      EvictFailures();
      FadeTwice(counted, kept, failures);
    }

    /** Move the paths to a new epoch. */
    method MovePaths(paths: seq<string>)
      requires Valid()
      modifies this`clock, this`latest
      ensures Valid() && Grows(old(State()), State()) && clock == old(clock) + 1
      ensures forall p :: p in paths ==> Visible(State(), p, clock)
      ensures latest.vals == Stamped(old(latest).vals, Members(paths), clock)
    {
      ghost var before := State();
      clock := clock + 1;
      Touch(paths);
      StampedGrows(before, State(), Members(paths));
    }

    method CountAttempts(paths: seq<string>, landed: bool) returns (moving: seq<string>)
      modifies this`failures
      ensures failures == Counted(old(failures), paths, landed)
      ensures moving == Opened(old(failures), paths, landed)
    {
      ghost var before := failures;
      moving := [];
      for i := 0 to |paths|
        invariant failures == Counted(before, paths[..i], landed)
        invariant moving == Opened(before, paths[..i], landed)
      {
        CountStep(before, paths, i, landed);
        var opens := CountAttempt(paths[i], landed);
        if !opens { continue; }
        moving := moving + [paths[i]];
      }
      assert paths[..|paths|] == paths;
    }

    method CountAttempt(path: string, landed: bool) returns (opens: bool)
      modifies this`failures
      ensures failures == old(failures).Set(path, Tried(old(failures), path, landed))
      ensures opens <==> Tried(old(failures), path, landed) <= MAX_FAILED_EPOCHS
    {
      var failed := if landed then 0 else FailuresOf(path) + 1;
      failures := failures.Set(path, failed);
      opens := failed <= MAX_FAILED_EPOCHS;
    }

    /** Re-insert the opened paths at the new epoch, most recent last. */
    method Touch(paths: seq<string>)
      modifies this`latest
      ensures latest.vals == Stamped(old(latest).vals, Members(paths), clock)
    {
      for i := 0 to |paths|
        invariant latest.vals == Stamped(old(latest).vals, Members(paths[..i]), clock)
      {
        MembersStep(paths, i);
        StampOne(old(latest).vals, Members(paths[..i]), paths[i], clock);
        latest := latest.Reinsert(paths[i], clock);
      }
      assert paths[..|paths|] == paths;
    }

    /** Evict the least recently touched; its epoch becomes part of the floor. */
    method EvictLatest()
      requires Valid()
      modifies this`latest, this`evictedFloor, this`failures
      ensures Valid() && Keeps(old(State()), State())
      ensures |latest.keys| <= MAX_TRACKED_PATHS && Within(latest.vals, old(latest).vals)
      ensures Faded(old(failures), failures)
      ensures |old(latest).keys| <= MAX_TRACKED_PATHS ==>
        failures == old(failures) && latest == old(latest) && evictedFloor == old(evictedFloor)
    {
      while |latest.keys| > MAX_TRACKED_PATHS
        invariant Sound(State()) && Keeps(old(State()), State())
        invariant Faded(old(failures), failures) && Within(latest.vals, old(latest).vals)
        invariant |old(latest).keys| <= MAX_TRACKED_PATHS ==>
          failures == old(failures) && latest == old(latest) && evictedFloor == old(evictedFloor)
        decreases |latest.keys|
      {
        SinksIntoFloor(old(State()), State());
        FadeOne(old(failures), failures, latest.keys[0]);
        DropOldest();
      }
    }

    method DropOldest()
      requires |latest.keys| > MAX_TRACKED_PATHS
      modifies this`latest, this`evictedFloor, this`failures
      ensures State() == Sunk(old(State())) && failures == old(failures).Delete(old(latest).keys[0])
    {
      var path := latest.keys[0];
      assert path in latest.vals.Keys;
      var at := latest.vals[path];
      evictedFloor := if evictedFloor >= at then evictedFloor else at;
      latest := latest.Evict(MAX_TRACKED_PATHS);
      failures := failures.Delete(path);
    }

    method EvictFailures()
      modifies this`failures
      ensures |failures.keys| <= MAX_TRACKED_PATHS
      ensures Faded(old(failures), failures)
      ensures |old(failures).keys| <= MAX_TRACKED_PATHS ==> failures == old(failures)
    {
      while |failures.keys| > MAX_TRACKED_PATHS
        invariant Faded(old(failures), failures)
        invariant |old(failures).keys| <= MAX_TRACKED_PATHS ==> failures == old(failures)
        decreases |failures.keys|
      {
        FadeOne(old(failures), failures, failures.keys[0]);
        failures := failures.Evict(MAX_TRACKED_PATHS);
      }
    }
  }

  /** The attempt opens an epoch for this path: it landed, or has failed fewer than three times before. */
  ghost predicate Opens(b: Attempts, targets: Targets, landed: bool, path: string) {
    match targets
    case Nothing => false
    case Anything => landed || b.anyFailures < 3
    case Paths(paths) => exists t :: t in paths && (landed || FailuresIn(b.failures, t) < 3) && SamePathTarget(t, path)
  }

  /** The attempt opens an epoch for a path that names the file. */
  ghost predicate Reopens(failures: Book, targets: seq<string>, landed: bool, path: string) {
    exists t :: t in targets && (landed || FailuresIn(failures, t) < MAX_FAILED_EPOCHS) && SamePathTarget(t, path)
  }

  /** The epoch of a file no opened path names changes only with the floor. */
  lemma OthersOnlyByFloor(before: Ledger, after: Ledger, touched: set<string>, path: string, e: nat, e': nat)
    requires after.anySeq == before.anySeq && Grows(before, after)
    requires Within(after.latest.vals, Stamped(before.latest.vals, touched, after.clock))
    requires forall t :: t in touched ==> !SamePathTarget(t, path)
    requires IsEpoch(before, path, e) && IsEpoch(after, path, e')
    ensures e < e' <==> e < after.floor
  {
  }

  lemma OpenedMembers(failures: Book, targets: seq<string>, landed: bool, path: string)
    ensures Reopens(failures, targets, landed, path) <==>
      exists t :: t in Members(Opened(failures, targets, landed)) && SamePathTarget(t, path)
  {
    forall t ensures t in Members(Opened(failures, targets, landed)) <==>
      (t in targets && (landed || FailuresIn(failures, t) < MAX_FAILED_EPOCHS))
    {
      OpenedExactly(failures, targets, landed, t);
    }
  }

  /**
   * A read, an attempt on any number of paths, and the re-read: the re-read is in a strictly newer epoch exactly
   * if the attempt opened one for a path that names the file, or what it evicted lifted the floor past the read.
   */
  method RereadAfterAttempt(book: MutationEpochs, targets: seq<string>, path: string, landed: bool)
    returns (read: nat, reread: nat)
    requires book.Valid()
    modifies book
    ensures book.Valid() && IsEpoch(old(book.State()), path, read) && IsEpoch(book.State(), path, reread)
    ensures read <= reread
    ensures read < reread <==> Reopens(old(book.failures), targets, landed, path) || read < book.evictedFloor
    ensures Fits(old(book.latest), old(book.failures), targets, landed) ==>
      book.evictedFloor == old(book.evictedFloor) <= read
  {
    read := book.EpochFor(path);
    ghost var before, failures := book.State(), book.failures;
    var moved := book.Note(Paths(targets), landed);
    reread := book.EpochFor(path);
    OpenedMembers(failures, targets, landed, path);
    EpochsOnlyGrow(before, book.State(), path, read, reread);
    if Reopens(failures, targets, landed, path) {
      var t :| t in Members(Opened(failures, targets, landed)) && SamePathTarget(t, path);
      OpenedIsNewer(before, book.State(), t, path, read, reread);
    } else if moved.Paths? {
      OthersOnlyByFloor(before, book.State(), Members(Opened(failures, targets, landed)), path, read, reread);
    }
  }

  // ----- more files than the tables hold -----

  /** Landed edits of these files and nothing else so far. */
  ghost predicate Edited(b: Attempts, known: set<string>) {
    && Sound(b.ledger) && b.ledger.anySeq == 0 && b.ledger.floor == 0
    && b.ledger.latest.vals.Keys == known && b.failures.vals.Keys == known
    && forall t :: t in b.ledger.latest.vals ==> b.ledger.latest.vals[t] >= 1
  }

  lemma OneOpened(failures: Book, name: string)
    ensures Opened(failures, [name], true) == [name] && Members([name]) == {name}
    ensures Counted(failures, [name], true) == failures.Set(name, 0)
  {
    assert [name][..0] == [];
  }

  lemma OneMore(known: set<string>, name: string)
    requires |known| < MAX_TRACKED_PATHS && name !in known
    ensures |known + {name}| <= MAX_TRACKED_PATHS
  {
  }

  lemma SetCount(failures: Book, name: string, n: nat)
    ensures |failures.Set(name, n).keys| == |failures.vals.Keys + {name}|
  {
    KeyCount(failures.Set(name, n));
    assert failures.Set(name, n).vals.Keys == failures.vals.Keys + {name};
  }

  lemma OneFits(b: Attempts, known: set<string>, name: string)
    requires |known| < MAX_TRACKED_PATHS && name !in known && Edited(b, known)
    ensures Fits(b.ledger.latest, b.failures, [name], true)
  {
    OneOpened(b.failures, name);
    OneMore(known, name);
    SetCount(b.failures, name, 0);
  }

  lemma OneMoved(b: Attempts, name: string)
    ensures Moved(b, Paths([name]), true) == Paths([name])
  {
    OneOpened(b.failures, name);
  }

  lemma OneStamped(before: Ledger, after: Ledger, known: set<string>, name: string)
    requires |known| < MAX_TRACKED_PATHS && name !in known && before.latest.vals.Keys == known
    requires PathsMoved(before, [name], after)
    ensures after.latest.vals == before.latest.vals[name := after.clock]
  {
    OneMore(known, name);
    assert Members([name]) == {name};
    assert Stamped(before.latest.vals, {name}, after.clock) == before.latest.vals[name := after.clock];
    assert before.latest.vals[name := after.clock].Keys == known + {name};
  }

  lemma OneCounted(b: Attempts, anyFailures: nat, failures: Book, known: set<string>, name: string)
    requires |known| < MAX_TRACKED_PATHS && name !in known && Edited(b, known)
    requires FailuresNoted(b, Paths([name]), true, anyFailures, failures)
    ensures failures.vals.Keys == known + {name}
  {
    OneFits(b, known, name);
    OneOpened(b.failures, name);
    assert b.failures.Set(name, 0).vals.Keys == known + {name};
  }

  lemma OneNoted(b: Attempts, after: Ledger, known: set<string>, name: string)
    requires |known| < MAX_TRACKED_PATHS && name !in known && Edited(b, known)
    requires LedgerNoted(b, Paths([name]), true, after)
    ensures Sound(after) && after.anySeq == 0 && after.floor == 0
    ensures after.latest.vals.Keys == known + {name}
    ensures forall t :: t in after.latest.vals ==> after.latest.vals[t] >= 1
  {
    OneMoved(b, name);
    OneFits(b, known, name);
    assert after.clock >= 1 && PathsMoved(b.ledger, [name], after);
    OneEntered(b.ledger, after, known, name);
  }

  lemma OneEntered(before: Ledger, after: Ledger, known: set<string>, name: string)
    requires |known| < MAX_TRACKED_PATHS && name !in known && before.latest.vals.Keys == known
    requires PathsMoved(before, [name], after) && after.clock >= 1
    requires forall t :: t in before.latest.vals ==> before.latest.vals[t] >= 1
    ensures after.latest.vals.Keys == known + {name}
    ensures forall t :: t in after.latest.vals ==> after.latest.vals[t] >= 1
  {
    OneStamped(before, after, known, name);
  }

  lemma OneEdited(b: Attempts, after: Attempts, known: set<string>, name: string)
    requires |known| < MAX_TRACKED_PATHS && name !in known && Edited(b, known)
    requires LedgerNoted(b, Paths([name]), true, after.ledger)
    requires FailuresNoted(b, Paths([name]), true, after.anyFailures, after.failures)
    ensures Edited(after, known + {name})
  {
    OneCounted(b, after.anyFailures, after.failures, known, name);
    OneNoted(b, after.ledger, known, name);
  }

  method EditOne(book: MutationEpochs, ghost known: set<string>, name: string)
    requires |known| < MAX_TRACKED_PATHS && name !in known && Edited(book.All(), known)
    modifies book
    ensures Edited(book.All(), known + {name})
  {
    ghost var before := book.All();
    var moved := book.Note(Paths([name]), true);
    OneEdited(before, book.All(), known, name);
  }

  lemma NewName(names: seq<string>, k: nat)
    requires Distinct(names) && k < |names|
    ensures |Members(names[..k])| == k && names[k] !in Members(names[..k])
    ensures Members(names[..k + 1]) == Members(names[..k]) + {names[k]}
  {
    MembersOnce(names[..k]);
    MembersStep(names, k);
  }

  method EditAll(names: seq<string>) returns (book: MutationEpochs)
    requires Distinct(names) && |names| <= MAX_TRACKED_PATHS
    ensures fresh(book) && Edited(book.All(), Members(names))
  {
    book := new MutationEpochs();
    for i := 0 to |names|
      invariant Edited(book.All(), Members(names[..i])) && fresh(book)
    {
      NewName(names, i);
      EditOne(book, Members(names[..i]), names[i]);
    }
    assert names[..|names|] == names;
  }

  /** One table for all these attempts is not enough: one of them has sunk into the floor. */
  lemma SomeEvicted(l: Ledger, known: set<string>)
    requires |known| > MAX_TRACKED_PATHS >= |l.latest.keys| && forall t :: t in known ==> Visible(l, t, 1)
    ensures l.floor >= 1
  {
    if l.floor == 0 {
      forall t | t in known ensures t in l.latest.vals.Keys { assert Visible(l, t, 1); }
      SubsetSize(known, l.latest.vals.Keys);
      KeyCount(l.latest);
      assert false;
    }
  }

  lemma AllVisible(b: Attempts, after: Ledger, known: set<string>, name: string)
    requires Edited(b, known) && LedgerNoted(b, Paths([name]), true, after)
    ensures forall t :: t in known + {name} ==> Visible(after, t, 1)
  {
    OneMoved(b, name);
    forall t | t in known ensures Visible(after, t, 1) { assert t in b.ledger.latest.vals; }
  }

  method EditOneMore(book: MutationEpochs, ghost known: set<string>, name: string)
    requires |known| == MAX_TRACKED_PATHS && name !in known && Edited(book.All(), known)
    modifies book
    ensures book.Valid() && book.evictedFloor >= 1
  {
    ghost var before := book.All();
    var moved := book.Note(Paths([name]), true);
    AllVisible(before, book.State(), known, name);
    SomeEvicted(book.State(), known + {name});
  }

  /**
   * Whatever 201 files are edited, each once, none of them the file that is read: by the last of those edits the
   * file is in a newer epoch, so re-reads of it are no longer compared although only other files changed.
   */
  method EditsElsewhere(first: seq<string>, last: string, path: string) returns (read: nat, reread: nat)
    requires Distinct(first) && |first| == MAX_TRACKED_PATHS && last !in first
    requires forall name :: name in first + [last] ==> !SamePathTarget(name, path)
    ensures read < reread
  {
    var book := EditAll(first);
    MembersOnce(first);
    read := book.EpochFor(path);
    EditOneMore(book, Members(first), last);
    reread := book.EpochFor(path);
  }
}
