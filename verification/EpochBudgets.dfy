/** How many new epochs failing edits can open: src/agent/progress/mutation-epochs.ts:20-25, 195-214. */
module EpochBudgets {
  import opened Wrappers
  import opened DistinctLists
  import opened OrderedMaps
  import opened MutationEpochs

  function Spare(failed: nat): nat { if failed < MAX_FAILED_EPOCHS then MAX_FAILED_EPOCHS - failed else 0 }

  function SpareOn(failures: Book, names: seq<string>): nat {
    if names == [] then 0
    else SpareOn(failures, names[..|names| - 1]) + Spare(FailuresIn(failures, names[|names| - 1]))
  }

  /** The epochs that failing edits of these paths, and of files they do not name, can open. */
  function Budget(b: Attempts, names: seq<string>): nat { Spare(b.anyFailures) + SpareOn(b.failures, names) }

  /** At most three epochs for each path, however its failures are counted so far. */
  lemma {:induction false} BudgetBound(failures: Book, names: seq<string>)
    ensures SpareOn(failures, names) <= MAX_FAILED_EPOCHS * |names|
  {
    if names != [] { BudgetBound(failures, names[..|names| - 1]); }
  }

  /** The call targets none but these paths. */
  predicate Confined(targets: Targets, names: seq<string>) {
    targets.Paths? ==> Members(targets.paths) <= Members(names)
  }

  /** Attempts on these paths evict nothing. */
  ghost predicate HasRoom(b: Attempts, names: seq<string>) {
    && |b.ledger.latest.vals.Keys + Members(names)| <= MAX_TRACKED_PATHS
    && |b.failures.vals.Keys + Members(names)| <= MAX_TRACKED_PATHS
  }

  ghost predicate NoFewer(before: Book, after: Book) {
    forall p :: FailuresIn(before, p) <= FailuresIn(after, p)
  }

  lemma {:induction false} SpareFalls(before: Book, after: Book, names: seq<string>)
    requires NoFewer(before, after)
    ensures SpareOn(after, names) <= SpareOn(before, names)
    ensures forall p ::
      p in names && FailuresIn(before, p) < MAX_FAILED_EPOCHS && FailuresIn(before, p) < FailuresIn(after, p) ==>
      SpareOn(after, names) < SpareOn(before, names)
  {
    if names != [] {
      SpareFalls(before, after, names[..|names| - 1]);
      assert names == names[..|names| - 1] + [names[|names| - 1]];
    }
  }

  lemma FailingCounts(failures: Book, paths: seq<string>)
    ensures NoFewer(failures, Counted(failures, paths, false))
    ensures forall p :: p in paths ==> FailuresIn(failures, p) < FailuresIn(Counted(failures, paths, false), p)
  {
    forall p ensures FailuresIn(Counted(failures, paths, false), p) == FailuresIn(failures, p) + multiset(paths)[p] {
      CountedExactly(failures, paths, false, p);
    }
  }

  lemma {:induction false} CountedKeys(failures: Book, paths: seq<string>, landed: bool)
    ensures Counted(failures, paths, landed).vals.Keys == failures.vals.Keys + Members(paths)
  {
    if paths != [] {
      CountedKeys(failures, paths[..|paths| - 1], landed);
      assert paths == paths[..|paths| - 1] + [paths[|paths| - 1]];
    }
  }

  lemma {:induction false} OpenedAreTargets(failures: Book, paths: seq<string>, landed: bool)
    ensures Members(Opened(failures, paths, landed)) <= Members(paths)
  {
    forall p | p in Members(Opened(failures, paths, landed)) ensures p in Members(paths) {
      OpenedExactly(failures, paths, landed, p);
    }
  }

  lemma RoomFor(keys: set<string>, more: set<string>, names: set<string>)
    requires more <= names && |keys + names| <= MAX_TRACKED_PATHS
    ensures |keys + more| <= MAX_TRACKED_PATHS && keys + more + names == keys + names
  {
    SubsetSize(keys + more, keys + names);
  }

  lemma CountsFit(failures: Book, paths: seq<string>, names: seq<string>)
    requires |failures.vals.Keys + Members(names)| <= MAX_TRACKED_PATHS && Members(paths) <= Members(names)
    ensures var counted := Counted(failures, paths, false);
      |counted.keys| <= MAX_TRACKED_PATHS && |counted.vals.Keys + Members(names)| <= MAX_TRACKED_PATHS
  {
    CountedKeys(failures, paths, false);
    KeyCount(Counted(failures, paths, false));
    RoomFor(failures.vals.Keys, Members(paths), Members(names));
  }

  lemma FitsInRoom(b: Attempts, paths: seq<string>, names: seq<string>)
    requires HasRoom(b, names) && Members(paths) <= Members(names)
    ensures Fits(b.ledger.latest, b.failures, paths, false)
  {
    OpenedAreTargets(b.failures, paths, false);
    RoomFor(b.ledger.latest.vals.Keys, Members(Opened(b.failures, paths, false)), Members(names));
    CountsFit(b.failures, paths, names);
  }

  lemma RoomStays(before: Ledger, after: Ledger, moved: seq<string>, names: seq<string>)
    requires |before.latest.vals.Keys + Members(names)| <= MAX_TRACKED_PATHS && Members(moved) <= Members(names)
    requires PathsMoved(before, moved, after)
    ensures |after.latest.vals.Keys + Members(names)| <= MAX_TRACKED_PATHS
  {
    SubsetSize(after.latest.vals.Keys + Members(names), before.latest.vals.Keys + Members(names));
  }

  /** If the attempt opens an epoch for any path, that path has one epoch fewer to spare. */
  lemma OpeningSpends(failures: Book, paths: seq<string>, names: seq<string>)
    requires Members(paths) <= Members(names)
    ensures var after := Counted(failures, paths, false);
      && NoFewer(failures, after) && SpareOn(after, names) <= SpareOn(failures, names)
      && (Opened(failures, paths, false) != [] ==> SpareOn(after, names) < SpareOn(failures, names))
  {
    var after, moved := Counted(failures, paths, false), Opened(failures, paths, false);
    FailingCounts(failures, paths);
    SpareFalls(failures, after, names);
    if moved != [] {
      OpenedExactly(failures, paths, false, moved[0]);
      assert moved[0] in Members(paths) && moved[0] in names;
    }
  }

  lemma EpochsMove(b: Attempts, after: Ledger, paths: seq<string>, names: seq<string>)
    requires HasRoom(b, names) && Members(paths) <= Members(names) && LedgerNoted(b, Paths(paths), false, after)
    ensures |after.latest.vals.Keys + Members(names)| <= MAX_TRACKED_PATHS
    ensures Opened(b.failures, paths, false) == [] ==> after == b.ledger
  {
    var moved := Opened(b.failures, paths, false);
    if moved != [] {
      OpenedAreTargets(b.failures, paths, false);
      RoomStays(b.ledger, after, moved, names);
    }
  }

  /** A failed attempt opens no epoch at all, or uses up part of the budget. */
  ghost predicate Spent(b: Attempts, after: Attempts, names: seq<string>) {
    && HasRoom(after, names) && NoFewer(b.failures, after.failures)
    && Budget(after, names) <= Budget(b, names)
    && (after.ledger == b.ledger || Budget(after, names) < Budget(b, names))
  }

  lemma CountsExactly(b: Attempts, after: Attempts, paths: seq<string>, names: seq<string>)
    requires HasRoom(b, names) && Members(paths) <= Members(names)
    requires FailuresNoted(b, Paths(paths), false, after.anyFailures, after.failures)
    ensures after.failures == Counted(b.failures, paths, false) && after.anyFailures == b.anyFailures
  {
    FitsInRoom(b, paths, names);
  }

  lemma FailedPaths(b: Attempts, after: Attempts, paths: seq<string>, names: seq<string>)
    requires HasRoom(b, names) && Members(paths) <= Members(names)
    requires LedgerNoted(b, Paths(paths), false, after.ledger)
    requires FailuresNoted(b, Paths(paths), false, after.anyFailures, after.failures)
    ensures Spent(b, after, names)
  {
    assert after.failures == Counted(b.failures, paths, false) && after.anyFailures == b.anyFailures by {
      CountsExactly(b, after, paths, names);
    }
    assert HasRoom(after, names) by {
      CountsFit(b.failures, paths, names);
      EpochsMove(b, after.ledger, paths, names);
    }
    OpeningSpends(b.failures, paths, names);
    assert Opened(b.failures, paths, false) == [] ==> after.ledger == b.ledger by {
      EpochsMove(b, after.ledger, paths, names);
    }
  }

  lemma FailedAttempt(b: Attempts, after: Attempts, targets: Targets, names: seq<string>)
    requires HasRoom(b, names) && Confined(targets, names)
    requires LedgerNoted(b, targets, false, after.ledger)
    requires FailuresNoted(b, targets, false, after.anyFailures, after.failures)
    ensures Spent(b, after, names)
  {
    match targets
    case Paths(paths) => FailedPaths(b, after, paths, names);
    case Nothing =>
    case Anything =>
  }

  /** An attempt on one path that fails opens an epoch exactly while the path has one to spare. */
  lemma FailedOnce(b: Attempts, after: Attempts, name: string, names: seq<string>)
    requires HasRoom(b, names) && name in names && LedgerNoted(b, Paths([name]), false, after.ledger)
    requires FailuresNoted(b, Paths([name]), false, after.anyFailures, after.failures)
    ensures FailuresIn(after.failures, name) == FailuresIn(b.failures, name) + 1
    ensures after.ledger == b.ledger <==> FailuresIn(b.failures, name) >= MAX_FAILED_EPOCHS
  {
    CountsExactly(b, after, [name], names);
    CountedExactly(b.failures, [name], false, name);
    assert multiset([name])[name] == 1;
    OpenedExactly(b.failures, [name], false, name);
    if FailuresIn(b.failures, name) >= MAX_FAILED_EPOCHS { NoneOpened(b.failures, name); }
  }

  lemma NoneOpened(failures: Book, name: string)
    requires FailuresIn(failures, name) >= MAX_FAILED_EPOCHS
    ensures Opened(failures, [name], false) == []
  {
    assert [name][..0] == [];
  }
}
