/** The tracker's bounded call window and the counts read off it: src/agent/loop-detector.ts. */
module LoopHistory {
  import opened Wrappers

  /** A tool call as the tracker sees it. Hashes are injective, so arguments stand for their hash. */
  datatype Call = Call(tool: string, args: string)

  /** What an entry is compared by: the call and, for reads, the mutation epoch it was made in. */
  datatype Key = Key(call: Call, epoch: Option<nat>)

  /** One window entry. `result` is the semantic result hash, `None` while pending or when vetoed. */
  datatype Entry = Entry(call: Call, epoch: Option<nat>, round: Option<nat>, result: Option<string>, vetoed: bool)

  predicate Completed(e: Entry) { e.result.Some? && e.result.value != "" }

  predicate Pending(e: Entry, call: Call) { e.call == call && e.result.None? && !e.vetoed }

  predicate Matches(e: Entry, key: Key) { e.call == key.call && e.epoch == key.epoch }

  // ----- the no-progress streak -----

  /** The completed results of one key, oldest first. */
  function Results(history: seq<Entry>, key: Key): seq<string> {
    if history == [] then []
    else
      var e := history[|history| - 1];
      Results(history[..|history| - 1], key) + if Matches(e, key) && Completed(e) then [e.result.value] else []
  }

  ghost predicate ConstantSuffix(s: seq<string>, k: nat) {
    k <= |s| && forall i, j :: |s| - k <= i < |s| && |s| - k <= j < |s| ==> s[i] == s[j]
  }

  function TailRun(s: seq<string>): (k: nat)
    ensures k <= |s| && (s != [] ==> k >= 1)
  {
    if |s| <= 1 then |s|
    else if s[|s| - 1] == s[|s| - 2] then TailRun(s[..|s| - 1]) + 1
    else 1
  }

  function Streak(history: seq<Entry>, key: Key): nat {
    TailRun(Results(history, key))
  }

  /** `TailRun` is the longest constant suffix: the constant suffixes are exactly the shorter ones. */
  lemma {:induction false} TailRunIsLongest(s: seq<string>, k: nat)
    ensures ConstantSuffix(s, k) <==> k <= TailRun(s)
  {
    if |s| >= 2 && k >= 2 {
      var front := s[..|s| - 1];
      TailRunIsLongest(front, k - 1);
      if ConstantSuffix(s, k) {
        assert s[|s| - 1] == s[|s| - 2];
        forall i, j | |front| - (k - 1) <= i < |front| && |front| - (k - 1) <= j < |front|
          ensures front[i] == front[j]
        {
          assert s[i] == s[j];
        }
      }
      if k <= TailRun(s) {
        forall i | |s| - k <= i < |s| ensures s[i] == s[|s| - 1] {
          if i < |s| - 1 { assert front[i] == front[|front| - 1]; }
        }
      }
    }
  }

  /** Dropping old results caps the run at what is left; it never raises it. */
  lemma {:induction false} TailRunDrop(s: seq<string>, d: nat)
    requires d <= |s|
    ensures TailRun(s[d..]) == if TailRun(s) <= |s| - d then TailRun(s) else |s| - d
  {
    if |s| - d >= 2 {
      TailRunDrop(s[..|s| - 1], d);
      assert s[d..][..|s| - d - 1] == s[..|s| - 1][d..];
    }
  }

  lemma {:induction false} ResultsConcat(a: seq<Entry>, b: seq<Entry>, key: Key)
    ensures Results(a + b, key) == Results(a, key) + Results(b, key)
  {
    if b == [] {
      assert a + b == a;
    } else {
      var front, e := b[..|b| - 1], b[|b| - 1];
      ResultsConcat(a, front, key);
      ResultsAppend(a + front, e, key);
      ResultsAppend(front, e, key);
      assert a + b == (a + front) + [e] && b == front + [e];
    }
  }

  lemma ResultsAppend(history: seq<Entry>, e: Entry, key: Key)
    ensures Results(history + [e], key) ==
      Results(history, key) + if Matches(e, key) && Completed(e) then [e.result.value] else []
  {
    assert (history + [e])[..|history|] == history;
  }

  lemma DroppingNeverRaises(history: seq<Entry>, d: nat, key: Key)
    requires d <= |history|
    ensures Streak(history[d..], key) <= Streak(history, key)
  {
    assert history == history[..d] + history[d..];
    ResultsConcat(history[..d], history[d..], key);
    var all := Results(history, key);
    assert all[|Results(history[..d], key)|..] == Results(history[d..], key);
    TailRunDrop(all, |Results(history[..d], key)|);
  }

  lemma TailRunAppend(s: seq<string>, x: string)
    ensures TailRun(s + [x]) <= TailRun(s) + 1
  {
    assert (s + [x])[..|s|] == s;
  }

  lemma {:induction false} TailRunOfSuffix(s: seq<string>, t: seq<string>, r: string)
    requires forall i :: 0 <= i < |t| ==> t[i] == r
    ensures TailRun(s + t) >= |t|
  {
    var u := s + t;
    assert ConstantSuffix(u, |t|);
    TailRunIsLongest(u, |t|);
  }

  /** `getNoProgressStreak`: the backward scan finds the longest constant suffix of the key's results. */
  method GetNoProgressStreak(history: seq<Entry>, key: Key) returns (count: nat, latest: Option<string>)
    ensures count == Streak(history, key)
    ensures latest ==
      if Results(history, key) == [] then None else Some(Results(history, key)[|Results(history, key)| - 1])
  {
    count, latest := 0, None;
    var i := |history| - 1;
    ghost var tail: seq<string> := [];
    assert history[|history|..] == [];
    while i >= 0
      invariant -1 <= i < |history|
      invariant tail == Results(history[i + 1..], key)
      invariant count == |tail|
      invariant latest == if tail == [] then None else Some(tail[|tail| - 1])
      invariant forall k :: 0 <= k < |tail| ==> Some(tail[k]) == latest
    {
      var record := history[i];
      assert history[i..] == [record] + history[i + 1..];
      ResultsConcat([record], history[i + 1..], key);
      assert [record][..0] == [];
      var counted := Matches(record, key) && Completed(record);
      assert Results([record], key) == if counted then [record.result.value] else [];
      if counted {
        if latest.None? {
          latest, count := record.result, 1;
        } else if record.result != latest {
          ScanBroken(history, key, i, tail);
          return;
        } else {
          count := count + 1;
        }
        tail := [record.result.value] + tail;
      }
      i := i - 1;
    }
    assert history[0..] == history;
    WholeRun(tail);
  }

  lemma ScanBroken(history: seq<Entry>, key: Key, i: nat, tail: seq<string>)
    requires i < |history| && history[i].result.Some? && tail != [] && history[i].result.value != tail[|tail| - 1]
    requires Results(history[i..], key) == [history[i].result.value] + tail
    requires forall k :: 0 <= k < |tail| ==> tail[k] == tail[|tail| - 1]
    ensures Streak(history, key) == |tail| && Results(history, key) != []
    ensures Results(history, key)[|Results(history, key)| - 1] == tail[|tail| - 1]
  {
    assert history == history[..i] + history[i..];
    ResultsConcat(history[..i], history[i..], key);
    BrokenRun(Results(history[..i], key) + [history[i].result.value], tail);
    assert Results(history, key) == Results(history[..i], key) + [history[i].result.value] + tail;
  }

  lemma BrokenRun(s: seq<string>, t: seq<string>)
    requires s != [] && t != [] && s[|s| - 1] != t[|t| - 1]
    requires forall k :: 0 <= k < |t| ==> t[k] == t[|t| - 1]
    ensures TailRun(s + t) == |t|
  {
    TailRunOfSuffix(s, t, t[|t| - 1]);
    TailRunIsLongest(s + t, |t| + 1);
    assert (s + t)[|s| - 1] != (s + t)[|s + t| - 1];
  }

  lemma WholeRun(t: seq<string>)
    requires forall k :: 0 <= k < |t| ==> t[k] == t[|t| - 1]
    ensures TailRun(t) == |t|
  {
    TailRunIsLongest(t, |t|);
  }

  // ----- repeats and spread -----

  /** Every entry of one key in the window, whatever became of it. */
  function Repeats(history: seq<Entry>, key: Key): nat {
    if history == [] then 0
    else Repeats(history[..|history| - 1], key) + if Matches(history[|history| - 1], key) then 1 else 0
  }

  method GetRepeatCount(history: seq<Entry>, key: Key) returns (count: nat)
    ensures count == Repeats(history, key)
  {
    count := 0;
    for i := 0 to |history|
      invariant count == Repeats(history[..i], key)
    {
      assert history[..i + 1][..i] == history[..i];
      if Matches(history[i], key) { count := count + 1; }
    }
    assert history[..|history|] == history;
  }

  /** The distinct completed arguments of a tool, leaving out the round under way. */
  ghost function Seen(history: seq<Entry>, tool: string, round: Option<nat>): set<string> {
    set i | 0 <= i < |history| && history[i].call.tool == tool && Completed(history[i])
            && (round.None? || history[i].round != round) :: history[i].call.args
  }

  /** Distinct signatures once the prospective call joins them. */
  ghost function Spread(history: seq<Entry>, call: Call, round: Option<nat>): nat {
    |Seen(history, call.tool, round) + {call.args}|
  }

  method EffectiveSpread(history: seq<Entry>, call: Call, round: Option<nat>) returns (spread: nat)
    ensures spread == Spread(history, call, round)
  {
    var seen: set<string> := {};
    for i := 0 to |history|
      invariant seen == Seen(history[..i], call.tool, round)
    {
      var record := history[i];
      SeenAppend(history[..i], record, call.tool, round);
      assert history[..i + 1] == history[..i] + [record];
      if record.call.tool != call.tool { continue; }
      if !Completed(record) { continue; }
      if round.Some? && record.round == round { continue; }
      seen := seen + {record.call.args};
    }
    assert history[..|history|] == history;
    assert call.args in seen ==> seen + {call.args} == seen;
    spread := if call.args in seen then |seen| else |seen| + 1;
  }

  lemma SeenAppend(history: seq<Entry>, e: Entry, tool: string, round: Option<nat>)
    ensures Seen(history + [e], tool, round) == Seen(history, tool, round) +
      if e.call.tool == tool && Completed(e) && (round.None? || e.round != round) then {e.call.args} else {}
  {
    var h := history + [e];
    var added := if e.call.tool == tool && Completed(e) && (round.None? || e.round != round) then {e.call.args} else {};
    forall x ensures x in Seen(h, tool, round) <==> x in Seen(history, tool, round) + added {
      if x in Seen(history, tool, round) {
        var i :| 0 <= i < |history| && history[i].call.tool == tool && Completed(history[i])
          && (round.None? || history[i].round != round) && history[i].call.args == x;
        assert h[i] == history[i];
      }
      assert h[|history|] == e;
    }
  }

  lemma SeenDrop(history: seq<Entry>, d: nat, tool: string, round: Option<nat>)
    requires d <= |history|
    ensures Seen(history[d..], tool, round) <= Seen(history, tool, round)
  {
    var h := history[d..];
    forall x | x in Seen(h, tool, round) ensures x in Seen(history, tool, round) {
      var i :| 0 <= i < |h| && h[i].call.tool == tool && Completed(h[i])
        && (round.None? || h[i].round != round) && h[i].call.args == x;
      assert history[d + i] == h[i];
    }
  }

  lemma {:induction false} PresentIsCounted(history: seq<Entry>, key: Key, i: nat)
    requires i < |history| && Matches(history[i], key)
    ensures Repeats(history, key) >= 1
  {
    if i < |history| - 1 { PresentIsCounted(history[..|history| - 1], key, i); }
  }

  lemma {:induction false} AbsentMeansNone(history: seq<Entry>, key: Key)
    requires forall e :: e in history ==> e.call != key.call
    ensures Repeats(history, key) == 0 && Results(history, key) == []
  {
    if history != [] {
      assert history == history[..|history| - 1] + [history[|history| - 1]];
      AbsentMeansNone(history[..|history| - 1], key);
    }
  }

  // ----- writing the window -----

  /** `trimHistory`. */
  function Trim(history: seq<Entry>, size: nat): (r: seq<Entry>)
    ensures |r| == if |history| > size then size else |history|
  {
    if |history| > size then history[|history| - size..] else history
  }

  function PendingIndex(history: seq<Entry>, call: Call): (i: int)
    ensures -1 <= i < |history|
    ensures i >= 0 ==> Pending(history[i], call)
    ensures forall k :: i < k < |history| ==> !Pending(history[k], call)
  {
    if history == [] then -1
    else if Pending(history[|history| - 1], call) then |history| - 1
    else PendingIndex(history[..|history| - 1], call)
  }

  /** What a recorded outcome writes into its entry. */
  datatype Patch = Finished(result: string) | Vetoed

  function Patched(e: Entry, patch: Patch): Entry {
    match patch
    case Finished(r) => e.(result := Some(r))
    case Vetoed => e.(vetoed := true)
  }

  /** The window after `recordCall`. */
  function AfterCall(history: seq<Entry>, call: Call, epoch: Option<nat>, round: Option<nat>, size: nat): seq<Entry> {
    Trim(history + [Entry(call, epoch, round, None, false)], size)
  }

  /** The window after `patchLatestPending`: the latest pending entry, or a finished one appended. */
  function AfterOutcome(history: seq<Entry>, call: Call, epoch: Option<nat>, round: Option<nat>, patch: Patch,
                        size: nat)
    : seq<Entry>
  {
    var i := PendingIndex(history, call);
    if i >= 0 then history[i := Patched(history[i], patch)]
    else Trim(history + [Patched(Entry(call, epoch, round, None, false), patch)], size)
  }

  /** A call recorded and then answered lands as one finished entry at the end of the window. */
  lemma CallThenOutcome(history: seq<Entry>, call: Call, epoch: Option<nat>, round: Option<nat>,
                        late: Option<nat>, patch: Patch, size: nat)
    requires size >= 1
    ensures AfterOutcome(AfterCall(history, call, epoch, round, size), call, late, round, patch, size)
         == Trim(history + [Patched(Entry(call, epoch, round, None, false), patch)], size)
  {
    var open := AfterCall(history, call, epoch, round, size);
    assert open[|open| - 1] == Entry(call, epoch, round, None, false);
    assert PendingIndex(open, call) == |open| - 1;
  }
}
