/** What the counts read off the window mean, entry by entry: src/agent/loop-detector.ts:815-860. */
module LoopCounts {
  import opened Wrappers
  import opened LoopHistory

  /** Where the call has come back with something, in this epoch, from an index on. */
  ghost function Answers(history: seq<Entry>, key: Key, from: nat): set<int> {
    set i | from <= i < |history| && history[i].call == key.call && history[i].epoch == key.epoch
            && history[i].result.Some? && history[i].result.value != ""
  }

  lemma AnswersAppend(front: seq<Entry>, e: Entry, key: Key, from: nat)
    requires from <= |front|
    ensures var counted := Matches(e, key) && Completed(e);
      && Answers(front + [e], key, from) == Answers(front, key, from) + (if counted then {|front|} else {})
      && |Answers(front + [e], key, from)| == |Answers(front, key, from)| + (if counted then 1 else 0)
      && Results((front + [e])[from..], key) ==
           Results(front[from..], key) + if counted then [e.result.value] else []
  {
    assert (front + [e])[from..] == front[from..] + [e];
    assert (front[from..] + [e])[..|front[from..]|] == front[from..];
  }

  lemma {:induction false} AnswersCount(history: seq<Entry>, key: Key, from: nat)
    requires from <= |history|
    ensures |Results(history[from..], key)| == |Answers(history, key, from)|
  {
    if from == |history| {
      assert Answers(history, key, from) == {};
    } else {
      var n := |history| - 1;
      AnswersCount(history[..n], key, from);
      assert history == history[..n] + [history[n]];
      AnswersAppend(history[..n], history[n], key, from);
    }
  }

  lemma {:induction false} AnswersHold(history: seq<Entry>, key: Key, from: nat, x: string)
    requires from <= |history|
    ensures x in Results(history[from..], key) <==>
      exists i :: i in Answers(history, key, from) && history[i].result == Some(x)
  {
    if from < |history| {
      var n := |history| - 1;
      AnswersHold(history[..n], key, from, x);
      assert history == history[..n] + [history[n]];
      AnswersAppend(history[..n], history[n], key, from);
      forall i | i in Answers(history[..n], key, from) ensures history[..n][i] == history[i] {}
    }
  }

  /** The streak in terms of the window: from an index on all results agree exactly if they are no more than it. */
  lemma StreakExactly(history: seq<Entry>, key: Key, from: nat)
    requires from <= |history|
    ensures |Answers(history, key, from)| <= Streak(history, key) <==>
      forall i, j :: i in Answers(history, key, from) && j in Answers(history, key, from) ==>
        history[i].result == history[j].result
  {
    AnswersCount(history, key, from);
    assert history == history[..from] + history[from..];
    ResultsConcat(history[..from], history[from..], key);
    var tail := Results(history[from..], key);
    SuffixAlike(Results(history[..from], key), tail);
    forall x ensures x in tail <==> exists i :: i in Answers(history, key, from) && history[i].result == Some(x) {
      AnswersHold(history, key, from, x);
    }
    AllAlike(history, Answers(history, key, from), tail);
  }

  lemma SuffixAlike(before: seq<string>, tail: seq<string>)
    ensures |tail| <= TailRun(before + tail) <==>
      forall i, j :: 0 <= i < |tail| && 0 <= j < |tail| ==> tail[i] == tail[j]
  {
    var all := before + tail;
    TailRunIsLongest(all, |tail|);
    if ConstantSuffix(all, |tail|) {
      forall i, j | 0 <= i < |tail| && 0 <= j < |tail| ensures tail[i] == tail[j] {
        assert all[|before| + i] == all[|before| + j];
      }
    }
  }

  lemma AllAlike(history: seq<Entry>, answers: set<int>, tail: seq<string>)
    requires forall i :: i in answers ==> 0 <= i < |history| && history[i].result.Some?
    requires forall x :: x in tail <==> exists i :: i in answers && history[i].result == Some(x)
    ensures (forall i, j :: 0 <= i < |tail| && 0 <= j < |tail| ==> tail[i] == tail[j]) <==>
      forall i, j :: i in answers && j in answers ==> history[i].result == history[j].result
  {
    forall i | i in answers ensures history[i].result.value in tail {}
    forall i | 0 <= i < |tail| ensures exists j :: j in answers && history[j].result == Some(tail[i]) {
      assert tail[i] in tail;
    }
  }

  lemma {:induction false} RepeatsExactly(history: seq<Entry>, key: Key)
    ensures Repeats(history, key) ==
      |set i | 0 <= i < |history| && history[i].call == key.call && history[i].epoch == key.epoch|
  {
    var all := set i | 0 <= i < |history| && history[i].call == key.call && history[i].epoch == key.epoch;
    if history != [] {
      var n := |history| - 1;
      RepeatsExactly(history[..n], key);
      var before := set i | 0 <= i < n && history[..n][i].call == key.call && history[..n][i].epoch == key.epoch;
      assert all == before + if Matches(history[n], key) then {n} else {};
    }
  }
}
