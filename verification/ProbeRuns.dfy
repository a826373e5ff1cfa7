/** The runs of a probing tool between other work: src/agent/progress/wandering-spread.ts. */
module ProbeRuns {
  import opened Wrappers
  import opened DistinctLists
  import opened LoopVerdicts
  import opened Sorting

  /** A model step, or a probe that knows of none and is a round of its own. */
  datatype Round = Solo(n: nat) | Step(step: nat)

  /** A completed call; a vetoed one never gets here. */
  datatype Completion = Completion(tool: string, args: string, ok: bool, round: Option<nat>)

  /** The run with a signature in it, keeping the round it was first made in. */
  function With(run: map<string, Round>, args: string, round: Round): map<string, Round> {
    if args in run then run else run[args := round]
  }

  /** Per tool the signatures of its run with their rounds, and what succeeded since the last read. */
  datatype Book = Book(runs: map<string, map<string, Round>>, progress: set<string>, nextSolo: nat) {
    function Run(tool: string): map<string, Round> {
      if tool in runs then runs[tool] else map[]
    }

    function RoundOf(c: Completion): Round {
      if c.round.Some? then Step(c.round.value) else Solo(nextSolo)
    }

    /** `record`. */
    function Recorded(c: Completion): Book {
      var done := if c.ok then progress + {c.tool} else progress;
      if ProbeFamily(c.tool).None? then this.(progress := done)
      else
        var run := Run(c.tool);
        Book(runs[c.tool := With(run, c.args, RoundOf(c))], done,
             if c.round.None? then nextSolo + 1 else nextSolo)
    }

    predicate Keeps(tool: string) {
      forall done :: done in progress ==> ProbeFamily(done) == ProbeFamily(tool)
    }

    /** `applyProgress`. */
    function Settled(): Book {
      Book(map tool | tool in runs && Keeps(tool) :: runs[tool], {}, nextSolo)
    }

    /** The gate asks about a probing tool only, and settles the runs as it does. */
    function AskedOf(tool: string): Book {
      if IsWanderingProneTool(tool) then Settled() else this
    }

    function SpreadOf(tool: string, args: string): nat {
      |Run(tool).Keys + {args}|
    }

    function RoundsOf(tool: string, args: string, round: Option<nat>): nat {
      var seen := Run(tool).Values;
      if args in Run(tool) || (round.Some? && Step(round.value) in seen) then |seen| else |seen| + 1
    }

    /** What the gate reads of a prospective call. */
    function Ladder(tool: string, args: string, round: Option<nat>): RunLadder {
      RunLadder(Settled().RoundsOf(tool, args, round), Settled().SpreadOf(tool, args))
    }
  }

  const EMPTY: Book := Book(map[], {}, 0)

  // ----- the order of a batch -----

  function RecordedAll(book: Book, batch: seq<Completion>): Book {
    if batch == [] then book else RecordedAll(book, batch[..|batch| - 1]).Recorded(batch[|batch| - 1])
  }

  predicate Joins(c: Completion, tool: string) { c.tool == tool && ProbeFamily(tool).Some? }

  lemma RunAfter(book: Book, c: Completion, tool: string)
    ensures book.Recorded(c).Run(tool) ==
      if Joins(c, tool) then With(book.Run(tool), c.args, book.RoundOf(c)) else book.Run(tool)
    ensures tool in book.Recorded(c).runs <==> tool in book.runs || Joins(c, tool)
  {
  }

  lemma AddsCommute(run: map<string, Round>, a: string, b: string, round: Round)
    ensures With(With(run, a, round), b, round) == With(With(run, b, round), a, round)
  {
  }

  lemma SameRuns(book: Book, other: Book)
    requires book.progress == other.progress && book.nextSolo == other.nextSolo
    requires forall tool :: tool in book.runs <==> tool in other.runs
    requires forall tool :: book.Run(tool) == other.Run(tool)
    ensures book == other
  {
    assert forall tool :: tool in book.runs ==> book.runs[tool] == book.Run(tool) == other.runs[tool];
    assert book.runs == other.runs;
  }

  lemma RunsCommute(book: Book, a: Completion, b: Completion, tool: string)
    requires a.round == b.round && a.round.Some?
    ensures book.Recorded(a).Recorded(b).Run(tool) == book.Recorded(b).Recorded(a).Run(tool)
    ensures tool in book.Recorded(a).Recorded(b).runs <==> tool in book.Recorded(b).Recorded(a).runs
  {
    RunAfter(book, a, tool);
    RunAfter(book, b, tool);
    RunAfter(book.Recorded(a), b, tool);
    RunAfter(book.Recorded(b), a, tool);
    AddsCommute(book.Run(tool), a.args, b.args, Step(a.round.value));
  }

  lemma RecordsCommute(book: Book, a: Completion, b: Completion)
    requires a.round == b.round && a.round.Some?
    ensures book.Recorded(a).Recorded(b) == book.Recorded(b).Recorded(a)
  {
    var ab, ba := book.Recorded(a).Recorded(b), book.Recorded(b).Recorded(a);
    forall tool ensures ab.Run(tool) == ba.Run(tool) && (tool in ab.runs <==> tool in ba.runs) {
      RunsCommute(book, a, b, tool);
    }
    SameRuns(ab, ba);
  }

  ghost predicate OneStep(batch: seq<Completion>, step: nat) {
    forall i :: 0 <= i < |batch| ==> batch[i].round == Some(step)
  }

  lemma {:induction false} MoveToEnd(book: Book, batch: seq<Completion>, i: nat, step: nat)
    requires i < |batch| && OneStep(batch, step)
    ensures RecordedAll(book, batch) == RecordedAll(book, batch[..i] + batch[i + 1..]).Recorded(batch[i])
  {
    var n := |batch| - 1;
    var rest := batch[..i] + batch[i + 1..];
    if i < n {
      var front := batch[..n];
      MoveToEnd(book, front, i, step);
      assert rest[..|rest| - 1] == front[..i] + front[i + 1..] && rest[|rest| - 1] == batch[n];
      RecordsCommute(RecordedAll(book, rest[..|rest| - 1]), batch[i], batch[n]);
    } else {
      assert rest == batch[..n];
    }
  }

  /** The outcomes of one step leave the same runs in whatever order they come home. */
  lemma {:induction false} BatchOrderIrrelevant(book: Book, batch: seq<Completion>, again: seq<Completion>, step: nat)
    requires OneStep(batch, step) && multiset(batch) == multiset(again)
    ensures RecordedAll(book, batch) == RecordedAll(book, again)
  {
    SameMembers(batch, again);
    if batch != [] {
      var n := |batch| - 1;
      assert batch[n] in again;
      var i: nat :| i < |again| && again[i] == batch[n];
      forall k | 0 <= k < |again| ensures again[k].round == Some(step) { assert again[k] in batch; }
      MoveToEnd(book, again, i, step);
      TakeOut(again, i);
      TakeLast(batch);
      BatchOrderIrrelevant(book, batch[..n], again[..i] + again[i + 1..], step);
    }
  }

  // ----- rounds and signatures -----

  lemma {:induction false} FewerValues(run: map<string, Round>)
    ensures |run.Values| <= |run.Keys|
    decreases |run.Keys|
  {
    if run.Keys != {} {
      var k :| k in run.Keys;
      var rest := run - {k};
      assert rest.Keys == run.Keys - {k};
      FewerValues(rest);
      forall v | v in run.Values ensures v in rest.Values + {run[k]} {
        var k' :| k' in run.Keys && run[k'] == v;
        assert k' != k ==> k' in rest.Keys && rest[k'] == v;
      }
      SubsetSize(run.Values, rest.Values + {run[k]});
    } else {
      assert run == map[];
      assert run.Values == {};
    }
  }

  /** A run never spans more rounds than it has signatures. */
  lemma RoundsAtMostSpread(book: Book, tool: string, args: string, round: Option<nat>)
    ensures book.Ladder(tool, args, round).rounds <= book.Ladder(tool, args, round).spread
    ensures book.Ladder(tool, args, round).spread >= 1
  {
    var run := book.Settled().Run(tool);
    FewerValues(run);
    if args in run { assert run.Keys + {args} == run.Keys; }
    SubsetSize({args}, run.Keys + {args});
    SubsetSize(run.Keys, run.Keys + {args});
  }

  // ----- what a run is -----

  /** What happens to the bookkeeping: a call completes, or a gate reads it. */
  datatype Happening = Done(call: Completion) | Asked

  function After(trace: seq<Happening>): Book {
    if trace == [] then EMPTY
    else
      var before := After(trace[..|trace| - 1]);
      match trace[|trace| - 1]
      case Done(c) => before.Recorded(c)
      case Asked => before.Settled()
  }

  /** No gate has read between k and the end. */
  ghost predicate SinceAsked(trace: seq<Happening>, k: nat) {
    k < |trace| && forall m :: k < m < |trace| ==> !trace[m].Asked?
  }

  /** A call of another family succeeded since the gate last read. */
  ghost predicate OtherWork(trace: seq<Happening>, tool: string) {
    exists k: nat :: SinceAsked(trace, k) && trace[k].Done? && trace[k].call.ok
                     && ProbeFamily(trace[k].call.tool) != ProbeFamily(tool)
  }

  /** The gate read at j, and found that other work had been done since it read before. */
  ghost predicate SettlesAt(trace: seq<Happening>, tool: string, j: nat) {
    j < |trace| && trace[j].Asked? && OtherWork(trace[..j], tool)
  }

  /** A completion of the tool at i that no later read has settled. */
  ghost predicate InRun(trace: seq<Happening>, tool: string, args: string, i: nat) {
    && i < |trace| && trace[i].Done? && trace[i].call.tool == tool && trace[i].call.args == args
    && forall j: nat :: i < j ==> !SettlesAt(trace, tool, j)
  }

  lemma SinceStep(trace: seq<Happening>, k: nat)
    requires trace != []
    ensures SinceAsked(trace, k) <==>
      k == |trace| - 1 || (!trace[|trace| - 1].Asked? && SinceAsked(trace[..|trace| - 1], k))
  {
  }

  /** Some call of the tool succeeded since the gate last read. */
  ghost predicate Succeeded(trace: seq<Happening>, tool: string) {
    exists k: nat :: SinceAsked(trace, k) && trace[k].Done? && trace[k].call.ok && trace[k].call.tool == tool
  }

  lemma SucceededStep(trace: seq<Happening>, tool: string)
    requires trace != []
    ensures var last := trace[|trace| - 1];
      Succeeded(trace, tool) <==>
        (last.Done? && ((last.call.ok && last.call.tool == tool) || Succeeded(trace[..|trace| - 1], tool)))
  {
    var n, before := |trace| - 1, trace[..|trace| - 1];
    forall k: nat ensures SinceAsked(trace, k) <==> k == n || (!trace[n].Asked? && SinceAsked(before, k)) {
      SinceStep(trace, k);
    }
    if trace[n].Done? && Succeeded(before, tool) {
      var k: nat :| SinceAsked(before, k) && before[k].Done? && before[k].call.ok && before[k].call.tool == tool;
      assert SinceAsked(trace, k) && trace[k] == before[k];
    }
    if trace[n].Done? && trace[n].call.ok && trace[n].call.tool == tool { assert SinceAsked(trace, n); }
  }

  lemma {:induction false} ProgressExactly(trace: seq<Happening>, tool: string)
    ensures tool in After(trace).progress <==> Succeeded(trace, tool)
  {
    if trace != [] {
      ProgressExactly(trace[..|trace| - 1], tool);
      SucceededStep(trace, tool);
    }
  }

  lemma KeepsExactly(trace: seq<Happening>, tool: string)
    ensures After(trace).Keeps(tool) <==> !OtherWork(trace, tool)
  {
    forall done ensures done in After(trace).progress <==> Succeeded(trace, done) { ProgressExactly(trace, done); }
    if OtherWork(trace, tool) {
      var k: nat :| SinceAsked(trace, k) && trace[k].Done? && trace[k].call.ok
        && ProbeFamily(trace[k].call.tool) != ProbeFamily(tool);
      assert Succeeded(trace, trace[k].call.tool);
    }
  }

  lemma SettlesBefore(trace: seq<Happening>, tool: string, j: nat)
    requires j < |trace| - 1
    ensures SettlesAt(trace, tool, j) <==> SettlesAt(trace[..|trace| - 1], tool, j)
  {
    assert trace[..|trace| - 1][..j] == trace[..j];
  }

  lemma InRunStep(trace: seq<Happening>, tool: string, args: string, i: nat)
    requires trace != []
    ensures var n := |trace| - 1;
      InRun(trace, tool, args, i) <==>
        ((i == n && trace[n].Done? && trace[n].call.tool == tool && trace[n].call.args == args)
         || (InRun(trace[..n], tool, args, i) && !SettlesAt(trace, tool, n)))
  {
    var n := |trace| - 1;
    forall j: nat | j < n ensures SettlesAt(trace, tool, j) <==> SettlesAt(trace[..n], tool, j) {
      SettlesBefore(trace, tool, j);
    }
  }

  /**
   * The run of a probing tool holds exactly the signatures that completed since it was last settled: since a
   * gate read and found that a call of another family had succeeded after the read before.
   */
  lemma {:induction false} RunExactly(trace: seq<Happening>, tool: string, args: string)
    requires ProbeFamily(tool).Some?
    ensures args in After(trace).Run(tool) <==> exists i: nat :: InRun(trace, tool, args, i)
  {
    if trace != [] {
      var n, before := |trace| - 1, trace[..|trace| - 1];
      RunExactly(before, tool, args);
      KeepsExactly(before, tool);
      forall i: nat
        ensures InRun(trace, tool, args, i) <==>
          ((i == n && trace[n].Done? && trace[n].call.tool == tool && trace[n].call.args == args)
           || (InRun(before, tool, args, i) && !SettlesAt(trace, tool, n)))
      {
        InRunStep(trace, tool, args, i);
      }
      RunStep(trace, tool, args);
      if args in After(trace).Run(tool) {
        if trace[n].Done? && trace[n].call.tool == tool && trace[n].call.args == args {
          assert InRun(trace, tool, args, n);
        } else {
          var i: nat :| InRun(before, tool, args, i);
          assert InRun(trace, tool, args, i);
        }
      }
    }
  }

  lemma RunStep(trace: seq<Happening>, tool: string, args: string)
    requires trace != [] && ProbeFamily(tool).Some?
    ensures var n := |trace| - 1; var before := After(trace[..n]);
      args in After(trace).Run(tool) <==>
        if trace[n].Asked? then args in before.Run(tool) && before.Keeps(tool)
        else args in before.Run(tool) || (trace[n].call.tool == tool && trace[n].call.args == args)
  {
    if trace[|trace| - 1].Done? { RunAfter(After(trace[..|trace| - 1]), trace[|trace| - 1].call, tool); }
  }

  // ----- the bookkeeping itself -----

  class ProbeRuns {
    var runs: map<string, map<string, Round>>
    var nextSoloRound: nat
    var progress: set<string>
    /** Every completion and every read since the turn began. */
    ghost var trace: seq<Happening>

    ghost predicate Valid()
      reads this
    {
      State() == After(trace)
    }

    function State(): Book
      reads this
    {
      Book(runs, progress, nextSoloRound)
    }

    constructor ()
      ensures Valid() && trace == []
    {
      runs, nextSoloRound, progress, trace := map[], 0, {}, [];
    }

    method Record(c: Completion)
      requires Valid()
      modifies this
      ensures Valid() && trace == old(trace) + [Done(c)]
      ensures State() == old(State()).Recorded(c)
    {
      assert (trace + [Done(c)])[..|trace|] == trace;
      trace := trace + [Done(c)];
      if c.ok { progress := progress + {c.tool}; }
      if ProbeFamily(c.tool).None? { return; }
      var round := Solo(nextSoloRound);
      if c.round.Some? { round := Step(c.round.value); } else { nextSoloRound := nextSoloRound + 1; }
      if c.tool !in runs {
        runs := runs[c.tool := map[c.args := round]];
      } else if c.args !in runs[c.tool] {
        runs := runs[c.tool := runs[c.tool][c.args := round]];
      }
    }

    /** Whether something outside the tool's family has succeeded since the last read. */
    method IsSettled(tool: string) returns (settled: bool)
      ensures settled <==> !State().Keeps(tool)
    {
      var rest := progress;
      while rest != {}
        invariant rest <= progress
        invariant forall done :: done in progress && done !in rest ==> ProbeFamily(done) == ProbeFamily(tool)
        decreases rest
      {
        var done :| done in rest;
        if ProbeFamily(done) != ProbeFamily(tool) { return true; }
        rest := rest - {done};
      }
      settled := false;
    }

    method ApplyProgress()
      requires Valid()
      modifies this
      ensures Valid() && trace == old(trace) + [Asked]
      ensures State() == old(State()).Settled()
    {
      assert (trace + [Asked])[..|trace|] == trace;
      trace := trace + [Asked];
      if progress == {} { return; }
      ghost var before := State();
      var rest := runs.Keys;
      while rest != {}
        invariant progress == before.progress && nextSoloRound == before.nextSolo && trace == old(trace) + [Asked]
        invariant rest <= before.runs.Keys
        invariant runs == map tool | tool in before.runs && (tool in rest || before.Keeps(tool)) :: before.runs[tool]
        decreases rest
      {
        var probe :| probe in rest;
        var settled := IsSettled(probe);
        assert State().Keeps(probe) == before.Keeps(probe);
        if settled { runs := runs - {probe}; }
        rest := rest - {probe};
      }
      progress := {};
    }

    method Spread(tool: string, args: string) returns (spread: nat)
      requires Valid()
      modifies this
      ensures Valid() && trace == old(trace) + [Asked] && State() == old(State()).Settled()
      ensures spread == State().SpreadOf(tool, args)
    {
      ApplyProgress();
      if tool !in runs { return 1; }
      var run := runs[tool];
      assert args in run ==> run.Keys + {args} == run.Keys;
      spread := if args in run then |run.Keys| else |run.Keys| + 1;
    }

    method Rounds(tool: string, args: string, round: Option<nat>) returns (rounds: nat)
      requires Valid()
      modifies this
      ensures Valid() && trace == old(trace) + [Asked] && State() == old(State()).Settled()
      ensures rounds == State().RoundsOf(tool, args, round)
    {
      ApplyProgress();
      if tool !in runs { return 1; }
      var seen := runs[tool].Values;
      if args in runs[tool] { return |seen|; }
      if round.Some? && Step(round.value) in seen { return |seen|; }
      rounds := |seen| + 1;
    }
  }

  lemma SettledTwice(book: Book)
    ensures book.Settled().Settled() == book.Settled()
  {
    assert book.Settled().Settled().runs == book.Settled().runs;
  }
}
