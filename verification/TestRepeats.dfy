/** Re-runs of a test command on an unchanged workspace: src/agent/loop-detector.ts:505-549, 634-652. */
module TestRepeats {
  import opened Wrappers
  import opened LoopHistory

  /** A recognised test command: its key, and the fingerprint of the workspace as it is dispatched. */
  datatype TestCommand = TestCommand(key: string, fingerprint: string)

  datatype TestRun = TestRun(fingerprint: string, count: nat, lastSummary: Option<string>)

  /** Per key its latest run, and per call on its way the key it was dispatched for. */
  datatype TestBook = TestBook(runs: map<string, TestRun>, pending: map<Call, string>)

  const NO_TESTS := TestBook(map[], map[])

  /** `TestRepeatCheck`. */
  datatype TestRepeat = TestRepeat(repeat: bool, count: nat, previous: Option<string>)

  datatype TestEvent = Dispatched(call: Call, test: TestCommand) | Landed(call: Call, veto: bool, summary: string)

  predicate Unchanged(runs: map<string, TestRun>, test: TestCommand) {
    test.key in runs && runs[test.key].fingerprint == test.fingerprint
  }

  /** `checkTestRepeat`. */
  function Checked(runs: map<string, TestRun>, test: TestCommand): TestRepeat {
    if Unchanged(runs, test) then TestRepeat(true, runs[test.key].count + 1, runs[test.key].lastSummary)
    else TestRepeat(false, 1, None)
  }

  /** `recordTestRun`. */
  function RunRecorded(b: TestBook, call: Call, test: TestCommand): TestBook {
    var run := if Unchanged(b.runs, test) then b.runs[test.key].(count := b.runs[test.key].count + 1)
               else TestRun(test.fingerprint, 1, None);
    TestBook(b.runs[test.key := run], b.pending[call := test.key])
  }

  /** `noteTestOutcome`. */
  function OutcomeNoted(b: TestBook, call: Call, veto: bool, summary: string): TestBook {
    if call !in b.pending then b
    else
      var key, rest := b.pending[call], b.pending - {call};
      if veto || key !in b.runs then b.(pending := rest)
      else TestBook(b.runs[key := b.runs[key].(lastSummary := Some(summary))], rest)
  }

  function Noted(b: TestBook, e: TestEvent): TestBook {
    match e
    case Dispatched(call, test) => RunRecorded(b, call, test)
    case Landed(call, veto, summary) => OutcomeNoted(b, call, veto, summary)
  }

  function AfterTests(trace: seq<TestEvent>): TestBook {
    if trace == [] then NO_TESTS else Noted(AfterTests(trace[..|trace| - 1]), trace[|trace| - 1])
  }

  lemma TestStep(trace: seq<TestEvent>, e: TestEvent)
    ensures AfterTests(trace + [e]) == Noted(AfterTests(trace), e)
  {
    assert (trace + [e])[..|trace|] == trace;
  }

  // ----- the count -----

  /** The fingerprints a key was dispatched at, oldest first. */
  function Prints(trace: seq<TestEvent>, key: string): seq<string> {
    if trace == [] then []
    else
      var e := trace[|trace| - 1];
      Prints(trace[..|trace| - 1], key) + if e.Dispatched? && e.test.key == key then [e.test.fingerprint] else []
  }

  lemma PrintsMore(trace: seq<TestEvent>, e: TestEvent, key: string)
    ensures Prints(trace + [e], key) ==
      Prints(trace, key) + if e.Dispatched? && e.test.key == key then [e.test.fingerprint] else []
  {
    assert (trace + [e])[..|trace|] == trace;
  }

  lemma TailRunMore(s: seq<string>, x: string)
    ensures TailRun(s + [x]) == if s != [] && s[|s| - 1] == x then TailRun(s) + 1 else 1
  {
    assert (s + [x])[..|s|] == s;
  }

  /** The runs of a key, by the fingerprints it was dispatched at. */
  ghost predicate Counts(runs: map<string, TestRun>, key: string, prints: seq<string>) {
    && (key in runs <==> prints != [])
    && (key in runs ==> runs[key].fingerprint == prints[|prints| - 1] && runs[key].count == TailRun(prints))
  }

  lemma CountStep(b: TestBook, e: TestEvent, key: string, prints: seq<string>)
    requires Counts(b.runs, key, prints)
    ensures Counts(Noted(b, e).runs, key,
                   if e.Dispatched? && e.test.key == key then prints + [e.test.fingerprint] else prints)
  {
    if e.Dispatched? && e.test.key == key { TailRunMore(prints, e.test.fingerprint); }
  }

  /** The book has the latest fingerprint of every key, and how many dispatches in a row were at it. */
  lemma {:induction false} CountIsTailRun(trace: seq<TestEvent>, key: string)
    ensures Counts(AfterTests(trace).runs, key, Prints(trace, key))
  {
    if trace != [] {
      var front, e := trace[..|trace| - 1], trace[|trace| - 1];
      CountIsTailRun(front, key);
      CountStep(AfterTests(front), e, key, Prints(front, key));
      assert Prints(front, key) + [] == Prints(front, key);
    }
  }

  /** What the gate reports is the number of equivalent runs in a row, the one being dispatched included. */
  lemma CheckedExactly(trace: seq<TestEvent>, test: TestCommand)
    ensures var check := Checked(AfterTests(trace).runs, test);
      && check.count == TailRun(Prints(trace, test.key) + [test.fingerprint])
      && (check.repeat <==> check.count >= 2)
  {
    CountIsTailRun(trace, test.key);
    TailRunMore(Prints(trace, test.key), test.fingerprint);
  }

  // ----- the summary cited -----

  /** The dispatch of the call that has not been answered, if there is one. */
  function Open(trace: seq<TestEvent>, call: Call): Option<TestCommand> {
    if trace == [] then None
    else
      var e := trace[|trace| - 1];
      if e.call == call then (if e.Dispatched? then Some(e.test) else None)
      else Open(trace[..|trace| - 1], call)
  }

  lemma OpenMore(trace: seq<TestEvent>, e: TestEvent, call: Call)
    ensures Open(trace + [e], call) ==
      if e.call != call then Open(trace, call) else if e.Dispatched? then Some(e.test) else None
  {
    assert (trace + [e])[..|trace|] == trace;
  }

  lemma {:induction false} PendingIsOpen(trace: seq<TestEvent>, call: Call)
    ensures var pending := AfterTests(trace).pending;
      && (call in pending <==> Open(trace, call).Some?)
      && (call in pending ==> pending[call] == Open(trace, call).value.key)
      && (Open(trace, call).Some? ==> Prints(trace, Open(trace, call).value.key) != [])
  {
    if trace != [] {
      PendingIsOpen(trace[..|trace| - 1], call);
    }
  }

  /** A result, and the fingerprint its run was dispatched at. */
  datatype Citation = Citation(summary: string, fingerprint: string)

  /** The latest result of the key since its fingerprint last changed. */
  function Cited(trace: seq<TestEvent>, key: string): Option<Citation> {
    if trace == [] then None
    else
      var front, e := trace[..|trace| - 1], trace[|trace| - 1];
      match e
      case Dispatched(_, test) =>
        var prints := Prints(front, key);
        if test.key == key && (prints == [] || prints[|prints| - 1] != test.fingerprint) then None
        else Cited(front, key)
      case Landed(call, veto, summary) =>
        var open := Open(front, call);
        if !veto && open.Some? && open.value.key == key then Some(Citation(summary, open.value.fingerprint))
        else Cited(front, key)
  }

  function SummaryOf(c: Option<Citation>): Option<string> { if c.Some? then Some(c.value.summary) else None }

  /** What a warning would quote. */
  lemma {:induction false} QuotesCited(trace: seq<TestEvent>, key: string)
    ensures var runs := AfterTests(trace).runs;
      (if key in runs then runs[key].lastSummary else None) == SummaryOf(Cited(trace, key))
  {
    if trace != [] {
      var front, e := trace[..|trace| - 1], trace[|trace| - 1];
      QuotesCited(front, key);
      CountIsTailRun(front, key);
      if e.Landed? {
        PendingIsOpen(front, e.call);
        if Open(front, e.call).Some? { CountIsTailRun(front, Open(front, e.call).value.key); }
      }
    }
  }

  /** Nothing a warning could quote is of another state of the workspace than the latest run's. */
  ghost predicate Current(trace: seq<TestEvent>) {
    forall key :: Cited(trace, key).Some? ==>
      Prints(trace, key) != [] && Cited(trace, key).value.fingerprint == Prints(trace, key)[|Prints(trace, key)| - 1]
  }

  /** The result is of a run of the state the key was last dispatched at. */
  ghost predicate InTime(trace: seq<TestEvent>, e: TestEvent) {
    e.Landed? && !e.veto && Open(trace, e.call).Some? ==>
      var test := Open(trace, e.call).value;
      Prints(trace, test.key) != [] && Prints(trace, test.key)[|Prints(trace, test.key)| - 1] == test.fingerprint
  }

  /** A step keeps what could be quoted current exactly if it is not a result that comes too late. */
  lemma CurrentStep(trace: seq<TestEvent>, e: TestEvent)
    requires Current(trace)
    ensures Current(trace + [e]) <==> InTime(trace, e)
  {
    var more := trace + [e];
    assert more[..|trace|] == trace;
    forall key ensures Prints(more, key) ==
      Prints(trace, key) + if e.Dispatched? && e.test.key == key then [e.test.fingerprint] else []
    {
      PrintsMore(trace, e, key);
    }
    if e.Landed? && !e.veto && Open(trace, e.call).Some? {
      var test := Open(trace, e.call).value;
      assert Cited(more, test.key) == Some(Citation(e.summary, test.fingerprint));
      assert Prints(more, test.key) == Prints(trace, test.key);
    }
  }

  /**
   * However dispatches and results interleave: a warning never quotes a result of an earlier state of the
   * workspace exactly if every result lands before its key is dispatched in another.
   */
  lemma {:induction false} CurrentThroughoutExactly(trace: seq<TestEvent>)
    ensures (forall n: nat :: n <= |trace| ==> Current(trace[..n])) <==>
      forall i: nat :: i < |trace| ==> InTime(trace[..i], trace[i])
  {
    if forall i: nat :: i < |trace| ==> InTime(trace[..i], trace[i]) {
      forall n: nat | n <= |trace| ensures Current(trace[..n]) { CurrentSoFar(trace, n); }
    }
    if forall n: nat :: n <= |trace| ==> Current(trace[..n]) {
      forall i: nat | i < |trace| ensures InTime(trace[..i], trace[i]) {
        assert trace[..i + 1] == trace[..i] + [trace[i]];
        CurrentStep(trace[..i], trace[i]);
      }
    }
  }

  lemma {:induction false} CurrentSoFar(trace: seq<TestEvent>, n: nat)
    requires n <= |trace| && forall i: nat :: i < |trace| ==> InTime(trace[..i], trace[i])
    ensures Current(trace[..n])
  {
    if n > 0 {
      CurrentSoFar(trace, n - 1);
      assert trace[..n] == trace[..n - 1] + [trace[n - 1]];
      CurrentStep(trace[..n - 1], trace[n - 1]);
    }
  }

  /** Nothing is on its way. */
  ghost predicate Idle(trace: seq<TestEvent>) { forall call :: Open(trace, call) == None }

  /** A call that is answered before anything else happens leaves nothing open, and its result is in time. */
  lemma OneAtATime(trace: seq<TestEvent>, call: Call, test: Option<TestCommand>, summary: string)
    requires Idle(trace) && Current(trace)
    ensures var sent := trace + if test.Some? then [Dispatched(call, test.value)] else [];
      Idle(sent + [Landed(call, false, summary)]) && Current(sent + [Landed(call, false, summary)])
  {
    var sent := trace + if test.Some? then [Dispatched(call, test.value)] else [];
    var after := sent + [Landed(call, false, summary)];
    if test.Some? {
      CurrentStep(trace, Dispatched(call, test.value));
      PrintsMore(trace, Dispatched(call, test.value), test.value.key);
      forall c ensures Open(sent, c) == if c == call then test else None {
        OpenMore(trace, Dispatched(call, test.value), c);
      }
    } else {
      assert sent == trace;
    }
    CurrentStep(sent, Landed(call, false, summary));
    forall c ensures Open(after, c) == None { OpenMore(sent, Landed(call, false, summary), c); }
  }

  /** A refusal leaves nothing open either, and adds nothing that could be quoted. */
  lemma RefusedStaysCurrent(trace: seq<TestEvent>, call: Call)
    requires Idle(trace) && Current(trace)
    ensures Idle(trace + [Landed(call, true, "")]) && Current(trace + [Landed(call, true, "")])
  {
    CurrentStep(trace, Landed(call, true, ""));
    forall c ensures Open(trace + [Landed(call, true, "")], c) == None { OpenMore(trace, Landed(call, true, ""), c); }
  }

  /** Two runs of one key at once, the second after a change: the first result is quoted of the changed state. */
  lemma OverlapQuotesOld(a: Call, b: Call, key: string, summary: string)
    requires a != b
    ensures var trace := [Dispatched(a, TestCommand(key, "before")), Dispatched(b, TestCommand(key, "after")),
                          Landed(a, false, summary)];
      && !Current(trace)
      && Checked(AfterTests(trace).runs, TestCommand(key, "after")) == TestRepeat(true, 2, Some(summary))
  {
    var first, second := Dispatched(a, TestCommand(key, "before")), Dispatched(b, TestCommand(key, "after"));
    var last := Landed(a, false, summary);
    TestStep([], first);
    TestStep([first], second);
    TestStep([first, second], last);
    PrintsMore([], first, key);
    PrintsMore([first], second, key);
    PrintsMore([first, second], last, key);
    OpenMore([], first, a);
    OpenMore([first], second, a);
    assert [] + [first] == [first] && [first] + [second] == [first, second];
    assert [first, second] + [last] == [first, second, last] && [first, second, last][..2] == [first, second];
    assert Cited([first, second, last], key) == Some(Citation(summary, "before"));
    assert "before"[0] == 'b' && "after"[0] == 'a';
  }

  // ----- the bookkeeping itself -----

  /** What the gate adds to the test commands' past. */
  function TestsOf(call: Call, test: Option<TestCommand>, proceed: bool): seq<TestEvent> {
    if !proceed then [Landed(call, true, "")]
    else if test.Some? then [Dispatched(call, test.value)]
    else []
  }

  /** How many runs in a row, the one to come included, find the same fingerprint. */
  ghost function InARow(trace: seq<TestEvent>, test: TestCommand): nat {
    TailRun(Prints(trace, test.key) + [test.fingerprint])
  }

  /** A repeat is reported exactly when at least two runs in a row, this one included, find the same fingerprint. */
  function Reported(trace: seq<TestEvent>, test: Option<TestCommand>): Option<TestRepeat> {
    if test.None? then None
    else
      var count := TailRun(Prints(trace, test.value.key) + [test.value.fingerprint]);
      if count < 2 then None else Some(TestRepeat(true, count, SummaryOf(Cited(trace, test.value.key))))
  }

  /** What the tracker keeps of its test commands. */
  class TestRuns {
    var runs: map<string, TestRun>
    var pending: map<Call, string>
    /** Every recognised test command dispatched, and every outcome of any call. */
    ghost var trace: seq<TestEvent>

    ghost predicate Valid()
      reads this
    {
      TestBook(runs, pending) == AfterTests(trace)
    }

    constructor ()
      ensures Valid() && trace == []
    {
      runs, pending, trace := map[], map[], [];
    }

    /**
     * `checkTestRepeat`: the count is the number of runs in a row at this fingerprint, the one to come included,
     * and what is quoted is the latest result of the key since its fingerprint changed.
     */
    method CheckTestRepeat(test: TestCommand) returns (check: TestRepeat)
      requires Valid()
      ensures check == Checked(AfterTests(trace).runs, test)
      ensures check.count == TailRun(Prints(trace, test.key) + [test.fingerprint])
      ensures check.repeat <==> check.count >= 2
      ensures check.repeat ==> check.previous == SummaryOf(Cited(trace, test.key))
    {
      CheckedExactly(trace, test);
      QuotesCited(trace, test.key);
      if test.key !in runs || runs[test.key].fingerprint != test.fingerprint {
        return TestRepeat(false, 1, None);
      }
      var prev := runs[test.key];
      check := TestRepeat(true, prev.count + 1, prev.lastSummary);
    }

    /** `recordTestRun`. */
    method RecordTestRun(test: TestCommand, call: Call)
      requires Valid()
      modifies this
      ensures Valid() && trace == old(trace) + [Dispatched(call, test)]
    {
      TestStep(trace, Dispatched(call, test));
      var count, summary := 1, None;
      if test.key in runs && runs[test.key].fingerprint == test.fingerprint {
        count, summary := runs[test.key].count + 1, runs[test.key].lastSummary;
      }
      runs := runs[test.key := TestRun(test.fingerprint, count, summary)];
      pending := pending[call := test.key];
      trace := trace + [Dispatched(call, test)];
    }

    /** `noteTestOutcome`. */
    method NoteTestOutcome(call: Call, veto: bool, summary: string)
      requires Valid()
      modifies this
      ensures Valid() && trace == old(trace) + [Landed(call, veto, summary)]
    {
      TestStep(trace, Landed(call, veto, summary));
      trace := trace + [Landed(call, veto, summary)];
      if call !in pending { return; }
      var key := pending[call];
      pending := pending - {call};
      if veto || key !in runs { return; }
      runs := runs[key := runs[key].(lastSummary := Some(summary))];
    }

    /** The test half of the gate: an admitted test command is checked and recorded, a refused one comes to nothing. */
    method GateTest(call: Call, test: Option<TestCommand>, proceed: bool) returns (repeat: Option<TestRepeat>)
      requires Valid()
      modifies this
      ensures Valid() && trace == old(trace) + TestsOf(call, test, proceed)
      ensures proceed && test.Some? ==> trace == old(trace) + [Dispatched(call, test.value)]
      ensures proceed && test.None? ==> trace == old(trace)
      ensures !proceed ==> trace == old(trace) + [Landed(call, true, "")]
      ensures proceed ==> repeat == Reported(old(trace), test)
      ensures repeat.Some? <==> proceed && test.Some? && InARow(old(trace), test.value) >= 2
      ensures repeat.Some? ==> repeat.value.count == InARow(old(trace), test.value)
      ensures repeat.Some? ==> repeat.value.previous == SummaryOf(Cited(old(trace), test.value.key))
    {
      repeat := None;
      if !proceed {
        NoteTestOutcome(call, true, "");
      } else if test.Some? {
        CheckedExactly(trace, test.value);
        var check := CheckTestRepeat(test.value);
        RecordTestRun(test.value, call);
        if check.repeat { repeat := Some(check); }
      }
    }
  }
}
