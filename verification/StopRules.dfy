/** Both rules that end a wandering turn, on the run's own bookkeeping: src/agent/loop-detector.ts:191-208, 278-322. */
module StopRules {
  import opened Wrappers
  import opened DistinctLists
  import opened LoopLimits
  import opened LoopHistory
  import opened LoopVerdicts
  import opened LoopRuns
  import opened LoopTraces
  import opened WanderingRuns
  import Probes = ProbeRuns

  // ----- the bookkeeping of a run of calls, one at a time -----

  /** The gate reads the bookkeeping for every probing call; a call that ran is then recorded. */
  function Read(book: Probes.Book, e: Event): Probes.Book {
    if e.Composite? then book else book.AskedOf(e.call.tool)
  }

  function Stepped(book: Probes.Book, e: Event, ok: bool): Probes.Book {
    if e.Ran? then Read(book, e).Recorded(Probes.Completion(e.call.tool, e.call.args, ok, e.round)) else Read(book, e)
  }

  /** `ok(i)`: the i-th call came back without an error. */
  function BookAfter(events: seq<Event>, ok: nat -> bool): Probes.Book {
    if events == [] then Probes.EMPTY
    else Stepped(BookAfter(events[..|events| - 1], ok), events[|events| - 1], ok(|events| - 1))
  }

  lemma BookStep(events: seq<Event>, e: Event, ok: nat -> bool)
    ensures BookAfter(events + [e], ok) == Stepped(BookAfter(events, ok), e, ok(|events|))
  {
    assert (events + [e])[..|events|] == events;
  }

  lemma {:induction false} SameBook(events: seq<Event>, ok: nat -> bool, ok': nat -> bool)
    requires forall i: nat :: i < |events| ==> ok(i) == ok'(i)
    ensures BookAfter(events, ok) == BookAfter(events, ok')
  {
    if events != [] { SameBook(events[..|events| - 1], ok, ok'); }
  }

  function LadderAfter(events: seq<Event>, ok: nat -> bool, call: Call, round: Option<nat>): RunLadder {
    BookAfter(events, ok).Ladder(call.tool, call.args, round)
  }

  /** What the gate read at each event. */
  function Ladders(events: seq<Event>, ok: nat -> bool): nat -> RunLadder {
    (i: nat) =>
      if i < |events| && !events[i].Composite? then LadderAfter(events[..i], ok, events[i].call, events[i].round)
      else RunLadder(1, 1)
  }

  /** The rounds the run of a tool spans, before the next call joins it. */
  function Spanned(book: Probes.Book, tool: string): nat { |book.Run(tool).Values| }

  lemma SettledSpans(book: Probes.Book, tool: string)
    ensures Spanned(book.Settled(), tool) <= Spanned(book, tool)
    ensures book.Settled().Run(tool) == book.Run(tool) || book.Settled().Run(tool) == map[]
  {
    var none: map<string, Probes.Round> := map[];
    assert none.Values == {};
  }

  lemma JoinSpans(run: map<string, Probes.Round>, args: string, round: Probes.Round)
    ensures Probes.With(run, args, round).Values <= run.Values + {round}
    ensures |Probes.With(run, args, round).Values| <=
      if args in run || round in run.Values then |run.Values| else |run.Values| + 1
  {
    var after := Probes.With(run, args, round);
    forall v | v in after.Values ensures v in run.Values + {round} {
      var k :| k in after.Keys && after[k] == v;
      assert args !in run && k != args ==> k in run.Keys && run[k] == v;
    }
    if args !in run {
      SubsetSize(after.Values, run.Values + {round});
      assert round in run.Values ==> run.Values + {round} == run.Values;
    }
  }

  /** A call widens its own run no further than the gate had measured, and any other run not at all. */
  lemma StepSpans(book: Probes.Book, e: Event, ok: bool, tool: string)
    ensures !IsProbe(e, tool) ==> Spanned(Stepped(book, e, ok), tool) <= Spanned(book, tool)
    ensures IsProbe(e, tool) && IsWanderingProneTool(tool) ==>
      Spanned(Stepped(book, e, ok), tool) <= book.Ladder(tool, e.call.args, e.round).rounds <= Spanned(book, tool) + 1
  {
    SettledSpans(book, tool);
    if e.Ran? {
      var read, c := Read(book, e), Probes.Completion(e.call.tool, e.call.args, ok, e.round);
      Probes.RunAfter(read, c, tool);
      if IsProbe(e, tool) { JoinSpans(read.Run(tool), c.args, read.RoundOf(c)); }
    }
  }

  // ----- the run ladder -----

  /** The rounds the gate measured at each probe of the tool, oldest first. */
  ghost function RunRounds(events: seq<Event>, ok: nat -> bool, tool: string): seq<nat> {
    if events == [] then []
    else
      var before, e := events[..|events| - 1], events[|events| - 1];
      RunRounds(before, ok, tool) + if IsProbe(e, tool) then [LadderAt(before, ok, e).rounds] else []
  }

  function LadderAt(before: seq<Event>, ok: nat -> bool, e: Event): RunLadder
    requires !e.Composite?
  {
    LadderAfter(before, ok, e.call, e.round)
  }

  /** From one probe of a tool to the next the rounds of its run rise by at most one, and they start at one. */
  lemma {:induction false} RoundsRiseByOne(events: seq<Event>, ok: nat -> bool, tool: string)
    requires IsWanderingProneTool(tool)
    ensures var s := RunRounds(events, ok, tool);
      && (s != [] ==> s[0] <= 1)
      && (forall i :: 0 <= i < |s| - 1 ==> s[i + 1] <= s[i] + 1)
      && Spanned(BookAfter(events, ok), tool) <= if s == [] then 0 else s[|s| - 1]
  {
    if events == [] {
      assert Probes.EMPTY.Run(tool) == map[];
    } else {
      var before, e := events[..|events| - 1], events[|events| - 1];
      RoundsRiseByOne(before, ok, tool);
      StepSpans(BookAfter(before, ok), e, ok(|events| - 1), tool);
    }
  }

  /** The i-th event is a probe of the tool at the run ladder's warn rung. */
  ghost predicate AtRunRung(events: seq<Event>, ok: nat -> bool, l: Limits, tool: string, i: nat)
    requires i < |events|
  {
    IsProbe(events[i], tool) && LadderAt(events[..i], ok, events[i]).rounds >= l.wandering
  }

  /** Without a probe at the rung the run spans fewer rounds than the rung asks for. */
  lemma {:induction false} FewRounds(events: seq<Event>, ok: nat -> bool, l: Limits, tool: string)
    requires Ladder(l) && IsWanderingProneTool(tool)
    requires forall i: nat :: i < |events| ==> !AtRunRung(events, ok, l, tool, i)
    ensures Spanned(BookAfter(events, ok), tool) < l.wandering
  {
    if events == [] {
      assert Probes.EMPTY.Run(tool) == map[];
    } else {
      var n, before, e := |events| - 1, events[..|events| - 1], events[|events| - 1];
      forall i: nat | i < n ensures !AtRunRung(before, ok, l, tool, i) {
        assert before[..i] == events[..i];
        assert !AtRunRung(events, ok, l, tool, i);
      }
      FewRounds(before, ok, l, tool);
      StepSpans(BookAfter(before, ok), e, ok(n), tool);
      assert !AtRunRung(events, ok, l, tool, n);
    }
  }

  /** With a warn rung below its stop, the run rule fires only after an earlier probe met that rung. */
  lemma RunStopComesAfterRung(events: seq<Event>, ok: nat -> bool, l: Limits, call: Call, round: Option<nat>)
    returns (i: nat)
    requires Ladder(l) && IsWanderingProneTool(call.tool) && l.wandering < l.escalation
    requires LadderAfter(events, ok, call, round).rounds >= l.escalation
    ensures i < |events| && AtRunRung(events, ok, l, call.tool, i)
  {
    SettledSpans(BookAfter(events, ok), call.tool);
    if forall i: nat :: i < |events| ==> !AtRunRung(events, ok, l, call.tool, i) {
      FewRounds(events, ok, l, call.tool);
      assert false;
    }
    i :| i < |events| && AtRunRung(events, ok, l, call.tool, i);
  }

  // ----- both rules -----

  /** The gate stops this call, in a step round of its own, by whichever rule. */
  ghost predicate StopsAt(events: seq<Event>, ok: nat -> bool, l: Limits, call: Call, round: Option<nat>) {
    && FreshRound(Window(events, l.historySize), call, round)
    && Stopped(Window(events, l.historySize), l, call, round, LadderAfter(events, ok, call, round)).escalated
  }

  ghost predicate ByRun(events: seq<Event>, ok: nat -> bool, l: Limits, call: Call, round: Option<nat>) {
    LadderAfter(events, ok, call, round).rounds >= l.escalation
  }

  /** The i-th event was a probe of the tool at a rung of either ladder. */
  ghost predicate AtRungOf(events: seq<Event>, ok: nat -> bool, l: Limits, tool: string, i: nat) {
    i < |events| && RungAt(events, l, tool, i, Ladders(events, ok)(i))
  }

  /** A stop follows a probe at a rung, unless the run ladder's two thresholds are one and the run rule fired. */
  lemma StopFollowsRung(events: seq<Event>, ok: nat -> bool, l: Limits, call: Call, round: Option<nat>) returns (i: nat)
    requires Ladder(l) && OneProbePerRound(events, call.tool, l.historySize) && StopsAt(events, ok, l, call, round)
    requires ByRun(events, ok, l, call, round) ==> l.wandering < l.escalation
    ensures AtRungOf(events, ok, l, call.tool, i)
  {
    if ByRun(events, ok, l, call, round) {
      i := RunStopComesAfterRung(events, ok, l, call, round);
    } else {
      StopNeedsRung(events, l, call, round, LadderAfter(events, ok, call, round));
      i := FindFirst(events, call.tool, l);
    }
  }

  /**
   * For every option set and every run, with one probe of the tool per round, that either rule stops: the stop
   * comes unwarned exactly if every earlier probe at a rung of either ladder repeated a call still in its window;
   * and there was such a probe unless the run rule fired and its two thresholds are one.
   */
  lemma UnwarnedByEitherExactly(o: Options, events: seq<Event>, ok: nat -> bool, call: Call, round: Option<nat>)
    requires OneProbePerRound(events, call.tool, Derived(o).historySize) && StopsAt(events, ok, Derived(o), call, round)
    ensures NeverWarned(events, Derived(o), call.tool, Ladders(events, ok)) <==>
      forall i :: AtRungOf(events, ok, Derived(o), call.tool, i) ==> HiddenAt(events, Derived(o), i)
    ensures !ByRun(events, ok, Derived(o), call, round) || Derived(o).wandering < Derived(o).escalation ==>
      exists i :: AtRungOf(events, ok, Derived(o), call.tool, i)
  {
    var l := Derived(o);
    EveryOptionSetClimbs(o);
    UnwarnedExactly(l, events, call.tool, Ladders(events, ok));
    if !ByRun(events, ok, l, call, round) || l.wandering < l.escalation {
      var i := StopFollowsRung(events, ok, l, call, round);
    }
  }

  // ----- when the guarantee holds -----

  /** Every call that ran was let through: no critical streak and neither wandering rule. */
  ghost predicate LetThrough(events: seq<Event>, ok: nat -> bool, l: Limits) {
    forall i: nat :: i < |events| ==> Passes(events, ok, l, i)
  }

  ghost predicate Passes(events: seq<Event>, ok: nat -> bool, l: Limits, i: nat)
    requires i < |events|
  {
    events[i].Ran? ==>
      && Streak(Window(events[..i], l.historySize), Key(events[i].call, events[i].epoch)) < l.critical
      && !Stopped(Window(events[..i], l.historySize), l, events[i].call, events[i].round,
                  LadderAt(events[..i], ok, events[i])).escalated
  }

  /** A run the gate could have seen and would stop at this call, by whichever rule. */
  ghost predicate Ends(events: seq<Event>, ok: nat -> bool, l: Limits, call: Call, round: Option<nat>) {
    && OneProbePerRound(events, call.tool, l.historySize) && LetThrough(events, ok, l)
    && StopsAt(events, ok, l, call, round)
  }

  /** No run is stopped before a probe of its tool has been at a rung. */
  ghost predicate RungBeforeStop(l: Limits) {
    forall events, ok, call, round :: Ends(events, ok, l, call, round) ==>
      exists i :: AtRungOf(events, ok, l, call.tool, i)
  }

  /** Call arguments numbered by their length, one step and one result each. */
  function Name(n: nat): string { seq(n, i => 'a') }

  function Numbered(n: nat, tool: string): Event { Ran(Call(tool, Name(n)), None, Some(n + 1), "result") }

  const SEARCH := "os.web.search"
  const SHELL := "os.shell.run"

  /** One search or one shell call per step, no two alike; only the searches succeed. */
  ghost predicate Plain(events: seq<Event>) {
    forall i :: 0 <= i < |events| ==> events[i] == Numbered(i, SEARCH) || events[i] == Numbered(i, SHELL)
  }

  ghost predicate OnlySearchesSucceed(events: seq<Event>, ok: nat -> bool) {
    forall i: nat :: i < |events| ==> (ok(i) <==> IsProbe(events[i], SEARCH))
  }

  function Searches(events: seq<Event>): nat {
    if events == [] then 0
    else Searches(events[..|events| - 1]) + if IsProbe(events[|events| - 1], SEARCH) then 1 else 0
  }

  /** The book of such a run: every search in it, each in a round of its own, and nothing else done. */
  ghost predicate Searched(book: Probes.Book, n: nat, searches: nat) {
    && book.progress <= {SEARCH} && Spanned(book, SEARCH) == searches
    && (forall args :: args in book.Run(SEARCH) ==> |args| < n)
    && (forall round :: round in book.Run(SEARCH).Values ==> round.Step? && round.step <= n)
  }

  lemma SearchedByShell(book: Probes.Book, n: nat, searches: nat)
    requires Searched(book, n, searches)
    ensures Searched(Stepped(book, Numbered(n, SHELL), false), n + 1, searches)
  {
  }

  lemma KeepsOwnFamily(book: Probes.Book)
    requires book.progress <= {SEARCH}
    ensures book.Settled().Run(SEARCH) == book.Run(SEARCH)
  {
  }

  lemma SearchedBySearch(book: Probes.Book, n: nat, searches: nat)
    requires Searched(book, n, searches)
    ensures Searched(Stepped(book, Numbered(n, SEARCH), true), n + 1, searches + 1)
  {
    var after := Stepped(book, Numbered(n, SEARCH), true);
    assert after.Run(SEARCH) == Probes.With(book.Run(SEARCH), Name(n), Probes.Step(n + 1)) by {
      KeepsOwnFamily(book);
      Probes.RunAfter(book.Settled(), Probes.Completion(SEARCH, Name(n), true, Some(n + 1)), SEARCH);
    }
    NewInRun(book.Run(SEARCH), Name(n), Probes.Step(n + 1));
  }

  lemma NewInRun(run: map<string, Probes.Round>, args: string, round: Probes.Round)
    requires args !in run && round !in run.Values
    ensures Probes.With(run, args, round).Values == run.Values + {round}
    ensures |Probes.With(run, args, round).Values| == |run.Values| + 1
  {
    var after := Probes.With(run, args, round);
    JoinSpans(run, args, round);
    forall v | v in run.Values + {round} ensures v in after.Values {
      if v == round { assert after[args] == v && args in after.Keys; }
      else {
        var k :| k in run.Keys && run[k] == v;
        assert k in after.Keys && after[k] == v;
      }
    }
  }

  lemma {:induction false} PlainBook(events: seq<Event>, ok: nat -> bool)
    requires Plain(events) && OnlySearchesSucceed(events, ok)
    ensures Searched(BookAfter(events, ok), |events|, Searches(events))
  {
    if events == [] {
      assert Probes.EMPTY.Run(SEARCH) == map[];
    } else {
      var n, before := |events| - 1, events[..|events| - 1];
      PlainBook(before, ok);
      if IsProbe(events[n], SEARCH) { SearchedBySearch(BookAfter(before, ok), n, Searches(before)); }
      else { SearchedByShell(BookAfter(before, ok), n, Searches(before)); }
    }
  }

  /** The next search would be one more round. */
  lemma NextSearch(events: seq<Event>, ok: nat -> bool)
    requires Plain(events) && OnlySearchesSucceed(events, ok)
    ensures LadderAfter(events, ok, Call(SEARCH, Name(|events|)), Some(|events| + 1)).rounds == Searches(events) + 1
  {
    PlainBook(events, ok);
    KeepsOwnFamily(BookAfter(events, ok));
  }

  // ----- searches with a window's worth of failing shell calls between them -----

  /** The last `size` events before i, as far as there are any, are shell calls. */
  ghost predicate ShellsBefore(events: seq<Event>, i: nat, size: nat)
    requires i <= |events|
  {
    forall j :: 0 <= j < i && i - j <= size ==> !events[j].Composite? && events[j].call.tool == SHELL
  }

  ghost predicate Spaced(events: seq<Event>, size: nat) {
    forall i: nat :: i < |events| && IsProbe(events[i], SEARCH) ==> ShellsBefore(events, i, size)
  }

  /** m searches, all spaced, and room for another. */
  ghost predicate Churn(events: seq<Event>, m: nat, size: nat) {
    Plain(events) && Searches(events) == m && Spaced(events, size) && ShellsBefore(events, |events|, size)
  }

  lemma OneMoreShell(events: seq<Event>, k: nat, m: nat, size: nat) returns (more: seq<Event>)
    requires Plain(events) && Searches(events) == m && Spaced(events, size) && ShellsBefore(events, |events|, k)
    ensures Plain(more) && Searches(more) == m && Spaced(more, size) && ShellsBefore(more, |more|, k + 1)
  {
    more := events + [Numbered(|events|, SHELL)];
    assert more[..|events|] == events;
    forall i: nat | i < |more| && IsProbe(more[i], SEARCH) ensures ShellsBefore(more, i, size) {
      assert more[i] == events[i] && ShellsBefore(events, i, size);
    }
  }

  lemma {:induction false} MoreShells(events: seq<Event>, k: nat, m: nat, size: nat) returns (more: seq<Event>)
    requires Plain(events) && Searches(events) == m && Spaced(events, size)
    ensures Plain(more) && Searches(more) == m && Spaced(more, size) && ShellsBefore(more, |more|, k)
  {
    if k == 0 {
      more := events;
    } else {
      var fewer := MoreShells(events, k - 1, m, size);
      more := OneMoreShell(fewer, k - 1, m, size);
    }
  }

  lemma OneMoreSearch(events: seq<Event>, m: nat, size: nat) returns (more: seq<Event>)
    requires Churn(events, m, size)
    ensures Plain(more) && Searches(more) == m + 1 && Spaced(more, size)
  {
    more := events + [Numbered(|events|, SEARCH)];
    assert more[..|events|] == events;
    forall i: nat | i < |more| && IsProbe(more[i], SEARCH) ensures ShellsBefore(more, i, size) {
      assert i < |events| ==> more[i] == events[i] && ShellsBefore(events, i, size);
    }
  }

  lemma {:induction false} ChurnExists(m: nat, size: nat) returns (events: seq<Event>)
    ensures Churn(events, m, size)
  {
    if m == 0 {
      events := [];
    } else {
      var before := ChurnExists(m - 1, size);
      var searched := OneMoreSearch(before, m - 1, size);
      events := MoreShells(searched, size, m, size);
    }
  }

  lemma {:induction false} SearchesBefore(events: seq<Event>, i: nat)
    requires i < |events| && IsProbe(events[i], SEARCH)
    ensures Searches(events[..i]) < Searches(events)
  {
    var n := |events| - 1;
    if i < n {
      SearchesBefore(events[..n], i);
      assert events[..n][..i] == events[..i];
    }
  }

  lemma EntryFrom(events: seq<Event>, size: nat, e: Entry) returns (k: nat)
    requires Plain(events) && e in Window(events, size)
    ensures k < |events| && e == Left(events[k]) && e.call.args == Name(k) && e.round == Some(k + 1)
  {
    k := WindowFrom(events, size, e);
  }

  lemma PlainBefore(events: seq<Event>, i: nat)
    requires Plain(events) && i <= |events|
    ensures Plain(events[..i])
  {
  }

  /** Every call is new, so nothing repeats and no two entries share a round. */
  lemma NothingRepeats(events: seq<Event>, size: nat, tool: string)
    requires Plain(events)
    ensures var call := Call(tool, Name(|events|));
      Streak(Window(events, size), Key(call, None)) == 0 && FreshRound(Window(events, size), call, Some(|events| + 1))
  {
    forall e | e in Window(events, size) ensures e.call.args != Name(|events|) && e.round != Some(|events| + 1) {
      var k := EntryFrom(events, size, e);
    }
    AbsentMeansNone(Window(events, size), Key(Call(tool, Name(|events|)), None));
  }

  lemma PlainRounds(events: seq<Event>, size: nat)
    requires Plain(events)
    ensures OneProbePerRound(events, SEARCH, size)
  {
    forall i, e | 0 <= i < |events| && e in Window(events[..i], size) ensures e.round != events[i].round {
      var k := EntryFrom(events[..i], size, e);
    }
  }

  /** After enough shell calls the window holds nothing else. */
  lemma ShellsInWindow(events: seq<Event>, size: nat, e: Entry)
    requires ShellsBefore(events, |events|, size) && e in Window(events, size)
    ensures e.call.tool == SHELL
  {
    var window := Window(events, size);
    var i: nat :| i < |window| && window[i] == e;
    EntryOfEvent(events, window, i, size);
    assert |window| <= size by { WindowIsTail(events, size); }
  }

  lemma NoneOfTool(history: seq<Entry>, call: Call, round: Option<nat>)
    requires forall e :: e in history ==> e.call.tool != call.tool
    ensures Spread(history, call, round) == 1
  {
    assert Seen(history, call.tool, round) == {};
    assert {} + {call.args} == {call.args};
  }

  lemma NarrowWindow(events: seq<Event>, size: nat, call: Call, round: Option<nat>)
    requires ShellsBefore(events, |events|, size) && call.tool == SEARCH
    ensures Spread(Window(events, size), call, round) == 1
  {
    forall e | e in Window(events, size) ensures e.call.tool == SHELL { ShellsInWindow(events, size, e); }
    NoneOfTool(Window(events, size), call, round);
  }

  function OnlySearches(events: seq<Event>): nat -> bool { (i: nat) => i < |events| && IsProbe(events[i], SEARCH) }

  /** A call the gate finds new, in its window and in its run, below both rungs. */
  ghost predicate Quiet(before: seq<Event>, ok: nat -> bool, l: Limits, e: Event)
    requires e.Ran?
  {
    && Streak(Window(before, l.historySize), Key(e.call, e.epoch)) == 0
    && (IsProbe(e, SEARCH) ==> LadderAt(before, ok, e).rounds < l.wandering
                               && Spread(Window(before, l.historySize), e.call, e.round) == 1)
    && (e.call.tool == SEARCH || !IsWanderingProneTool(e.call.tool))
  }

  lemma QuietPasses(events: seq<Event>, ok: nat -> bool, l: Limits, i: nat)
    requires Ladder(l) && l.windowWarning >= 2 && i < |events| && events[i].Ran? && Quiet(events[..i], ok, l, events[i])
    ensures Passes(events, ok, l, i) && !AtRungOf(events, ok, l, SEARCH, i)
  {
  }

  lemma OnlyBefore(events: seq<Event>, ok: nat -> bool, i: nat)
    requires OnlySearchesSucceed(events, ok) && i <= |events|
    ensures OnlySearchesSucceed(events[..i], ok)
  {
    forall j: nat | j < i ensures events[..i][j] == events[j] {}
  }

  lemma ShellIsNoProbe()
    ensures !IsWanderingProneTool(SHELL)
  {
    assert SHELL[0] == 'o' && "browser."[0] == 'b';
  }

  lemma ShellsBeforePrefix(events: seq<Event>, i: nat, size: nat)
    requires i <= |events| && ShellsBefore(events, i, size)
    ensures ShellsBefore(events[..i], i, size)
  {
  }

  lemma ChurnIsQuiet(events: seq<Event>, ok: nat -> bool, l: Limits, m: nat, i: nat)
    requires Ladder(l) && Churn(events, m, l.historySize) && m < l.wandering && OnlySearchesSucceed(events, ok)
    requires i < |events|
    ensures Quiet(events[..i], ok, l, events[i])
  {
    var before := events[..i];
    PlainBefore(events, i);
    NothingRepeats(before, l.historySize, events[i].call.tool);
    ShellIsNoProbe();
    if IsProbe(events[i], SEARCH) {
      OnlyBefore(events, ok, i);
      SearchesBefore(events, i);
      NextSearch(before, ok);
      ShellsBeforePrefix(events, i, l.historySize);
      NarrowWindow(before, l.historySize, events[i].call, events[i].round);
    }
  }

  /** As long as the searches stay below the run rung, none of them is at any rung and all are let through. */
  lemma ChurnLetThrough(events: seq<Event>, ok: nat -> bool, l: Limits, m: nat)
    requires Ladder(l) && l.windowWarning >= 2
    requires Churn(events, m, l.historySize) && m < l.wandering && OnlySearchesSucceed(events, ok)
    ensures LetThrough(events, ok, l) && forall i :: !AtRungOf(events, ok, l, SEARCH, i)
  {
    forall i: nat | i < |events| ensures Passes(events, ok, l, i) && !AtRungOf(events, ok, l, SEARCH, i) {
      ChurnIsQuiet(events, ok, l, m, i);
      QuietPasses(events, ok, l, i);
    }
  }

  lemma OnlySearchesDo(events: seq<Event>)
    ensures OnlySearchesSucceed(events, OnlySearches(events))
  {
  }

  /** The next search of a plain run is stopped by the run rule, with no probe at a rung before it. */
  ghost predicate StopsUnrung(events: seq<Event>, ok: nat -> bool, l: Limits, call: Call, round: Option<nat>) {
    && Ends(events, ok, l, call, round) && ByRun(events, ok, l, call, round) && AllRan(events, call.tool)
    && (forall i :: !AtRungOf(events, ok, l, call.tool, i))
    && NeverWarned(events, l, call.tool, Ladders(events, ok))
  }

  lemma PlainStopsUnrung(events: seq<Event>, ok: nat -> bool, l: Limits)
    requires Ladder(l) && Plain(events) && LetThrough(events, ok, l) && forall i :: !AtRungOf(events, ok, l, SEARCH, i)
    requires LadderAfter(events, ok, Call(SEARCH, Name(|events|)), Some(|events| + 1)).rounds >= l.escalation
    ensures StopsUnrung(events, ok, l, Call(SEARCH, Name(|events|)), Some(|events| + 1))
  {
    PlainStops(events, ok, l);
    NoRungNoWarning(events, ok, l, SEARCH);
  }

  /**
   * With the run ladder's two thresholds one, searches in rounds of their own, with a window's worth of failing
   * shell calls between them, are stopped by the run rule although nothing was ever at a rung, refused or
   * left open.
   */
  lemma EqualThresholdsStopUnwarned(l: Limits)
    returns (events: seq<Event>, ok: nat -> bool, call: Call, round: Option<nat>)
    requires Ladder(l) && l.wandering == l.escalation && l.windowWarning >= 2
    ensures StopsUnrung(events, ok, l, call, round)
  {
    events := ChurnExists(l.wandering - 1, l.historySize);
    ok := OnlySearches(events);
    call, round := Call(SEARCH, Name(|events|)), Some(|events| + 1);
    OnlySearchesDo(events);
    NextSearch(events, ok);
    ChurnLetThrough(events, ok, l, l.wandering - 1);
    PlainStopsUnrung(events, ok, l);
  }

  lemma NoRungNoWarning(events: seq<Event>, ok: nat -> bool, l: Limits, tool: string)
    requires Ladder(l) && IsWanderingProneTool(tool) && forall i :: !AtRungOf(events, ok, l, tool, i)
    ensures NeverWarned(events, l, tool, Ladders(events, ok))
  {
    UnwarnedExactly(l, events, tool, Ladders(events, ok));
    forall i: nat | i < |events| ensures !RungAt(events, l, tool, i, Ladders(events, ok)(i)) {
      assert !AtRungOf(events, ok, l, tool, i);
    }
  }

  lemma PlainStops(events: seq<Event>, ok: nat -> bool, l: Limits)
    requires Ladder(l) && Plain(events)
    requires LadderAfter(events, ok, Call(SEARCH, Name(|events|)), Some(|events| + 1)).rounds >= l.escalation
    ensures var call, round := Call(SEARCH, Name(|events|)), Some(|events| + 1);
      && OneProbePerRound(events, SEARCH, l.historySize) && AllRan(events, SEARCH)
      && StopsAt(events, ok, l, call, round) && ByRun(events, ok, l, call, round)
  {
    PlainRounds(events, l.historySize);
    NothingRepeats(events, l.historySize, SEARCH);
    assert "result" != "";
  }

  // ----- exactly -----

  lemma {:induction false} NoProbeNoRounds(events: seq<Event>, ok: nat -> bool, tool: string)
    requires forall i :: 0 <= i < |events| ==> !IsProbe(events[i], tool)
    ensures RunRounds(events, ok, tool) == []
  {
    if events != [] { NoProbeNoRounds(events[..|events| - 1], ok, tool); }
  }

  /** If the window's warn rung is one, the first probe of a tool is at it. */
  lemma AnyProbeIsAtRung(events: seq<Event>, ok: nat -> bool, l: Limits, call: Call, round: Option<nat>)
    returns (i: nat)
    requires Ladder(l) && l.windowWarning == 1 && IsWanderingProneTool(call.tool) && ByRun(events, ok, l, call, round)
    ensures AtRungOf(events, ok, l, call.tool, i)
  {
    SettledSpans(BookAfter(events, ok), call.tool);
    RoundsRiseByOne(events, ok, call.tool);
    if forall i :: 0 <= i < |events| ==> !IsProbe(events[i], call.tool) {
      NoProbeNoRounds(events, ok, call.tool);
      assert false;
    }
    i :| 0 <= i < |events| && IsProbe(events[i], call.tool);
    var args := events[i].call.args;
    assert args in Seen(Window(events[..i], l.historySize), call.tool, events[i].round) + {args};
  }

  /**
   * For every option set: no run is stopped before a probe of its tool has been at a rung, exactly if the run
   * ladder's warn rung is below its stop or the window's rung is the very first probe.
   */
  lemma GuaranteedExactly(o: Options)
    ensures RungBeforeStop(Derived(o)) <==>
      Derived(o).wandering < Derived(o).escalation || Derived(o).windowWarning == 1
  {
    var l := Derived(o);
    EveryOptionSetClimbs(o);
    if l.wandering < l.escalation || l.windowWarning == 1 {
      forall events, ok, call, round | Ends(events, ok, l, call, round)
        ensures exists i :: AtRungOf(events, ok, l, call.tool, i)
      {
        if ByRun(events, ok, l, call, round) && l.windowWarning == 1 {
          var i := AnyProbeIsAtRung(events, ok, l, call, round);
        } else {
          var i := StopFollowsRung(events, ok, l, call, round);
        }
      }
    } else {
      var events, ok, call, round := EqualThresholdsStopUnwarned(l);
    }
  }

  // ----- two runs -----

  const ALL_OK: nat -> bool := (i: nat) => true

  /** The warn rung raised to the default stop. */
  const TWELVE: Options := Options(None, None, None, None, Some(12), None, None)

  /** A single option moved, within what the configuration admits, takes the guarantee away. */
  lemma TwelveStopsUnwarned() returns (events: seq<Event>, ok: nat -> bool, call: Call, round: Option<nat>)
    ensures Derived(TWELVE).wandering == Derived(TWELVE).escalation == 12
    ensures StopsUnrung(events, ok, Derived(TWELVE), call, round)
  {
    EveryOptionSetClimbs(TWELVE);
    events, ok, call, round := EqualThresholdsStopUnwarned(Derived(TWELVE));
  }

  const TWO: Options := Options(None, None, None, None, Some(2), Some(2), None)

  const ONE_SEARCH: seq<Event> := [Ran(Search("a"), None, Some(1), "found a")]

  lemma OneSearchBook()
    ensures BookAfter(ONE_SEARCH, ALL_OK) ==
      Probes.Book(map[SEARCH := map["a" := Probes.Step(1)]], {SEARCH}, 0)
  {
    assert ONE_SEARCH == [] + ONE_SEARCH;
    BookStep([], ONE_SEARCH[0], ALL_OK);
    assert Probes.EMPTY.Settled() == Probes.EMPTY;
  }

  lemma TwoLimits()
    ensures var l := Derived(TWO);
      && l.wandering == l.escalation == 2 && l.historySize == 30 && l.ceiling == 18
      && l.windowWarning == 17 && l.critical == 5
  {
  }

  /** The first call of all: no history, no run. */
  lemma FirstCall(call: Call, round: Option<nat>, ok: nat -> bool)
    ensures Window([], 30) == [] && Streak([], Key(call, None)) == 0 && Spread([], call, round) == 1
    ensures LadderAfter([], ok, call, round).rounds == 1
  {
    NoneOfTool([], call, round);
    assert Probes.EMPTY.Settled().Run(call.tool) == map[];
    var none: map<string, Probes.Round> := map[];
    assert none.Values == {};
  }

  lemma FirstPasses()
    ensures LetThrough(ONE_SEARCH, ALL_OK, Derived(TWO)) && OneProbePerRound(ONE_SEARCH, SEARCH, 30)
    ensures forall i :: !AtRungOf(ONE_SEARCH, ALL_OK, Derived(TWO), SEARCH, i)
  {
    TwoLimits();
    FirstCall(Search("a"), Some(1), ALL_OK);
    assert ONE_SEARCH[..0] == [];
    assert Passes(ONE_SEARCH, ALL_OK, Derived(TWO), 0);
  }

  lemma SecondRounds()
    ensures LadderAfter(ONE_SEARCH, ALL_OK, Search("b"), Some(2)).rounds == 2
  {
    OneSearchBook();
    var book := BookAfter(ONE_SEARCH, ALL_OK);
    KeepsOwnFamily(book);
    var run := book.Run(SEARCH);
    assert run.Keys == {"a"} && "b" !in run;
    assert run.Values == {Probes.Step(1)} by { assert run["a"] == Probes.Step(1); }
  }

  /** The second search, in the next step, is stopped. */
  lemma SecondSearchStops()
    ensures StopsUnrung(ONE_SEARCH, ALL_OK, Derived(TWO), Search("b"), Some(2))
  {
    EveryOptionSetClimbs(TWO);
    TwoLimits();
    FirstPasses();
    SecondRounds();
    NoRungNoWarning(ONE_SEARCH, ALL_OK, Derived(TWO), SEARCH);
    OneEntry();
  }

  lemma OneEntry()
    ensures FreshRound(Window(ONE_SEARCH, 30), Search("b"), Some(2)) && AllRan(ONE_SEARCH, SEARCH)
  {
    assert ONE_SEARCH[..0] == [] && Window(ONE_SEARCH, 30) == [Left(ONE_SEARCH[0])];
  }

  // ----- the masked run, on its own book -----

  /** A book that knows of searches only. */
  function Only(run: map<string, Probes.Round>, progress: set<string>): Probes.Book {
    Probes.Book(if run == map[] then map[] else map[SEARCH := run], progress, 0)
  }

  /** A search joins the run unless other work has settled it. */
  lemma FoundStep(run: map<string, Probes.Round>, progress: set<string>, args: string, step: nat)
    requires progress <= {SEARCH} || run == map[]
    ensures Stepped(Only(run, progress), Found(args, step), true) ==
      Only(Probes.With(run, args, Probes.Step(step)), {SEARCH})
  {
    var read := Read(Only(run, progress), Found(args, step));
    assert read == Only(run, {});
    assert Probes.With(run, args, Probes.Step(step)) != map[] by {
      assert args in Probes.With(run, args, Probes.Step(step));
    }
    assert read.Recorded(Probes.Completion(SEARCH, args, true, Some(step))).runs ==
      map[SEARCH := Probes.With(run, args, Probes.Step(step))];
  }

  lemma ShellStep(run: map<string, Probes.Round>, progress: set<string>, args: string, step: nat)
    ensures Stepped(Only(run, progress), Shell(args, step), true) == Only(run, progress + {SHELL})
  {
    ShellIsNoProbe();
  }

  /** A refused search reads the book, which settles the run, and adds nothing. */
  lemma RefusedStep(run: map<string, Probes.Round>, e: Event)
    requires e.Refused? && e.call.tool == SEARCH
    ensures Stepped(Only(run, {SEARCH, SHELL}), e, true) == Only(map[], {})
  {
    ShellIsNoProbe();
    assert !Only(run, {SEARCH, SHELL}).Keeps(SEARCH) by { assert SHELL in {SEARCH, SHELL}; }
    assert Only(run, {SEARCH, SHELL}).Settled().runs == map[];
  }

  lemma MaskedBook(k: nat)
    requires k < 9
    ensures BookAfter(MASKED[..k + 1], ALL_OK) == Stepped(BookAfter(MASKED[..k], ALL_OK), MASKED[k], true)
  {
    assert MASKED[..k + 1] == MASKED[..k] + [MASKED[k]];
    BookStep(MASKED[..k], MASKED[k], ALL_OK);
  }

  const Z_RUN: map<string, Probes.Round> := map["z" := Probes.Step(1)]
  const Y_RUN: map<string, Probes.Round> := map["y" := Probes.Step(8)]
  const YZ_RUN: map<string, Probes.Round> := map["y" := Probes.Step(8), "z" := Probes.Step(9)]

  lemma MaskedEarly()
    ensures BookAfter(MASKED[..0], ALL_OK) == Only(map[], {})
    ensures BookAfter(MASKED[..1], ALL_OK) == Only(Z_RUN, {SEARCH})
    ensures BookAfter(MASKED[..4], ALL_OK) == Only(Z_RUN, {SEARCH, SHELL})
  {
    assert MASKED[..0] == [];
    MaskedBook(0);
    FoundStep(map[], {}, "z", 1);
    assert Probes.With(map[], "z", Probes.Step(1)) == Z_RUN;
    MaskedBook(1);
    FoundStep(Z_RUN, {SEARCH}, "z", 2);
    MaskedBook(2);
    ShellStep(Z_RUN, {SEARCH}, "1", 3);
    MaskedBook(3);
    ShellStep(Z_RUN, {SEARCH, SHELL}, "2", 4);
    assert {SEARCH} + {SHELL} == {SEARCH, SHELL} && {SEARCH, SHELL} + {SHELL} == {SEARCH, SHELL};
  }

  lemma MaskedMiddle()
    ensures BookAfter(MASKED[..7], ALL_OK) == Only(map[], {SHELL})
  {
    MaskedEarly();
    MaskedBook(4);
    RefusedStep(Z_RUN, MASKED[4]);
    MaskedBook(5);
    ShellStep(map[], {}, "3", 6);
    MaskedBook(6);
    ShellStep(map[], {SHELL}, "4", 7);
    assert {} + {SHELL} == {SHELL} && {SHELL} + {SHELL} == {SHELL};
  }

  lemma MaskedLate()
    ensures BookAfter(MASKED[..8], ALL_OK) == Only(Y_RUN, {SEARCH})
    ensures BookAfter(MASKED, ALL_OK) == Only(YZ_RUN, {SEARCH})
  {
    MaskedMiddle();
    MaskedBook(7);
    FoundStep(map[], {SHELL}, "y", 8);
    assert Probes.With(map[], "y", Probes.Step(8)) == Y_RUN;
    MaskedBook(8);
    FoundStep(Y_RUN, {SEARCH}, "z", 9);
    assert Probes.With(Y_RUN, "z", Probes.Step(9)) == YZ_RUN;
    assert MASKED[..9] == MASKED;
  }

  lemma KeptLadder(run: map<string, Probes.Round>, args: string, step: nat)
    requires args !in run && Probes.Step(step) !in run.Values
    ensures Only(run, {SEARCH}).Ladder(SEARCH, args, Some(step)) == RunLadder(|run.Values| + 1, |run.Keys| + 1)
  {
    KeepsOwnFamily(Only(run, {SEARCH}));
    var none: map<string, Probes.Round> := map[];
    assert run == none ==> run.Values == {} && run.Keys == {};
  }

  lemma StaleLadder(run: map<string, Probes.Round>, progress: set<string>, args: string, step: nat)
    requires SHELL in progress || run == map[]
    ensures Only(run, progress).Ladder(SEARCH, args, Some(step)) == RunLadder(1, 1)
  {
    ShellIsNoProbe();
    var settled := Only(run, progress).Settled();
    if run != map[] { assert !Only(run, progress).Keeps(SEARCH); }
    assert settled.Run(SEARCH) == map[];
  }

  lemma SecondZ()
    ensures Only(Z_RUN, {SEARCH}).Ladder(SEARCH, "z", Some(2)) == RunLadder(1, 1)
  {
    KeepsOwnFamily(Only(Z_RUN, {SEARCH}));
    OneValue("z", Probes.Step(1));
  }

  lemma OneValue(args: string, round: Probes.Round)
    ensures map[args := round].Values == {round} && map[args := round].Keys == {args}
  {
    assert map[args := round][args] == round;
  }

  lemma TwoValues()
    ensures YZ_RUN.Values == {Probes.Step(8), Probes.Step(9)} && YZ_RUN.Keys == {"y", "z"}
  {
    assert YZ_RUN["y"] == Probes.Step(8) && YZ_RUN["z"] == Probes.Step(9);
  }

  /** The probe at step i + 1 reads the book as it stands after i events. */
  lemma LadderRead(i: nat, args: string, book: Probes.Book)
    requires i < |MASKED| && !MASKED[i].Composite? && MASKED[i].call == Search(args) && MASKED[i].round == Some(i + 1)
    requires BookAfter(MASKED[..i], ALL_OK) == book
    ensures Ladders(MASKED, ALL_OK)(i) == book.Ladder(SEARCH, args, Some(i + 1))
  {
  }

  lemma StaleAt(i: nat, args: string, run: map<string, Probes.Round>, progress: set<string>)
    requires i < |MASKED| && !MASKED[i].Composite? && MASKED[i].call == Search(args) && MASKED[i].round == Some(i + 1)
    requires BookAfter(MASKED[..i], ALL_OK) == Only(run, progress) && (SHELL in progress || run == map[])
    ensures Ladders(MASKED, ALL_OK)(i) == RunLadder(1, 1)
  {
    LadderRead(i, args, Only(run, progress));
    StaleLadder(run, progress, args, i + 1);
  }

  lemma MaskedFirst()
    requires BookAfter(MASKED[..0], ALL_OK) == Only(map[], {})
    ensures Ladders(MASKED, ALL_OK)(0) == RunLadder(1, 1)
  {
    StaleAt(0, "z", map[], {});
  }

  lemma MaskedFifth()
    requires BookAfter(MASKED[..4], ALL_OK) == Only(Z_RUN, {SEARCH, SHELL})
    ensures Ladders(MASKED, ALL_OK)(4) == RunLadder(1, 1)
  {
    StaleAt(4, "z", Z_RUN, {SEARCH, SHELL});
  }

  lemma MaskedSecond()
    requires BookAfter(MASKED[..1], ALL_OK) == Only(Z_RUN, {SEARCH})
    ensures Ladders(MASKED, ALL_OK)(1) == RunLadder(1, 1)
  {
    LadderRead(1, "z", Only(Z_RUN, {SEARCH}));
    SecondZ();
  }

  lemma MaskedLaddersEarly()
    ensures Ladders(MASKED, ALL_OK)(0) == Ladders(MASKED, ALL_OK)(1) == Ladders(MASKED, ALL_OK)(4) == RunLadder(1, 1)
  {
    MaskedEarly();
    MaskedFirst();
    MaskedSecond();
    MaskedFifth();
  }

  lemma MaskedLaddersLate()
    ensures Ladders(MASKED, ALL_OK)(7) == RunLadder(1, 1) && Ladders(MASKED, ALL_OK)(8) == RunLadder(2, 2)
    ensures LadderAfter(MASKED, ALL_OK, Search("w"), Some(10)) == RunLadder(3, 3)
  {
    MaskedMiddle();
    StaleAt(7, "y", map[], {SHELL});
    MaskedLate();
    LadderRead(8, "z", Only(Y_RUN, {SEARCH}));
    OneValue("y", Probes.Step(8));
    KeptLadder(Y_RUN, "z", 9);
    TwoValues();
    KeptLadder(YZ_RUN, "w", 10);
  }

  lemma MaskedProbe(i: nat)
    requires i < |MASKED| && IsProbe(MASKED[i], SEARCH)
    ensures i in {0, 1, 4, 7, 8}
  {
  }

  /** The ladders of the masked run are what its own book says at each probe and at the stop. */
  lemma MaskedLadders(i: nat)
    requires i == |MASKED| || (i < |MASKED| && IsProbe(MASKED[i], SEARCH))
    ensures MaskedLadder(i) ==
      if i < |MASKED| then Ladders(MASKED, ALL_OK)(i) else LadderAfter(MASKED, ALL_OK, Search("w"), Some(10))
  {
    if i < |MASKED| { MaskedProbe(i); }
    MaskedLaddersEarly();
    MaskedLaddersLate();
  }

  /** The ceiling stops that run, and by its own book no probe of it was ever warned. */
  lemma MaskedStopsUnwarned()
    ensures StopsAt(MASKED, ALL_OK, Derived(TIGHT), Search("w"), Some(10))
    ensures !ByRun(MASKED, ALL_OK, Derived(TIGHT), Search("w"), Some(10))
    ensures NeverWarned(MASKED, Derived(TIGHT), SEARCH, Ladders(MASKED, ALL_OK))
  {
    StoppedUnwarned();
    MaskedLadders(|MASKED|);
    TightLimits();
    forall i: nat | i < |MASKED| && IsProbe(MASKED[i], SEARCH)
      ensures !WarnedAt(MASKED, Derived(TIGHT), SEARCH, i, Ladders(MASKED, ALL_OK)(i))
    {
      MaskedLadders(i);
    }
  }
}
