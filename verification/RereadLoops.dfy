/** Re-reads of one file with failing edits between them: src/agent/progress/mutation-epochs.ts:3-26. */
module RereadLoops {
  import opened Wrappers
  import opened LoopLimits
  import opened LoopHistory
  import opened LoopVerdicts
  import opened LoopRuns
  import opened LoopTraces
  import opened LoopDetector
  import opened MutationEpochs
  import opened EpochBudgets
  import opened GatedCalls
  import Rules = StopRules

  // ----- what the window holds of the re-reads -----

  /** The read's key in the epoch it would be made in now. */
  ghost function KeyNow(t: ToolLoopTracker, read: Call): Key
    reads t.mutations
  {
    Key(read, t.EpochOf(read))
  }

  /** The last n entries of the window hold c equal results of the read in its epoch. */
  ghost predicate Gathered(t: ToolLoopTracker, read: Call, result: string, n: nat, c: nat)
    reads t`history, t.mutations
  {
    Held(t.history, KeyNow(t, read), result, n, c)
  }

  lemma HeldSkip(history: seq<Entry>, e: Entry, key: Key, result: string, n: nat, ran: nat, size: nat)
    requires Held(history, key, result, n, ran) && n < size && e.call != key.call
    ensures Held(Trim(history + [e], size), key, result, n + 1, ran)
  {
    var tail, after := history[|history| - n..], Trim(history + [e], size);
    assert after[|after| - (n + 1)..] == tail + [e];
    ResultsAppend(tail, e, key);
    assert Same(result, ran) + [] == Same(result, ran);
  }

  lemma HeldNone(history: seq<Entry>, key: Key, result: string)
    ensures Held(history, key, result, 0, 0)
  {
    assert history[|history|..] == [];
    assert Same(result, 0) == [];
  }

  /** The last re-read ran, the c + 1st in this epoch. */
  ghost predicate Gathers(t: ToolLoopTracker, read: Call, result: string, c: nat)
    reads t`history, t.mutations
  {
    c < t.limits.critical && Gathered(t, read, result, 2 * c + 1, c + 1)
  }

  lemma FullRefuses(g: Gate, l: Limits, key: Key, result: string, c: nat)
    requires Held(g.history, key, result, 2 * c, c)
    ensures c >= l.critical ==> Refuses(g, l, key, false) && Refuses(g, l, key, true)
  {
    HeldRun(g.history, key, result, 2 * c, c);
  }

  lemma HeldOnce(past: seq<Event>, key: Key, round: Option<nat>, result: string, c: nat, size: nat)
    requires result != "" && 2 * c < size && Held(Window(past, size), key, result, 2 * c, c)
    ensures Held(Window(past + [Ran(key.call, key.epoch, round, result)], size), key, result, 2 * c + 1, c + 1)
  {
    OneMoreWindow(past, Ran(key.call, key.epoch, round, result), size);
    HeldStep(Window(past, size), key, round, result, 2 * c, c, size);
  }

  /** The read again: a window that still holds as many equal results of its epoch as it takes refuses it. */
  method Reread(t: ToolLoopTracker, q: Request, ghost read: Call, ghost result: string, ghost c: nat)
    returns (ran: bool, ghost r: Event)
    requires t.Valid() && ReadsOnly(t, read) && t.readTarget(read).Some?
    requires q.call == read && !q.result.veto && q.result.resultHash == result != ""
    requires c <= t.limits.critical && 2 * t.limits.critical <= t.limits.historySize
    requires Gathered(t, read, result, 2 * c, c)
    modifies t, t.probeRuns, t.mutations, t.tests
    ensures t.Valid() && t.mutations.All() == old(t.mutations.All())
    ensures t.events == old(t.events) + [r] && Is(r, read, ran)
    ensures ran ==> Gathers(t, read, result, c)
  {
    ghost var key, past := KeyNow(t, read), t.events;
    FullRefuses(t.GateState(), t.limits, key, result, c);
    var runs, escalated := Send(t, q);
    ran, r := runs, EventOf(q, key.epoch, t.stepRound, runs);
    if runs { HeldOnce(past, key, t.stepRound, result, c, t.limits.historySize); }
  }

  /** A call of another kind that fails if it runs, and targets none but these paths. */
  ghost predicate Failing(t: ToolLoopTracker, q: Request, read: Call, names: seq<string>) {
    q.call != read && !q.result.veto && !q.result.ok && Confined(t.mutationTargets(q.call), names)
  }

  /** What comes between two re-reads; as long as it opens no epoch, the window keeps what it holds. */
  method Between(t: ToolLoopTracker, q: Request, ghost read: Call, ghost result: string, ghost n: nat, ghost c: nat)
    returns (ran: bool, ghost moved: bool, ghost e: Event)
    requires t.Valid() && !q.result.veto && q.call != read && n < t.limits.historySize
    requires Gathered(t, read, result, n, c)
    modifies t, t.probeRuns, t.mutations, t.tests
    ensures t.Valid() && Noted(t, old(t.mutations.All()), q, ran, t.mutations.All())
    ensures t.events == old(t.events) + [e] && Is(e, q.call, ran)
    ensures moved <==> t.mutations.State() != old(t.mutations.State())
    ensures Gathered(t, read, result, if moved then 0 else n + 1, if moved then 0 else c)
  {
    ghost var key, past, history := KeyNow(t, read), t.events, t.history;
    ghost var before, epoch := t.mutations.State(), t.EpochOf(q.call);
    var r, escalated := Send(t, q);
    ran := r;
    e := EventOf(q, epoch, t.stepRound, r);
    OneMoreWindow(past, e, t.limits.historySize);
    HeldSkip(history, Left(e), key, result, n, c, t.limits.historySize);
    moved := t.mutations.State() != before;
    if moved { HeldNone(t.history, KeyNow(t, read), result); }
  }

  // ----- how long it can go on -----

  /** The re-reads so far, against what is left of the budget and what the window has gathered in this epoch. */
  ghost predicate OnBudget(i: nat, critical: nat, left: nat, all: nat, c: nat) {
    c <= critical && left <= all && i + critical * left <= critical * all + c
  }

  lemma OnBudgetMore(i: nat, critical: nat, left: nat, left': nat, all: nat, c: nat, moved: bool)
    requires OnBudget(i, critical, left, all, c) && c < critical && left' <= left && (moved ==> left' < left)
    ensures OnBudget(i + 1, critical, left', all, if moved then 0 else c + 1)
  {
    var d := left - left';
    assert critical * left == critical * left' + critical * d;
    assert moved ==> critical * d >= critical;
  }

  lemma OnBudgetBound(i: nat, critical: nat, left: nat, all: nat, c: nat)
    requires OnBudget(i, critical, left, all, c)
    ensures i <= critical * all + c && critical * all + critical == critical * (all + 1)
  {
  }

  /** While the path has epochs to spare each such call opens one; then the re-reads gather. */
  ghost predicate Opening(i: nat, failed: nat, before: nat, c: nat) {
    (c > 0 ==> failed >= MAX_FAILED_EPOCHS) && i + Spare(failed) <= Spare(before) + c
  }

  lemma OpeningMore(t: ToolLoopTracker, b: Attempts, after: Attempts, edit: Request, names: seq<string>, name: string,
                    i: nat, before: nat, c: nat)
    requires HasRoom(b, names) && name in names && !edit.result.ok
    requires t.mutationTargets(edit.call) == Paths([name]) && t.Attempted(b, edit.call, false, after)
    requires Opening(i, FailuresIn(b.failures, name), before, c)
    ensures Opening(i + 1, FailuresIn(after.failures, name), before, if after.ledger != b.ledger then 0 else c + 1)
  {
    FailedOnce(b, after, name, names);
  }

  /** Where the alternation started: the epochs left to open, and the failures of the path so far. */
  datatype Start = Start(budget: nat, failed: nat)

  /** The account after i re-reads that ran, c of them counted in this epoch before the last. */
  ghost predicate OnTrack(b: Attempts, critical: nat, names: seq<string>, name: string, start: Start,
                          i: nat, c: nat, steady: bool)
  {
    && HasRoom(b, names) && OnBudget(i, critical, Budget(b, names), start.budget, c)
    && (steady ==> Opening(i, FailuresIn(b.failures, name), start.failed, c))
  }

  lemma OnTrackMore(b: Attempts, after: Attempts, critical: nat, names: seq<string>, name: string, start: Start,
                    i: nat, c: nat, steady: bool, still: bool)
    requires OnTrack(b, critical, names, name, start, i, c, steady) && c < critical && Spent(b, after, names)
    requires still ==> steady && Opening(i + 1, FailuresIn(after.failures, name), start.failed,
                                         if after.ledger != b.ledger then 0 else c + 1)
    ensures OnTrack(after, critical, names, name, start, i + 1, if after.ledger != b.ledger then 0 else c + 1, still)
  {
    OnBudgetMore(i, critical, Budget(b, names), Budget(after, names), start.budget, c, after.ledger != b.ledger);
  }

  /** The call tried just this path. */
  ghost predicate Names(t: ToolLoopTracker, q: Request, name: string) { t.mutationTargets(q.call) == Paths([name]) }

  lemma NotedSpends(t: ToolLoopTracker, b: Attempts, after: Attempts, q: Request, ran: bool, names: seq<string>)
    requires HasRoom(b, names) && Confined(t.mutationTargets(q.call), names) && !q.result.ok
    requires Noted(t, b, q, ran, after)
    ensures Spent(b, after, names)
  {
    if ran { FailedAttempt(b, after, t.mutationTargets(q.call), names); }
  }

  lemma AdvanceAccount(t: ToolLoopTracker, b: Attempts, after: Attempts, edit: Request, edited: bool,
                       names: seq<string>, name: string, start: Start, i: nat, c: nat, steady: bool)
    requires name in names && !edit.result.ok && c < t.limits.critical && Confined(t.mutationTargets(edit.call), names)
    requires OnTrack(b, t.limits.critical, names, name, start, i, c, steady) && Noted(t, b, edit, edited, after)
    ensures OnTrack(after, t.limits.critical, names, name, start, i + 1, if after.ledger != b.ledger then 0 else c + 1,
                    steady && edited && Names(t, edit, name))
  {
    var still := steady && edited && Names(t, edit, name);
    NotedSpends(t, b, after, edit, edited, names);
    if still { OpeningMore(t, b, after, edit, names, name, i, start.failed, c); }
    OnTrackMore(b, after, t.limits.critical, names, name, start, i, c, steady, still);
  }

  /** One call in between: whether it ran, and the books and the count of gathered results around it. */
  datatype Turn = Turn(edit: Request, edited: bool, before: Attempts, after: Attempts, c: nat, next: nat)

  ghost predicate Stepped(t: ToolLoopTracker, turn: Turn) {
    && turn.c < t.limits.critical && Noted(t, turn.before, turn.edit, turn.edited, turn.after)
    && turn.next == if turn.after.ledger != turn.before.ledger then 0 else turn.c + 1
  }

  function BookAt(turns: seq<Turn>, b: Attempts): Attempts { if turns == [] then b else turns[|turns| - 1].after }

  function CountAt(turns: seq<Turn>): nat { if turns == [] then 0 else turns[|turns| - 1].next }

  /** The calls in between, each starting where the one before it ended. */
  ghost predicate Trail(t: ToolLoopTracker, turns: seq<Turn>, b: Attempts) {
    turns == [] ||
    (var front, last := turns[..|turns| - 1], turns[|turns| - 1];
     Trail(t, front, b) && Stepped(t, last) && last.before == BookAt(front, b) && last.c == CountAt(front))
  }

  lemma TrailMore(t: ToolLoopTracker, turns: seq<Turn>, b: Attempts, turn: Turn)
    requires Trail(t, turns, b) && Stepped(t, turn) && turn.before == BookAt(turns, b) && turn.c == CountAt(turns)
    ensures Trail(t, turns + [turn], b) && BookAt(turns + [turn], b) == turn.after
    ensures CountAt(turns + [turn]) == turn.next
  {
    assert (turns + [turn])[..|turns|] == turns;
  }

  ghost predicate AllFailing(t: ToolLoopTracker, turns: seq<Turn>, read: Call, names: seq<string>) {
    forall k :: 0 <= k < |turns| ==> Failing(t, turns[k].edit, read, names)
  }

  /** Every call in between ran and tried just this path. */
  ghost predicate Steady(t: ToolLoopTracker, turns: seq<Turn>, name: string) {
    forall k :: 0 <= k < |turns| ==> turns[k].edited && Names(t, turns[k].edit, name)
  }

  lemma SteadyFront(t: ToolLoopTracker, turns: seq<Turn>, name: string)
    requires turns != []
    ensures var front, last := turns[..|turns| - 1], turns[|turns| - 1];
      Steady(t, turns, name) <==> Steady(t, front, name) && last.edited && Names(t, last.edit, name)
  {
    var front, last := turns[..|turns| - 1], turns[|turns| - 1];
    assert turns == front + [last];
  }

  ghost function StartOf(b: Attempts, names: seq<string>, name: string): Start {
    Start(Budget(b, names), FailuresIn(b.failures, name))
  }

  lemma {:induction false} TrailOnTrack(t: ToolLoopTracker, turns: seq<Turn>, b: Attempts, read: Call,
                                        names: seq<string>, name: string)
    requires Trail(t, turns, b) && AllFailing(t, turns, read, names) && HasRoom(b, names) && name in names
    ensures OnTrack(BookAt(turns, b), t.limits.critical, names, name, StartOf(b, names, name),
                    |turns|, CountAt(turns), Steady(t, turns, name))
  {
    if turns != [] {
      var n, front, last := |turns| - 1, turns[..|turns| - 1], turns[|turns| - 1];
      TrailOnTrack(t, front, b, read, names, name);
      assert Failing(t, last.edit, read, names);
      AdvanceAccount(t, last.before, last.after, last.edit, last.edited, names, name, StartOf(b, names, name),
                     n, last.c, Steady(t, front, name));
      SteadyFront(t, turns, name);
    }
  }

  lemma TrailBounds(t: ToolLoopTracker, turns: seq<Turn>, b: Attempts, read: Call, names: seq<string>, name: string)
    requires Trail(t, turns, b) && AllFailing(t, turns, read, names) && HasRoom(b, names) && name in names
    ensures CountAt(turns) <= t.limits.critical && |turns| <= t.limits.critical * (Budget(b, names) + 1)
    ensures CountAt(turns) < t.limits.critical ==> |turns| < t.limits.critical * (Budget(b, names) + 1)
    ensures Steady(t, turns, name) ==> |turns| <= t.limits.critical + MAX_FAILED_EPOCHS
  {
    var start := StartOf(b, names, name);
    assert OnBudget(|turns|, t.limits.critical, Budget(BookAt(turns, b), names), start.budget, CountAt(turns)) by {
      TrailOnTrack(t, turns, b, read, names, name);
    }
    OnBudgetBound(|turns|, t.limits.critical, Budget(BookAt(turns, b), names), start.budget, CountAt(turns));
    assert Steady(t, turns, name) ==>
      Opening(|turns|, FailuresIn(BookAt(turns, b).failures, name), start.failed, CountAt(turns)) by {
      TrailOnTrack(t, turns, b, read, names, name);
    }
  }

  /** What the past has become: re-reads that ran, each followed by its call, and a last re-read that ran or not. */
  ghost predicate Told(past: seq<Event>, events: seq<Event>, read: Call, turns: seq<Turn>, ran: bool) {
    && |events| == |past| + 2 * |turns| + 1 && events[..|past|] == past
    && (forall k :: 0 <= k < |turns| ==> Is(events[|past| + 2 * k], read, true)
                                         && Is(events[|past| + 2 * k + 1], turns[k].edit.call, turns[k].edited))
    && Is(events[|events| - 1], read, ran)
  }

  /** The event is this call, run or refused. */
  predicate Is(e: Event, call: Call, ran: bool) {
    if ran then e.Ran? && e.call == call else e.Refused? && e.call == call
  }

  lemma ToldMore(past: seq<Event>, events: seq<Event>, read: Call, turns: seq<Turn>, turn: Turn, e: Event, r: Event,
                 ran: bool)
    requires Told(past, events, read, turns, true) && Is(e, turn.edit.call, turn.edited) && Is(r, read, ran)
    ensures Told(past, events + [e] + [r], read, turns + [turn], ran)
  {
    var after := events + [e] + [r];
    forall k | 0 <= k < |turns| + 1
      ensures Is(after[|past| + 2 * k], read, true)
           && Is(after[|past| + 2 * k + 1], (turns + [turn])[k].edit.call, (turns + [turn])[k].edited)
    {
      if k < |turns| {
        assert after[|past| + 2 * k] == events[|past| + 2 * k];
        assert after[|past| + 2 * k + 1] == events[|past| + 2 * k + 1];
      }
    }
    assert after[..|past|] == events[..|past|];
  }

  /** The calls in between are the ones there were to make, in their order. */
  ghost predicate Makes(turns: seq<Turn>, edits: seq<Request>) {
    |turns| <= |edits| && forall k :: 0 <= k < |turns| ==> turns[k].edit == edits[k]
  }

  lemma MakesMore(turns: seq<Turn>, edits: seq<Request>, turn: Turn)
    requires Makes(turns, edits) && |turns| < |edits| && turn.edit == edits[|turns|]
    ensures Makes(turns + [turn], edits)
  {
  }

  /** The alternation so far, as the books and the past have it. */
  ghost predicate Alternated(t: ToolLoopTracker, b: Attempts, past: seq<Event>, read: Call, edits: seq<Request>,
                             now: Attempts, events: seq<Event>, turns: seq<Turn>, ran: bool)
  {
    && Makes(turns, edits) && Trail(t, turns, b) && BookAt(turns, b) == now && Told(past, events, read, turns, ran)
  }

  lemma AlternatedMore(t: ToolLoopTracker, b: Attempts, past: seq<Event>, read: Call, edits: seq<Request>,
                       now: Attempts, events: seq<Event>, turns: seq<Turn>, turn: Turn, e: Event, r: Event, ran: bool)
    requires Alternated(t, b, past, read, edits, now, events, turns, true) && |turns| < |edits|
    requires Stepped(t, turn) && turn.edit == edits[|turns|] && turn.before == now && turn.c == CountAt(turns)
    requires Is(e, turn.edit.call, turn.edited) && Is(r, read, ran)
    ensures Alternated(t, b, past, read, edits, turn.after, events + [e] + [r], turns + [turn], ran)
    ensures CountAt(turns + [turn]) == turn.next
  {
    MakesMore(turns, edits, turn);
    TrailMore(t, turns, b, turn);
    ToldMore(past, events, read, turns, turn, e, r, ran);
  }

  /** One call in between and the next re-read. */
  method Advance(t: ToolLoopTracker, edit: Request, q: Request, ghost read: Call, ghost result: string, ghost c: nat)
    returns (ran: bool, ghost turn: Turn, ghost e: Event, ghost r: Event)
    requires t.Valid() && ReadsOnly(t, read) && t.readTarget(read).Some? && result != ""
    requires q.call == read && q.result.resultHash == result && !q.result.veto && !edit.result.veto && edit.call != read
    requires 2 * t.limits.critical <= t.limits.historySize && Gathers(t, read, result, c)
    modifies t, t.probeRuns, t.mutations, t.tests
    ensures t.Valid() && (ran ==> Gathers(t, read, result, turn.next))
    ensures Stepped(t, turn) && turn.edit == edit && turn.c == c
    ensures turn.before == old(t.mutations.All()) && turn.after == t.mutations.All()
    ensures t.events == old(t.events) + [e] + [r] && Is(e, edit.call, turn.edited) && Is(r, read, ran)
  {
    ghost var b := t.mutations.All();
    var edited, moved, between := Between(t, edit, read, result, 2 * c + 1, c + 1);
    e := between;
    turn := Turn(edit, edited, b, t.mutations.All(), c, if moved then 0 else c + 1);
    ran, r := Reread(t, q, read, result, turn.next);
  }

  ghost predicate AllRereads(rereads: seq<Request>, read: Call, result: string) {
    forall i :: 0 <= i < |rereads| ==>
      rereads[i].call == read && !rereads[i].result.veto && rereads[i].result.resultHash == result
  }

  ghost predicate AllOthers(edits: seq<Request>, read: Call) {
    forall i :: 0 <= i < |edits| ==> !edits[i].result.veto && edits[i].call != read
  }

  /** Re-reads and calls in between, until a re-read is refused or there is nothing left to try. */
  method Alternate(t: ToolLoopTracker, read: Call, result: string, rereads: seq<Request>, edits: seq<Request>)
    returns (ran: nat, more: bool, ghost turns: seq<Turn>)
    requires t.Valid() && ReadsOnly(t, read) && t.readTarget(read).Some? && result != ""
    requires 2 * t.limits.critical <= t.limits.historySize && |rereads| == |edits| + 1
    requires AllRereads(rereads, read, result) && AllOthers(edits, read)
    modifies t, t.probeRuns, t.mutations, t.tests
    ensures t.Valid() && ran == |turns| && (more ==> ran == |edits| && CountAt(turns) < t.limits.critical)
    ensures Alternated(t, old(t.mutations.All()), old(t.events), read, edits, t.mutations.All(), t.events, turns, more)
  {
    ghost var b, past := t.mutations.All(), t.events;
    HeldNone(t.history, KeyNow(t, read), result);
    ghost var first;
    more, first := Reread(t, rereads[0], read, result, 0);
    ran, turns := 0, [];
    while more && ran < |edits|
      invariant t.Valid() && ran == |turns| <= |edits|
      invariant Alternated(t, b, past, read, edits, t.mutations.All(), t.events, turns, more)
      invariant more ==> Gathers(t, read, result, CountAt(turns))
    {
      ghost var now, events := t.mutations.All(), t.events;
      var again, turn, e, r := Advance(t, edits[ran], rereads[ran + 1], read, result, CountAt(turns));
      AlternatedMore(t, b, past, read, edits, now, events, turns, turn, e, r, again);
      more, ran, turns := again, ran + 1, turns + [turn];
    }
  }

  /** All of these fail, on none but these paths. */
  ghost predicate AllFail(t: ToolLoopTracker, edits: seq<Request>, read: Call, names: seq<string>) {
    forall i :: 0 <= i < |edits| ==> Failing(t, edits[i], read, names)
  }

  lemma FailAreOthers(t: ToolLoopTracker, edits: seq<Request>, read: Call, names: seq<string>)
    requires AllFail(t, edits, read, names)
    ensures AllOthers(edits, read)
  {
    forall i | 0 <= i < |edits| ensures !edits[i].result.veto && edits[i].call != read {
      assert Failing(t, edits[i], read, names);
    }
  }

  lemma MadeFail(t: ToolLoopTracker, turns: seq<Turn>, edits: seq<Request>, read: Call, names: seq<string>)
    requires Makes(turns, edits) && AllFail(t, edits, read, names)
    ensures AllFailing(t, turns, read, names)
  {
    forall k | 0 <= k < |turns| ensures Failing(t, turns[k].edit, read, names) {
      assert Failing(t, edits[k], read, names);
    }
  }

  /** The alternation cannot have gone on for long. */
  lemma AlternatedBounds(t: ToolLoopTracker, b: Attempts, past: seq<Event>, read: Call, edits: seq<Request>,
                         now: Attempts, events: seq<Event>, turns: seq<Turn>, more: bool,
                         names: seq<string>, name: string)
    requires Alternated(t, b, past, read, edits, now, events, turns, more) && AllFail(t, edits, read, names)
    requires HasRoom(b, names) && name in names && |edits| >= t.limits.critical * (Budget(b, names) + 1)
    requires more ==> |turns| == |edits| && CountAt(turns) < t.limits.critical
    ensures !more && |turns| <= t.limits.critical * (Budget(b, names) + 1)
    ensures Steady(t, turns, name) ==> |turns| <= t.limits.critical + MAX_FAILED_EPOCHS
  {
    MadeFail(t, turns, edits, read, names);
    TrailBounds(t, turns, b, read, names, name);
  }

  /**
   * A model that reads one file, gets one result, and between the reads fails at whatever it tries on these
   * paths: however its attempts differ, a re-read is refused, after at most critical re-reads for each epoch the
   * attempts can still open and for the one they end in. If it tries the same path every time and the gate lets
   * it, at most critical + 3 re-reads ran.
   */
  method RereadBetweenFailures(t: ToolLoopTracker, read: Call, result: string, rereads: seq<Request>,
                               edits: seq<Request>, ghost names: seq<string>, ghost name: string)
    returns (ran: nat, ghost turns: seq<Turn>)
    requires t.Valid() && ReadsOnly(t, read) && t.readTarget(read).Some? && result != ""
    requires 2 * t.limits.critical <= t.limits.historySize && HasRoom(t.mutations.All(), names) && name in names
    requires |rereads| == |edits| + 1 && AllRereads(rereads, read, result)
    requires |edits| >= t.limits.critical * (Budget(t.mutations.All(), names) + 1)
    requires AllFail(t, edits, read, names)
    modifies t, t.probeRuns, t.mutations, t.tests
    ensures t.Valid() && ran == |turns|
    ensures Alternated(t, old(t.mutations.All()), old(t.events), read, edits, t.mutations.All(), t.events, turns, false)
    ensures ran <= t.limits.critical * (old(Budget(t.mutations.All(), names)) + 1)
    ensures Steady(t, turns, name) ==> ran <= t.limits.critical + MAX_FAILED_EPOCHS
  {
    ghost var b, past := t.mutations.All(), t.events;
    FailAreOthers(t, edits, read, names);
    var more;
    ran, more, turns := Alternate(t, read, result, rereads, edits);
    AlternatedBounds(t, b, past, read, edits, t.mutations.All(), t.events, turns, more, names, name);
  }

  // ----- a window too short for that -----

  /** Calls that all ran: every other one the read, in one epoch, and each of the others new. */
  ghost predicate Alternates(events: seq<Event>, key: Key) {
    && (forall i :: 0 <= i < |events| ==> events[i].Ran? && !IsWanderingProneTool(events[i].call.tool))
    && forall i :: 0 <= i < |events| ==>
      && (i % 2 == 0 ==> Key(events[i].call, events[i].epoch) == key)
      && (i % 2 == 1 ==> forall j :: 0 <= j < i ==> events[j].call != events[i].call)
  }

  lemma {:induction false} SparseResults(history: seq<Entry>, key: Key)
    requires forall k :: 0 <= k < |history| - 1 ==> !(Matches(history[k], key) && Matches(history[k + 1], key))
    ensures |Results(history, key)| <= (|history| + 1) / 2
    ensures history != [] && !Matches(history[|history| - 1], key) ==> |Results(history, key)| <= |history| / 2
  {
    if history != [] { SparseResults(history[..|history| - 1], key); }
  }

  /** The i-th event, if it is one of those in between, left no entry of the read. */
  lemma OthersDiffer(events: seq<Event>, key: Key, i: nat)
    requires Alternates(events, key) && i < |events| && i % 2 == 1
    ensures !Matches(Left(events[i]), key)
  {
    assert events[0].call == key.call;
  }

  lemma AlternateEntry(events: seq<Event>, key: Key, window: seq<Entry>, k: nat, size: nat) returns (i: nat)
    requires Alternates(events, key) && window == Window(events, size) && k < |window|
    ensures i < |events| && i + |window| == |events| + k && (i % 2 == 1 ==> !Matches(window[k], key))
  {
    EntryOfEvent(events, window, k, size);
    i := |events| - |window| + k;
    if i % 2 == 1 { OthersDiffer(events, key, i); }
  }

  lemma NeverTwice(events: seq<Event>, key: Key, window: seq<Entry>, k: nat, size: nat)
    requires Alternates(events, key) && window == Window(events, size) && k + 1 < |window|
    ensures !(Matches(window[k], key) && Matches(window[k + 1], key))
  {
    var i := AlternateEntry(events, key, window, k, size);
    var j := AlternateEntry(events, key, window, k + 1, size);
    assert j == i + 1;
  }

  lemma LastIsOther(events: seq<Event>, key: Key, window: seq<Entry>, size: nat)
    requires Alternates(events, key) && |events| % 2 == 0 && window == Window(events, size) && window != []
    ensures !Matches(window[|window| - 1], key)
  {
    var i := AlternateEntry(events, key, window, |window| - 1, size);
  }

  lemma AlternateEntries(events: seq<Event>, key: Key, window: seq<Entry>, size: nat)
    requires Alternates(events, key) && |events| % 2 == 0 && window == Window(events, size)
    ensures forall k :: 0 <= k < |window| - 1 ==> !(Matches(window[k], key) && Matches(window[k + 1], key))
    ensures window != [] ==> !Matches(window[|window| - 1], key)
  {
    forall k | 0 <= k < |window| - 1 ensures !(Matches(window[k], key) && Matches(window[k + 1], key)) {
      NeverTwice(events, key, window, k, size);
    }
    if window != [] { LastIsOther(events, key, window, size); }
  }

  lemma NewCallIsFine(events: seq<Event>, key: Key, size: nat)
    requires forall j :: 0 <= j < |events| ==> events[j].Ran? && events[j].call != key.call
    ensures Streak(Window(events, size), key) == 0
  {
    var window := Window(events, size);
    forall k | 0 <= k < |window| ensures window[k].call != key.call { EntryOfEvent(events, window, k, size); }
    AbsentMeansNone(window, key);
  }

  /**
   * With a window of fewer than 2 * critical entries the gate lets every call of such an alternation through,
   * however long it is, although all its re-reads are in one epoch.
   */
  lemma ShortWindowMissesRereads(events: seq<Event>, l: Limits, key: Key, i: nat, ladder: RunLadder)
    requires Ladder(l) && l.historySize < 2 * l.critical && Alternates(events, key) && i < |events|
    ensures var window, e := Window(events[..i], l.historySize), events[i];
      !Refuses(Gate(window, None, 0), l, Key(e.call, e.epoch), Stopped(window, l, e.call, e.round, ladder).escalated)
  {
    var before, e := events[..i], events[i];
    if i % 2 == 0 {
      AlternateEntries(before, key, Window(before, l.historySize), l.historySize);
      WindowIsTail(before, l.historySize);
      SparseResults(Window(before, l.historySize), key);
    } else {
      NewCallIsFine(before, Key(e.call, e.epoch), l.historySize);
    }
  }

  const READ := "os.fs.read"
  const EDIT := "os.fs.edit"

  lemma FilesAreNoProbes()
    ensures !IsWanderingProneTool(READ) && !IsWanderingProneTool(EDIT) && READ != EDIT
  {
    assert READ[0] == 'o' && EDIT[0] == 'o' && "browser."[0] == 'b' && READ[6] == 'r' && EDIT[6] == 'e';
  }

  /** A read of one epoch, and between its repetitions edits of which no two are alike. */
  function Alternation(n: nat, read: Call, epoch: nat, result: string): seq<Event> {
    seq(n, (i: nat) => if i % 2 == 0 then Ran(read, Some(epoch), Some(i + 1), result)
                       else Ran(Call(EDIT, Rules.Name(i)), None, Some(i + 1), "no match"))
  }

  lemma AlternationAlternates(n: nat, args: string, epoch: nat, result: string)
    ensures Alternates(Alternation(n, Call(READ, args), epoch, result), Key(Call(READ, args), Some(epoch)))
  {
    FilesAreNoProbes();
    forall i: nat, j: nat | j < i ensures Rules.Name(i) != Rules.Name(j) {
      assert |Rules.Name(i)| == i && |Rules.Name(j)| == j;
    }
  }

  /** A critical threshold of 16, which the configuration admits, with the default window of 30. */
  const SIXTEEN: Options := Options(None, Some(16), None, None, None, None, None)

  /** However long the alternation, that tracker lets it all through. */
  lemma SixteenMissesRereads(n: nat, args: string, epoch: nat, result: string, i: nat, ladder: RunLadder)
    requires i < n
    ensures var l, events := Derived(SIXTEEN), Alternation(n, Call(READ, args), epoch, result);
      var window, e := Window(events[..i], l.historySize), events[i];
      && l.critical == 16
      && !Refuses(Gate(window, None, 0), l, Key(e.call, e.epoch), Stopped(window, l, e.call, e.round, ladder).escalated)
  {
    EveryOptionSetClimbs(SIXTEEN);
    AlternationAlternates(n, args, epoch, result);
    ShortWindowMissesRereads(Alternation(n, Call(READ, args), epoch, result), Derived(SIXTEEN),
                             Key(Call(READ, args), Some(epoch)), i, ladder);
  }
}
