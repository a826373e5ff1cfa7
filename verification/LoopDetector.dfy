/** The per-turn loop tracker: class `ToolLoopTracker` of src/agent/loop-detector.ts and its gate. */
module LoopDetector {
  import opened Wrappers
  import opened DistinctLists
  import opened OrderedMaps
  import opened LoopLimits
  import opened LoopHistory
  import opened LoopVerdicts
  import opened LoopRuns
  import opened LoopTraces
  import opened MutationEpochs
  import opened OutcomeRepeats
  import opened Recency
  import opened ReadCoverage
  import opened TestRepeats
  import Probes = ProbeRuns
  import Reads = ReadRepeats

  /** A completed call, as the tracker reads it. */
  datatype ToolResult = ToolResult(veto: bool, ok: bool, resultHash: string, summary: string, outcome: Outcome)

  /** What `recordOutcome` reports back. */
  datatype OutcomeCheck = OutcomeCheck(repeat: bool, count: nat, fingerprint: string)

  const NO_CHECK := OutcomeCheck(false, 0, "")

  /** What a successful read observed; `None` when it returned no lines. */
  datatype Observed = Observed(path: string, contentHash: string, numbered: bool, span: Option<Range>) {
    ghost predicate Valid() { span.Some? ==> Real(span.value) }

    ghost function Abstract(): Reads.Observation {
      Reads.Observation(path, Reads.Version(contentHash, numbered), if span.Some? then Lines(span.value) else {})
    }
  }

  datatype ReadEntry = ReadEntry(contentHash: string, numbered: bool, covered: seq<Range>, noProgress: nat) {
    ghost function Abstract(): Reads.Coverage {
      Reads.Coverage(Reads.Version(contentHash, numbered), LinesOf(covered), noProgress)
    }
  }

  type ReadTable = m: OrderedMap<string, ReadEntry> | m.Valid() witness OrderedMap([], map[])

  ghost function AbstractTable(m: ReadTable): Reads.Table {
    OrderedMap(m.keys, AbstractVals(m.vals))
  }

  ghost function AbstractVals(vals: map<string, ReadEntry>): map<string, Reads.Coverage> {
    map p | p in vals :: vals[p].Abstract()
  }

  lemma AbstractUpdate(vals: map<string, ReadEntry>, path: string, entry: ReadEntry)
    ensures AbstractVals(vals[path := entry]) == AbstractVals(vals)[path := entry.Abstract()]
    ensures AbstractVals(vals - {path}) == AbstractVals(vals) - {path}
  {
  }

  ghost predicate AllCanonical(m: ReadTable) {
    forall p :: p in m.vals ==> Canonical(m.vals[p].covered)
  }

  lemma UncoveredNone(covered: seq<Range>, span: Range)
    ensures Fresh(covered, span) == 0 <==> Lines(span) <= LinesOf(covered)
  {
    if Fresh(covered, span) == 0 {
      assert Lines(span) - LinesOf(covered) == {};
      forall l | l in Lines(span) ensures l in LinesOf(covered) {
        assert l !in Lines(span) - LinesOf(covered);
      }
    }
    if Lines(span) <= LinesOf(covered) { assert Lines(span) - LinesOf(covered) == {}; }
  }

  lemma AbstractReinsert(m: ReadTable, path: string, entry: ReadEntry)
    ensures AbstractTable(m.Reinsert(path, entry)) == AbstractTable(m).Reinsert(path, entry.Abstract())
  {
    AbstractUpdate(m.vals, path, entry);
  }

  lemma AbstractEvict(m: ReadTable, cap: nat)
    ensures AbstractTable(m.Evict(cap)) == AbstractTable(m).Evict(cap)
  {
    if |m.keys| > cap {
      assert m.keys[0] in m.vals.Keys;
      AbstractUpdate(m.vals, m.keys[0], m.vals[m.keys[0]]);
    }
  }

  /** Whether a mutation attempt touched the file of this (normalized) path. */
  predicate Hits(moved: Targets, path: string) {
    match moved
    case Nothing => false
    case Anything => true
    case Paths(paths) => exists i :: 0 <= i < |paths| && SamePathTarget(paths[i], path)
  }

  ghost function Touched(m: ReadTable, moved: Targets, normalize: string -> string): set<string> {
    set p | p in m.vals && Hits(moved, normalize(p))
  }

  lemma TouchedExactly(m: ReadTable, moved: Targets, normalize: string -> string, path: string)
    requires path in m.vals
    ensures path in Touched(m, moved, normalize) <==> Hits(moved, normalize(path))
  {
  }

  /** The entries with the progress of the touched among `done` forgotten. */
  function Cleared(vals: map<string, ReadEntry>, touched: set<string>, done: set<string>): map<string, ReadEntry> {
    map p | p in vals :: if p in touched && p in done then vals[p].(noProgress := 0) else vals[p]
  }

  lemma ClearStep(vals: map<string, ReadEntry>, touched: set<string>, done: set<string>, path: string)
    requires path in vals
    ensures var now := Cleared(vals, touched, done);
      Cleared(vals, touched, done + {path}) ==
        if now[path].noProgress != 0 && path in touched then now[path := now[path].(noProgress := 0)] else now
  {
  }

  lemma ClearedTable(m: ReadTable, touched: set<string>, done: set<string>, after: ReadTable)
    requires AllCanonical(m) && m.vals.Keys <= done && after.keys == m.keys
    requires after.vals == Cleared(m.vals, touched, done)
    ensures AllCanonical(after) && AbstractTable(after) == Reads.Forgotten(AbstractTable(m), touched)
  {
    assert AbstractTable(after).vals == Reads.Forgotten(AbstractTable(m), touched).vals;
  }

  ghost function AbstractEntry(found: Option<ReadEntry>): Option<Reads.Coverage> {
    if found.Some? then Some(found.value.Abstract()) else None
  }

  /** The entry `recordRead` builds from ranges is the fold of the lines. */
  ghost predicate Folds(found: Option<ReadEntry>, o: Observed, entry: ReadEntry) {
    var same := found.Some? && found.value.contentHash == o.contentHash && found.value.numbered == o.numbered;
    var before := if same then LinesOf(found.value.covered) else {};
    && entry.contentHash == o.contentHash && entry.numbered == o.numbered
    && Canonical(entry.covered)
    && LinesOf(entry.covered) == before + o.Abstract().lines
    && entry.noProgress == if same && o.Abstract().lines <= before then found.value.noProgress + 1 else 0
  }

  lemma FoldedEntry(found: Option<ReadEntry>, o: Observed, entry: ReadEntry)
    requires Folds(found, o, entry)
    ensures entry.Abstract() == Reads.Folded(AbstractEntry(found), o.Abstract())
  {
  }

  lemma FoldedTable(m: ReadTable, o: Observed, entry: ReadEntry)
    requires AllCanonical(m) && Folds(m.Get(o.path), o, entry)
    ensures var after := m.Reinsert(o.path, entry).Evict(Reads.MAX_TRACKED_READ_FILES);
      AllCanonical(after) && AbstractTable(after) == Reads.Recorded(AbstractTable(m), o.Abstract())
  {
    assert AbstractTable(m).Get(o.path) == AbstractEntry(m.Get(o.path));
    FoldedEntry(m.Get(o.path), o, entry);
    AbstractReinsert(m, o.path, entry);
    AbstractEvict(m.Reinsert(o.path, entry), Reads.MAX_TRACKED_READ_FILES);
    StillCanonical(m, o.path, entry, Reads.MAX_TRACKED_READ_FILES);
  }

  lemma StillCanonical(m: ReadTable, path: string, entry: ReadEntry, cap: nat)
    requires AllCanonical(m) && Canonical(entry.covered)
    ensures AllCanonical(m.Reinsert(path, entry).Evict(cap))
  {
  }

  /** A report of one more outcome: never above the true count since the write, and exact within the cap. */
  ghost predicate Truthful(check: OutcomeCheck, before: seq<Outcome>, outcome: Outcome) {
    match outcome
    case Write => check == NO_CHECK
    case Other(f) =>
      var truth := Occurrences(SinceWrite(before + [outcome]), f);
      && check.fingerprint == f
      && (check.repeat <==> check.count >= OUTCOME_REPEAT_WARNING_THRESHOLD)
      && check.count <= truth
      && (|ByRecency(SinceWrite(before))| <= MAX_TRACKED_OUTCOMES ==> check.count == truth)
  }

  ghost function SpanLines(span: Option<Range>): set<int> { if span.Some? then Lines(span.value) else {} }

  /** How many lines of the span are new, and the coverage with them; an empty read changes nothing. */
  method FoldSpan(covered: seq<Range>, span: Option<Range>) returns (uncovered: int, merged: seq<Range>)
    requires Canonical(covered) && (span.Some? ==> Real(span.value))
    ensures uncovered == 0 <==> SpanLines(span) <= LinesOf(covered)
    ensures Canonical(merged) && LinesOf(merged) == LinesOf(covered) + SpanLines(span)
  {
    if span.None? { return 0, covered; }
    uncovered := NewlyCoveredCount(covered, span.value);
    UncoveredNone(covered, span.value);
    merged := MergeRange(covered, span.value);
  }

  /** The entry a read leaves behind for its file. */
  method FoldEntry(found: Option<ReadEntry>, o: Observed) returns (entry: ReadEntry)
    requires o.Valid() && (found.Some? ==> Canonical(found.value.covered))
    ensures Folds(found, o, entry)
  {
    var same := found.Some? && found.value.contentHash == o.contentHash && found.value.numbered == o.numbered;
    var covered := if same then found.value.covered else [];
    assert covered == [] ==> LinesOf(covered) == {};
    var uncovered, merged := FoldSpan(covered, o.span);
    entry := ReadEntry(o.contentHash, o.numbered, merged,
                       if same && uncovered == 0 then found.value.noProgress + 1 else 0);
  }

  method ReadVerdict(found: Option<ReadEntry>, o: Observed) returns (verdict: Reads.Verdict)
    requires o.Valid() && (found.Some? ==> Canonical(found.value.covered))
    ensures verdict == Reads.Verdicted(AbstractEntry(found), o.Abstract())
  {
    if found.None? { return Reads.NewText; }
    var prev := found.value;
    if prev.contentHash != o.contentHash || prev.numbered != o.numbered { return Reads.NewText; }
    var uncovered := 0;
    if o.span.Some? {
      uncovered := NewlyCoveredCount(prev.covered, o.span.value);
      UncoveredNone(prev.covered, o.span.value);
    }
    if uncovered > 0 { return Reads.NewText; }
    verdict := Reads.Repeat(prev.noProgress + 1);
  }

  lemma TrippedByRun(g: Gate, landed: seq<Landing>, call: Call, breaker: nat)
    requires LoopTraces.Counts(g.vetoed, g.vetoes, landed) && breaker >= 1
    ensures Tripped(g, call, breaker) <==> VetoRun(landed, call) >= breaker
  {
  }

  /** The window and the veto run once an outcome of the call is in. */
  function AfterLanding(g: Gate, call: Call, epoch: Option<nat>, round: Option<nat>, patch: Patch, size: nat): Gate {
    var patched := g.(history := AfterOutcome(g.history, call, epoch, round, patch, size));
    if patch.Vetoed? then NoteVeto(patched, call) else NoteRun(patched, call)
  }

  function PatchOf(result: ToolResult): Patch {
    if result.veto then Vetoed else Finished(result.resultHash)
  }

  class ToolLoopTracker {
    const limits: Limits
    /** `normalizeLoopPath`. */
    const normalize: string -> string
    /** `readTargetPath` and `mutationTargets`. */
    const readTarget: Call -> Option<string>
    const mutationTargets: Call -> Targets
    const probeRuns: Probes.ProbeRuns
    const mutations: MutationEpochs
    const tests: TestRuns
    var history: seq<Entry>
    var vetoed: Option<Call>
    var vetoes: nat
    var stepRound: Option<nat>
    var lastStepIndex: Option<nat>
    var outcomeCounts: Counts
    var readCoverage: ReadTable
    /** Every call recorded and every outcome landed, vetoes included, since the turn began. */
    ghost var events: seq<Event>
    ghost var landed: seq<Landing>
    /** Every non-vetoed outcome, and every read and mutation attempt. */
    ghost var outcomeTrace: seq<Outcome>
    ghost var readTrace: seq<Reads.Event>

    ghost predicate Valid()
      reads this, probeRuns, mutations, tests
    {
      CoreValid() && tests.Valid()
    }

    /** All but the test commands. */
    ghost predicate CoreValid()
      reads this, probeRuns, mutations
    {
      WindowValid() && VetoesValid() && CountsValid() && ReadsValid() && probeRuns.Valid() && mutations.Valid()
    }

    /** The window is what the latest events left. */
    ghost predicate WindowValid()
      reads this`history, this`events
    {
      Ladder(limits) && history == Window(events, limits.historySize)
    }

    /** The veto counter is the number of vetoes of its call since another call's outcome landed. */
    ghost predicate VetoesValid()
      reads this`vetoed, this`vetoes, this`landed
    {
      LoopTraces.Counts(vetoed, vetoes, landed)
    }

    ghost predicate CountsValid()
      reads this`outcomeCounts, this`outcomeTrace
    {
      outcomeCounts == AfterOutcomes(outcomeTrace)
    }

    ghost predicate ReadsValid()
      reads this`readCoverage, this`readTrace
    {
      AllCanonical(readCoverage) && AbstractTable(readCoverage) == Reads.AfterEvents(readTrace)
    }

    /** The part the veto gate works on. */
    ghost function GateState(): Gate
      reads this`history, this`vetoed, this`vetoes
    {
      Gate(history, vetoed, vetoes)
    }

    ghost function ReadState(): Reads.Table
      reads this`readCoverage
    {
      AbstractTable(readCoverage)
    }

    /** What the run bookkeeping would say of the call now. */
    ghost function LadderOf(call: Call): RunLadder
      reads this`stepRound, probeRuns
    {
      probeRuns.State().Ladder(call.tool, call.args, stepRound)
    }

    /** The mutation epoch the call would be made in now; only reads have one. */
    ghost function EpochOf(call: Call): Option<nat>
      reads mutations
    {
      match readTarget(call)
      case None => None
      case Some(path) => Some(Epoch(mutations.State(), path))
    }

    constructor (options: Options, normalize: string -> string,
                 readTarget: Call -> Option<string>, mutationTargets: Call -> Targets)
      ensures Valid() && fresh(probeRuns) && fresh(mutations) && limits == Derived(options) && GateState() == FRESH
      ensures this.normalize == normalize && this.readTarget == readTarget && this.mutationTargets == mutationTargets
      ensures events == [] && landed == [] && outcomeTrace == [] && readTrace == [] && probeRuns.trace == []
      ensures fresh(tests) && tests.trace == []
      ensures stepRound == None && probeRuns.State() == Probes.EMPTY
      ensures mutations.All() == Attempts(Ledger(0, 0, 0, OrderedMap([], map[])), 0, OrderedMap([], map[]))
    {
      EveryOptionSetClimbs(options);
      limits, this.normalize := Derived(options), normalize;
      this.readTarget, this.mutationTargets := readTarget, mutationTargets;
      history, vetoed, vetoes := [], None, 0;
      stepRound, lastStepIndex := None, None;
      outcomeCounts, readCoverage := NO_COUNTS, OrderedMap([], map[]);
      events, landed, outcomeTrace, readTrace := [], [], [], [];
      probeRuns := new Probes.ProbeRuns();
      mutations := new MutationEpochs();
      tests := new TestRuns();
    }

    /** `readEpoch`. */
    method ReadEpoch(call: Call) returns (epoch: Option<nat>)
      requires mutations.Valid()
      ensures epoch == EpochOf(call)
      ensures epoch.Some? <==> readTarget(call).Some?
      ensures epoch.Some? ==> IsEpoch(mutations.State(), readTarget(call).value, epoch.value)
    {
      var target := readTarget(call);
      if target.None? { return None; }
      var e := mutations.EpochFor(target.value);
      epoch := Some(e);
    }

    /** The two reads of the run bookkeeping; the first settles it. */
    method ReadLadder(call: Call) returns (ladder: RunLadder)
      requires probeRuns.Valid()
      modifies probeRuns
      ensures probeRuns.Valid() && probeRuns.State() == old(probeRuns.State()).Settled()
      ensures ladder == old(LadderOf(call)) && ladder.rounds <= ladder.spread
    {
      Probes.RoundsAtMostSpread(probeRuns.State(), call.tool, call.args, stepRound);
      Probes.SettledTwice(probeRuns.State());
      var spread := probeRuns.Spread(call.tool, call.args);
      var rounds := probeRuns.Rounds(call.tool, call.args, stepRound);
      ladder := RunLadder(rounds, spread);
    }

    /** `check`: classifies a prospective call against the history so far. */
    method Check(call: Call, epoch: Option<nat>) returns (verdict: Verdict)
      requires probeRuns.Valid()
      modifies probeRuns
      ensures probeRuns.Valid()
      ensures probeRuns.State() in {old(probeRuns.State()), old(probeRuns.State()).AskedOf(call.tool)}
      ensures verdict == Classified(history, limits, Key(call, epoch), stepRound, old(LadderOf(call)))
    {
      Probes.SettledTwice(probeRuns.State());
      var count, latest := GetNoProgressStreak(history, Key(call, epoch));
      if count >= limits.critical { return Verdict(Critical, count, NoProgress); }
      if IsWanderingProneTool(call.tool) {
        var earlier := GetRepeatCount(history, Key(call, None));
        var ladder := ReadLadder(call);
        var spread := ladder.spread;
        var warned := ladder.rounds >= limits.wandering;
        if !warned {
          spread := EffectiveSpread(history, call, stepRound);
          warned := spread >= limits.windowWarning;
        }
        if warned && earlier == 0 { return Verdict(Warn, spread, Wandering); }
      }
      var repeats := GetRepeatCount(history, Key(call, epoch));
      if repeats >= limits.warning { return Verdict(Warn, repeats, GenericRepeat); }
      verdict := Verdict(Fine, 0, GenericRepeat);
    }

    /** `wanderingStop`: the run rule first, then the window ceiling. */
    method WanderingStop(call: Call) returns (stop: Stop)
      requires probeRuns.Valid()
      modifies probeRuns
      ensures probeRuns.Valid() && probeRuns.State() == old(probeRuns.State()).AskedOf(call.tool)
      ensures stop == Stopped(history, limits, call, stepRound, old(LadderOf(call)))
    {
      Probes.SettledTwice(probeRuns.State());
      if !IsWanderingProneTool(call.tool) { return Stop(false, 0, false); }
      var ladder := ReadLadder(call);
      if ladder.rounds >= limits.escalation { return Stop(true, ladder.spread, false); }
      var spread := EffectiveSpread(history, call, stepRound);
      if spread >= limits.ceiling { return Stop(true, spread, true); }
      stop := Stop(false, ladder.spread, false);
    }

    /** `noteStep`: a change of step index opens a new round. */
    method NoteStep(stepIndex: nat)
      modifies this`lastStepIndex, this`stepRound
      ensures lastStepIndex == Some(stepIndex)
      ensures stepRound == if old(lastStepIndex) == Some(stepIndex) then old(stepRound)
                           else Some(if old(stepRound).Some? then old(stepRound).value + 1 else 1)
    {
      if lastStepIndex == Some(stepIndex) { return; }
      lastStepIndex := Some(stepIndex);
      stepRound := Some(if stepRound.Some? then stepRound.value + 1 else 1);
    }

    method TrimHistory()
      modifies this`history
      ensures history == Trim(old(history), limits.historySize)
    {
      if |history| > limits.historySize {
        history := history[|history| - limits.historySize..];
      }
    }

    /** `recordCall`: a pending entry at the end of the window, until its outcome is in. */
    method RecordCall(call: Call, epoch: Option<nat>)
      requires WindowValid()
      modifies this`history, this`events
      ensures WindowValid() && history == AfterCall(old(history), call, epoch, stepRound, limits.historySize)
      ensures events == old(events) + [Abandoned(call, epoch, stepRound)]
    {
      OneMoreWindow(events, Abandoned(call, epoch, stepRound), limits.historySize);
      events := events + [Abandoned(call, epoch, stepRound)];
      history := history + [Entry(call, epoch, stepRound, None, false)];
      TrimHistory();
    }

    /** The backward search, and the append when nothing is pending. */
    method PatchEntry(call: Call, epoch: Option<nat>, patch: Patch)
      modifies this`history
      ensures history == AfterOutcome(old(history), call, epoch, stepRound, patch, limits.historySize)
    {
      var i := |history| - 1;
      while i >= 0
        invariant -1 <= i < |history| && history == old(history)
        invariant PendingIndex(history, call) == PendingIndex(history[..i + 1], call)
      {
        var entry := history[i];
        assert history[..i + 1][..i] == history[..i];
        if Pending(entry, call) {
          history := history[i := Patched(entry, patch)];
          return;
        }
        i := i - 1;
      }
      history := history + [Patched(Entry(call, epoch, stepRound, None, false), patch)];
      TrimHistory();
    }

    /** `patchLatestPending`: in the past, the event that left the entry becomes one that was answered. */
    method PatchLatestPending(call: Call, epoch: Option<nat>, patch: Patch)
      requires WindowValid()
      modifies this`history, this`events
      ensures WindowValid() && history == AfterOutcome(old(history), call, epoch, stepRound, patch, limits.historySize)
      ensures events == Answered(old(events), call, epoch, stepRound, patch, limits.historySize)
    {
      ghost var past := Answered(events, call, epoch, stepRound, patch, limits.historySize);
      assert Window(past, limits.historySize) ==
        AfterOutcome(history, call, epoch, stepRound, patch, limits.historySize) by {
        AnsweredWindow(events, call, epoch, stepRound, patch, limits.historySize);
      }
      PatchEntry(call, epoch, patch);
      events := past;
    }

    method BumpVetoes(call: Call)
      requires VetoesValid()
      modifies this`vetoed, this`vetoes, this`landed
      ensures VetoesValid() && landed == old(landed) + [Landing(call, true)]
      ensures GateState() == NoteVeto(old(GateState()), call)
    {
      VetoCounts(GateState(), landed, call);
      landed := landed + [Landing(call, true)];
      if vetoed == Some(call) {
        vetoes := vetoes + 1;
      } else {
        vetoed, vetoes := Some(call), 1;
      }
    }

    /** A result ends the veto run of any other call. */
    method EndOtherVetoes(call: Call)
      requires VetoesValid()
      modifies this`vetoed, this`vetoes, this`landed
      ensures VetoesValid() && landed == old(landed) + [Landing(call, false)]
      ensures GateState() == NoteRun(old(GateState()), call)
    {
      RunCounts(GateState(), landed, call);
      landed := landed + [Landing(call, false)];
      if vetoed.Some? && vetoed != Some(call) {
        vetoed, vetoes := None, 0;
      }
    }

    /** An outcome in the window: the entry gets its result, or stays without one when it was vetoed. */
    method Land(call: Call, epoch: Option<nat>, patch: Patch)
      requires WindowValid() && VetoesValid()
      modifies this`history, this`events, this`vetoed, this`vetoes, this`landed
      ensures WindowValid() && VetoesValid()
      ensures GateState() == AfterLanding(old(GateState()), call, epoch, stepRound, patch, limits.historySize)
      ensures events == Answered(old(events), call, epoch, stepRound, patch, limits.historySize)
      ensures landed == old(landed) + [Landing(call, patch.Vetoed?)]
    {
      PatchLatestPending(call, epoch, patch);
      if patch.Vetoed? { BumpVetoes(call); } else { EndOtherVetoes(call); }
    }

    /** `vetoStreak`: the vetoes of this call since an outcome of another call last landed. */
    method VetoStreak(call: Call) returns (count: nat)
      requires VetoesValid()
      ensures count == VetoRun(landed, call)
    {
      count := if vetoed == Some(call) then vetoes else 0;
    }

    /**
     * `isBreakerTripped`: as many vetoes of this call have landed as it takes, uninterrupted by another call's outcome.
     */
    method IsBreakerTripped(call: Call) returns (tripped: bool)
      requires WindowValid() && VetoesValid()
      ensures tripped <==> VetoRun(landed, call) >= limits.breaker
      ensures tripped == Tripped(GateState(), call, limits.breaker)
    {
      tripped := vetoed == Some(call) && vetoes >= limits.breaker;
    }

    /**
     * `noteOutcomeFingerprint`: a landed write clears every count; anything else bumps its own. The count
     * reported never exceeds the true one since the write, and is exact within the cap.
     */
    method NoteOutcome(outcome: Outcome) returns (check: OutcomeCheck)
      requires CountsValid()
      modifies this`outcomeCounts, this`outcomeTrace
      ensures CountsValid() && outcomeTrace == old(outcomeTrace) + [outcome]
      ensures Truthful(check, old(outcomeTrace), outcome)
    {
      OutcomesStep(outcomeTrace, outcome);
      if outcome.Other? { ReportedRepeat(outcomeTrace, outcome.fingerprint); }
      outcomeTrace := outcomeTrace + [outcome];
      if outcome.Write? {
        outcomeCounts := NO_COUNTS;
        return NO_CHECK;
      }
      var count := (match outcomeCounts.Get(outcome.fingerprint) case Some(c) => c case None => 0) + 1;
      outcomeCounts := outcomeCounts.Reinsert(outcome.fingerprint, count).Evict(MAX_TRACKED_OUTCOMES);
      check := OutcomeCheck(count >= OUTCOME_REPEAT_WARNING_THRESHOLD, count, outcome.fingerprint);
    }

    /** The read-coverage half of `noteMutationAttempt`: of each file the attempt touched. */
    method ForgetProgress(moved: Targets)
      requires ReadsValid()
      modifies this`readCoverage, this`readTrace
      ensures ReadsValid()
      ensures readTrace == if moved.Nothing? then old(readTrace)
                           else old(readTrace) + [Reads.Attempted(old(Touched(readCoverage, moved, normalize)))]
    {
      if moved.Nothing? { return; }
      ghost var touched := Touched(readCoverage, moved, normalize);
      ClearProgress(moved, touched);
      Reads.EventsStep(readTrace, Reads.Attempted(touched));
      readTrace := readTrace + [Reads.Attempted(touched)];
    }

    method ClearEntry(path: string, hit: bool)
      requires path in readCoverage.vals
      modifies this`readCoverage
      ensures readCoverage.keys == old(readCoverage).keys
      ensures var entry := old(readCoverage).vals[path];
        readCoverage.vals ==
          if entry.noProgress != 0 && hit then old(readCoverage).vals[path := entry.(noProgress := 0)]
          else old(readCoverage).vals
    {
      var entry := readCoverage.vals[path];
      assert path in readCoverage.vals.Keys;
      if entry.noProgress == 0 { return; }
      if hit { readCoverage := readCoverage.Set(path, entry.(noProgress := 0)); }
    }

    method ClearProgress(moved: Targets, ghost touched: set<string>)
      requires AllCanonical(readCoverage) && touched == Touched(readCoverage, moved, normalize)
      modifies this`readCoverage
      ensures AllCanonical(readCoverage) && ReadState() == Reads.Forgotten(old(ReadState()), touched)
    {
      ghost var before := readCoverage;
      ghost var done: set<string> := {};
      for i := 0 to |readCoverage.keys|
        invariant readCoverage.keys == before.keys && readCoverage.vals == Cleared(before.vals, touched, done)
        invariant done == Members(before.keys[..i])
      {
        var path := readCoverage.keys[i];
        assert path in readCoverage.vals.Keys;
        ClearStep(before.vals, touched, done, path);
        TouchedExactly(before, moved, normalize, path);
        done := done + {path};
        MembersStep(before.keys, i);
        ClearEntry(path, Hits(moved, normalize(path)));
      }
      assert before.keys[..|before.keys|] == before.keys;
      ClearedTable(before, touched, done, readCoverage);
    }

    /** `noteMutationAttempt`: the epochs of the attempt's paths, and the read progress on them. */
    method NoteMutationAttempt(call: Call, landed: bool)
      requires ReadsValid() && mutations.Valid()
      modifies this`readCoverage, this`readTrace, mutations
      ensures ReadsValid() && mutations.Valid() && Attempted(old(mutations.All()), call, landed, mutations.All())
      ensures readTrace == old(ReadsAfter(call, landed))
    {
      var moved := mutations.Note(mutationTargets(call), landed);
      ForgetProgress(moved);
    }

    /** The books differ as `note` says they do. */
    ghost predicate Attempted(before: Attempts, call: Call, landed: bool, after: Attempts) {
      && LedgerNoted(before, mutationTargets(call), landed, after.ledger)
      && FailuresNoted(before, mutationTargets(call), landed, after.anyFailures, after.failures)
    }

    /** The reads and attempts on record once the call has been noted: of each file it opened an epoch for. */
    ghost function ReadsAfter(call: Call, landed: bool): seq<Reads.Event>
      reads this`readCoverage, this`readTrace, mutations
    {
      var moved := Moved(mutations.All(), mutationTargets(call), landed);
      if moved.Nothing? then readTrace
      else readTrace + [Reads.Attempted(Touched(readCoverage, moved, normalize))]
    }

    /** What a landed result does beyond the window, the veto run and the reads. */
    method SettleCounts(call: Call, result: ToolResult) returns (check: OutcomeCheck)
      requires CountsValid() && probeRuns.Valid()
      modifies this`outcomeCounts, this`outcomeTrace, probeRuns
      ensures CountsValid() && probeRuns.Valid()
      ensures outcomeTrace == old(outcomeTrace) + [result.outcome] && Truthful(check, old(outcomeTrace), result.outcome)
      ensures probeRuns.trace == old(probeRuns.trace) + [Completed(call, result.ok)]
      ensures probeRuns.State() ==
        old(probeRuns.State()).Recorded(Probes.Completion(call.tool, call.args, result.ok, stepRound))
    {
      probeRuns.Record(Probes.Completion(call.tool, call.args, result.ok, stepRound));
      check := NoteOutcome(result.outcome);
    }

    ghost function Completed(call: Call, ok: bool): Probes.Happening
      reads this`stepRound
    {
      Probes.Done(Probes.Completion(call.tool, call.args, ok, stepRound))
    }

    /** The outcome in the window, with the epoch the call would have by now. */
    method LandNow(call: Call, patch: Patch)
      requires WindowValid() && VetoesValid() && mutations.Valid()
      modifies this`history, this`events, this`vetoed, this`vetoes, this`landed
      ensures WindowValid() && VetoesValid()
      ensures GateState() == AfterLanding(old(GateState()), call, EpochOf(call), stepRound, patch, limits.historySize)
      ensures events == Answered(old(events), call, EpochOf(call), stepRound, patch, limits.historySize)
      ensures landed == old(landed) + [Landing(call, patch.Vetoed?)]
    {
      var epoch := ReadEpoch(call);
      Land(call, epoch, patch);
    }

    /** The epochs a result moves, and its place in the window. */
    method LandResult(call: Call, result: ToolResult)
      requires WindowValid() && VetoesValid() && ReadsValid() && mutations.Valid()
      modifies this`history, this`events, this`vetoed, this`vetoes, this`landed, this`readCoverage, this`readTrace,
               mutations
      ensures WindowValid() && VetoesValid() && ReadsValid() && mutations.Valid()
      ensures var patch := Finished(result.resultHash);
        && GateState() == AfterLanding(old(GateState()), call, EpochOf(call), stepRound, patch, limits.historySize)
        && events == Answered(old(events), call, EpochOf(call), stepRound, patch, limits.historySize)
      ensures landed == old(landed) + [Landing(call, false)] && readTrace == old(ReadsAfter(call, result.ok))
      ensures Attempted(old(mutations.All()), call, result.ok, mutations.All())
    {
      NoteMutationAttempt(call, result.ok);
      LandNow(call, Finished(result.resultHash));
    }

    /** A result, as far as it is no veto: the epochs it moves, the window, and the counts. */
    method SettleResult(call: Call, result: ToolResult) returns (check: OutcomeCheck)
      requires WindowValid() && VetoesValid() && CountsValid() && ReadsValid() && probeRuns.Valid() && mutations.Valid()
      modifies this`history, this`events, this`vetoed, this`vetoes, this`landed, this`outcomeCounts, this`outcomeTrace,
               this`readCoverage, this`readTrace, probeRuns, mutations
      ensures WindowValid() && VetoesValid() && CountsValid() && ReadsValid() && probeRuns.Valid() && mutations.Valid()
      ensures var patch := Finished(result.resultHash);
        && GateState() == AfterLanding(old(GateState()), call, EpochOf(call), stepRound, patch, limits.historySize)
        && events == Answered(old(events), call, EpochOf(call), stepRound, patch, limits.historySize)
      ensures landed == old(landed) + [Landing(call, false)]
      ensures outcomeTrace == old(outcomeTrace) + [result.outcome] && Truthful(check, old(outcomeTrace), result.outcome)
      ensures readTrace == old(ReadsAfter(call, result.ok))
      ensures Attempted(old(mutations.All()), call, result.ok, mutations.All())
      ensures probeRuns.trace == old(probeRuns.trace) + [Completed(call, result.ok)]
      ensures probeRuns.State() ==
        old(probeRuns.State()).Recorded(Probes.Completion(call.tool, call.args, result.ok, stepRound))
    {
      LandResult(call, result);
      check := SettleCounts(call, result);
    }

    /** The outcome, but for the test commands. */
    method SettleOutcome(call: Call, result: ToolResult) returns (check: OutcomeCheck)
      requires CoreValid()
      modifies this`history, this`events, this`vetoed, this`vetoes, this`landed, this`outcomeCounts, this`outcomeTrace,
               this`readCoverage, this`readTrace, probeRuns, mutations
      ensures CoreValid()
      ensures GateState() ==
        AfterLanding(old(GateState()), call, EpochOf(call), stepRound, PatchOf(result), limits.historySize)
      ensures events == Answered(old(events), call, EpochOf(call), stepRound, PatchOf(result), limits.historySize)
      ensures landed == old(landed) + [Landing(call, result.veto)]
      ensures result.veto ==> outcomeTrace == old(outcomeTrace) && readTrace == old(readTrace) && check == NO_CHECK
      ensures result.veto ==> mutations.All() == old(mutations.All())
      ensures result.veto ==> probeRuns.trace == old(probeRuns.trace)
      ensures !result.veto ==> outcomeTrace == old(outcomeTrace) + [result.outcome]
      ensures !result.veto ==> Truthful(check, old(outcomeTrace), result.outcome)
      ensures !result.veto ==> readTrace == old(ReadsAfter(call, result.ok))
      ensures !result.veto ==> Attempted(old(mutations.All()), call, result.ok, mutations.All())
      ensures !result.veto ==> probeRuns.trace == old(probeRuns.trace) + [Completed(call, result.ok)]
      ensures probeRuns.State() ==
        if result.veto then old(probeRuns.State())
        else old(probeRuns.State()).Recorded(Probes.Completion(call.tool, call.args, result.ok, stepRound))
    {
      if result.veto {
        LandNow(call, Vetoed);
        assert CountsValid() && ReadsValid() && probeRuns.Valid() && mutations.Valid();
        return NO_CHECK;
      }
      check := SettleResult(call, result);
    }

    /**
     * `recordOutcome`: a veto only counts as a veto; a result lands in the window, joins or settles the probe
     * runs, and settles the veto run, the outcome counts, the mutation epochs and the read progress.
     */
    method RecordOutcome(call: Call, result: ToolResult) returns (check: OutcomeCheck)
      requires Valid()
      modifies this`history, this`events, this`vetoed, this`vetoes, this`landed, this`outcomeCounts, this`outcomeTrace,
               this`readCoverage, this`readTrace, probeRuns, mutations, tests
      ensures Valid()
      ensures tests.trace == old(tests.trace) + [TestEvent.Landed(call, result.veto, result.summary)]
      ensures GateState() ==
        AfterLanding(old(GateState()), call, EpochOf(call), stepRound, PatchOf(result), limits.historySize)
      ensures events == Answered(old(events), call, EpochOf(call), stepRound, PatchOf(result), limits.historySize)
      ensures landed == old(landed) + [Landing(call, result.veto)]
      ensures result.veto ==> outcomeTrace == old(outcomeTrace) && readTrace == old(readTrace) && check == NO_CHECK
      ensures result.veto ==> mutations.All() == old(mutations.All())
      ensures result.veto ==> probeRuns.trace == old(probeRuns.trace)
      ensures !result.veto ==> outcomeTrace == old(outcomeTrace) + [result.outcome]
      ensures !result.veto ==> Truthful(check, old(outcomeTrace), result.outcome)
      ensures !result.veto ==> readTrace == old(ReadsAfter(call, result.ok))
      ensures !result.veto ==> Attempted(old(mutations.All()), call, result.ok, mutations.All())
      ensures !result.veto ==> probeRuns.trace == old(probeRuns.trace) + [Completed(call, result.ok)]
      ensures probeRuns.State() ==
        if result.veto then old(probeRuns.State())
        else old(probeRuns.State()).Recorded(Probes.Completion(call.tool, call.args, result.ok, stepRound))
    {
      tests.NoteTestOutcome(call, result.veto, result.summary);
      assert CoreValid() && GateState() == old(GateState());
      assert ReadsAfter(call, result.ok) == old(ReadsAfter(call, result.ok));
      assert mutations.All() == old(mutations.All()) && probeRuns.State() == old(probeRuns.State());
      check := SettleOutcome(call, result);
    }

    /**
     * `checkReadRepeat`: a repeat is reported exactly if the read returned nothing that its file, at this version and
     * as long as it has been remembered, had not returned before; the count is of such reads in a row.
     */
    method CheckReadRepeat(o: Observed) returns (verdict: Reads.Verdict)
      requires Valid() && o.Valid()
      ensures verdict.Repeat? <==> Reads.NothingNew(readTrace, o.Abstract())
      ensures verdict.Repeat? ==> verdict.count == Reads.InARow(readTrace, o.path) + 1
      ensures verdict.Repeat? ==> forall line :: line in o.Abstract().lines ==>
        Reads.ReturnedBefore(readTrace, o.path, o.Abstract().version, line)
    {
      var found := readCoverage.Get(o.path);
      assert ReadState().Get(o.path) == AbstractEntry(found);
      verdict := ReadVerdict(found, o);
      Reads.VerdictExactly(readTrace, o.Abstract());
      if verdict.Repeat? { Reads.RepeatIsReal(readTrace, o.Abstract()); }
    }

    /** `recordRead`: fold the read into its file's coverage, most recently read last. */
    method RecordRead(o: Observed)
      requires Valid() && o.Valid()
      modifies this`readCoverage, this`readTrace
      ensures Valid() && readTrace == old(readTrace) + [Reads.Read(o.Abstract())]
      ensures ReadState() == Reads.Recorded(old(ReadState()), o.Abstract())
    {
      var entry := FoldEntry(readCoverage.Get(o.path), o);
      FoldedTable(readCoverage, o, entry);
      readCoverage := readCoverage.Reinsert(o.path, entry).Evict(Reads.MAX_TRACKED_READ_FILES);
      Reads.EventsStep(readTrace, Reads.Read(o.Abstract()));
      readTrace := readTrace + [Reads.Read(o.Abstract())];
    }

    /**
     * `runSyncLoopGate`: one call through the gate. A refused call is recorded and vetoed at once; an
     * admitted one is left pending for its outcome. What is signalled was really established, and a refusal
     * reports how many vetoes of the call stand.
     */
    method RunSyncLoopGate(call: Call, stepIndex: nat, test: Option<TestCommand>)
      returns (proceed: bool, signal: Option<LoopSignal>, repeat: Option<TestRepeat>)
      requires Valid()
      modifies this`history, this`events, this`vetoed, this`vetoes, this`landed, this`stepRound, this`lastStepIndex,
               probeRuns, tests
      ensures Valid()
      ensures lastStepIndex == Some(stepIndex)
      ensures Judged(old(GateState()), old(probeRuns.State()), Key(call, EpochOf(call)), stepRound, proceed, signal)
      ensures GateState() == AfterGate(old(GateState()), call, EpochOf(call), stepRound, proceed, limits.historySize)
      ensures events == old(events) + [GateEvent(call, EpochOf(call), stepRound, proceed)]
      ensures landed == if proceed then old(landed) else old(landed) + [Landing(call, true)]
      ensures !proceed ==> signal.value.blockedCount == VetoRun(landed, call) >= 1
      ensures signal.Some? && signal.value.kind.BreakerSignal? <==>
        VetoRun(old(landed), call) >= limits.breaker
        || Wanders(old(history), limits, call, stepRound,
                   old(probeRuns.State()).Ladder(call.tool, call.args, stepRound))
      ensures probeRuns.State() == old(probeRuns.State()).AskedOf(call.tool)
      ensures tests.trace == old(tests.trace) + TestsOf(call, test, proceed)
      ensures proceed && test.Some? ==> tests.trace == old(tests.trace) + [Dispatched(call, test.value)]
      ensures repeat == if proceed then Reported(old(tests.trace), test) else None
    {
      TrippedByRun(GateState(), landed, call, limits.breaker);
      proceed, signal := GateCall(call, stepIndex);
      repeat := tests.GateTest(call, test, proceed);
    }

    /** The gate, but for the test commands. */
    method GateCall(call: Call, stepIndex: nat) returns (proceed: bool, signal: Option<LoopSignal>)
      requires CoreValid()
      modifies this`history, this`events, this`vetoed, this`vetoes, this`landed, this`stepRound, this`lastStepIndex,
               probeRuns
      ensures CoreValid()
      ensures lastStepIndex == Some(stepIndex)
      ensures Judged(old(GateState()), old(probeRuns.State()), Key(call, EpochOf(call)), stepRound, proceed, signal)
      ensures GateState() == AfterGate(old(GateState()), call, EpochOf(call), stepRound, proceed, limits.historySize)
      ensures events == old(events) + [GateEvent(call, EpochOf(call), stepRound, proceed)]
      ensures landed == if proceed then old(landed) else old(landed) + [Landing(call, true)]
      ensures !proceed ==> signal.value.blockedCount == VetoRun(landed, call) >= 1
      ensures probeRuns.State() == old(probeRuns.State()).AskedOf(call.tool)
    {
      var epoch := ReadEpoch(call);
      proceed, signal := Decide(call, epoch, stepIndex);
    }

    /** The gate, as far as the window, the vetoes and the probe runs are concerned. */
    method Decide(call: Call, epoch: Option<nat>, stepIndex: nat) returns (proceed: bool, signal: Option<LoopSignal>)
      requires WindowValid() && VetoesValid() && probeRuns.Valid()
      modifies this`history, this`events, this`vetoed, this`vetoes, this`landed, this`stepRound, this`lastStepIndex,
               probeRuns
      ensures WindowValid() && VetoesValid() && probeRuns.Valid()
      ensures lastStepIndex == Some(stepIndex)
      ensures Judged(old(GateState()), old(probeRuns.State()), Key(call, epoch), stepRound, proceed, signal)
      ensures GateState() == AfterGate(old(GateState()), call, epoch, stepRound, proceed, limits.historySize)
      ensures events == old(events) + [GateEvent(call, epoch, stepRound, proceed)]
      ensures landed == if proceed then old(landed) else old(landed) + [Landing(call, true)]
      ensures !proceed ==> signal.value.blockedCount == VetoRun(landed, call) >= 1
      ensures probeRuns.State() == old(probeRuns.State()).AskedOf(call.tool)
    {
      var found: Option<LoopSignal>;
      proceed, found := Judge(call, epoch, stepIndex);
      var blocked := RecordVerdict(call, epoch, proceed);
      signal := if proceed then found else Some(found.value.(blockedCount := blocked));
    }

    /** What the gate finds of a call: whether it may run, and the signal that is due. */
    ghost predicate Judged(g: Gate, book: Probes.Book, key: Key, round: Option<nat>, proceed: bool,
                           signal: Option<LoopSignal>)
    {
      var ladder := book.Ladder(key.call.tool, key.call.args, round);
      && proceed == !Refuses(g, limits, key, Stopped(g.history, limits, key.call, round, ladder).escalated)
      && (proceed <==> signal.None? || signal.value.kind.WarnSignal?)
      && Due(signal, g.history, limits, key, round, ladder, Tripped(g, key.call, limits.breaker))
    }

    /** What the gate asks before it records the call. */
    method Judge(call: Call, epoch: Option<nat>, stepIndex: nat) returns (proceed: bool, found: Option<LoopSignal>)
      requires WindowValid() && VetoesValid() && probeRuns.Valid()
      modifies this`stepRound, this`lastStepIndex, probeRuns
      ensures probeRuns.Valid() && lastStepIndex == Some(stepIndex)
      ensures Judged(GateState(), old(probeRuns.State()), Key(call, epoch), stepRound, proceed, found)
      ensures probeRuns.State() == old(probeRuns.State()).AskedOf(call.tool)
    {
      NoteStep(stepIndex);
      ghost var book := probeRuns.State();
      var tripped, stop, verdict := Ask(call, epoch);
      proceed := !(verdict.level == Critical || tripped || stop.escalated);
      found := Signalled(tripped, stop, verdict, limits.breaker);
      SignalIsDue(history, limits, Key(call, epoch), stepRound, book.Ladder(call.tool, call.args, stepRound), tripped);
    }

    method Ask(call: Call, epoch: Option<nat>) returns (tripped: bool, stop: Stop, verdict: Verdict)
      requires WindowValid() && VetoesValid() && probeRuns.Valid()
      modifies probeRuns
      ensures probeRuns.Valid() && probeRuns.State() == old(probeRuns.State()).AskedOf(call.tool)
      ensures tripped == Tripped(GateState(), call, limits.breaker)
      ensures stop == Stopped(history, limits, call, stepRound, old(LadderOf(call)))
      ensures verdict == Classified(history, limits, Key(call, epoch), stepRound, old(LadderOf(call)))
    {
      Probes.SettledTwice(probeRuns.State());
      tripped := IsBreakerTripped(call);
      stop := WanderingStop(call);
      verdict := Check(call, epoch);
    }

    method RecordVerdict(call: Call, epoch: Option<nat>, proceed: bool) returns (blocked: nat)
      requires WindowValid() && VetoesValid()
      modifies this`history, this`events, this`vetoed, this`vetoes, this`landed
      ensures WindowValid() && VetoesValid()
      ensures GateState() == AfterGate(old(GateState()), call, epoch, stepRound, proceed, limits.historySize)
      ensures events == old(events) + [GateEvent(call, epoch, stepRound, proceed)]
      ensures landed == if proceed then old(landed) else old(landed) + [Landing(call, true)]
      ensures !proceed ==> blocked == VetoRun(landed, call) >= 1
    {
      blocked := 0;
      if proceed { RecordCall(call, epoch); } else { blocked := Refuse(call, epoch); }
    }

    /** A refusal: the call recorded and its veto landed at once. */
    method Refuse(call: Call, epoch: Option<nat>) returns (blocked: nat)
      requires WindowValid() && VetoesValid()
      modifies this`history, this`events, this`vetoed, this`vetoes, this`landed
      ensures WindowValid() && VetoesValid()
      ensures GateState() == NoteVeto(old(GateState()).(history :=
        AfterEvent(old(history), Refused(call, epoch, stepRound), limits.historySize)), call)
      ensures events == old(events) + [Refused(call, epoch, stepRound)]
      ensures landed == old(landed) + [Landing(call, true)]
      ensures blocked == VetoRun(landed, call) >= 1
    {
      EventIsCallThenOutcome(history, Refused(call, epoch, stepRound), epoch, limits.historySize);
      OneEvent(events, call, epoch, stepRound, epoch, Vetoed, limits.historySize);
      RecordCall(call, epoch);
      Land(call, epoch, Vetoed);
      blocked := VetoStreak(call);
      LandedMore(old(landed), Landing(call, true), call);
    }
  }

  lemma MovedHits(b: Attempts, targets: Targets, landed: bool, path: string)
    ensures Hits(Moved(b, targets, landed), path) <==> Opens(b, targets, landed, path)
  {
    if targets.Paths? {
      OpenedMembers(b.failures, targets.paths, landed, path);
      var names := Opened(b.failures, targets.paths, landed);
      assert forall t :: t in Members(names) <==> t in names;
    }
  }

  /** An attempt forgets the progress of exactly the files it opens an epoch for; if there are none, of none. */
  lemma ForgottenExactly(t: ToolLoopTracker, call: Call, landed: bool, path: string)
    requires path in t.readCoverage.vals
    ensures var opens := Opens(t.mutations.All(), t.mutationTargets(call), landed, t.normalize(path));
      || (t.ReadsAfter(call, landed) == t.readTrace && !opens)
      || exists touched ::
           t.ReadsAfter(call, landed) == t.readTrace + [Reads.Attempted(touched)] && (path in touched <==> opens)
  {
    var moved := Moved(t.mutations.All(), t.mutationTargets(call), landed);
    MovedHits(t.mutations.All(), t.mutationTargets(call), landed, t.normalize(path));
    TouchedExactly(t.readCoverage, moved, t.normalize, path);
    if !moved.Nothing? {
      var touched := Touched(t.readCoverage, moved, t.normalize);
      assert t.ReadsAfter(call, landed) == t.readTrace + [Reads.Attempted(touched)];
    }
  }
}
