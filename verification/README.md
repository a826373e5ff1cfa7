# Verification of the agent runtime's control logic

Dafny models of the parts of the repository whose correctness is argued over whole runs: the loop detector
that ends a turn which no longer makes progress, the step loop with its recoveries, the steering inbox, the
publication of the package repository, and the bounded arithmetic and small concurrent algorithms of the
evaluation harness. `dafny verify dfyconfig.toml` checks everything.

Code that changes state step by step is a class or a method with loops; each such member is proved against a
function that says what it computes, and the laws the code promises are lemmas about those functions, stated
over every input, every run and every interleaving, as far as possible in terms of the inputs and of what has
happened alone.

## The pieces

* **Loop detector** (`LoopLimits`, `LoopHistory`, `LoopCounts`, `LoopVerdicts`, `LoopRuns`, `LoopTraces`,
  `WanderingRuns`, `StopRules`, `ProbeRuns`, `OutcomeRepeats`, `TestRepeats`, `ReadCoverage`, `ReadRepeats`,
  `MutationEpochs`, `EpochBudgets`, `LoopDetector`, `GatedCalls`, `RereadLoops`). The class `ToolLoopTracker` holds a bounded
  window, a veto counter, the probe runs, the mutation epochs, the test runs and two bounded insertion-ordered
  maps (`OrderedMaps`). Ghost traces of every call recorded, outcome landed, read, test command and mutation
  attempt tie each of them to the past: the window is what the latest events left, the veto counter is the
  vetoes since another call's outcome landed. `GatedCalls` and `RereadLoops` send calls through it; `StopRules`
  puts both wandering rules on the bookkeeping a run makes of itself.
* **Step loop** (`TurnLog`, `TurnRecovery`, `RetryPlans`, `AgentLoop`, `TurnHistory`). `Iterated` is one iteration over
  an arbitrary world that answers every step with a result or a failure and reads the clock; `RunTurnInner` is the
  loop itself. Every recovery branch is modelled with its budgets, so termination needs no assumption about them.
  `TurnHistory` reads the control state of a turn, and how it ends, off what has happened in it.
* **Steering** (`Steering`). The inbox and a turn's use of it, under any interleaving of any sessions.
* **Package repository** (`RepositorySync`, `RepositoryLayout`). Contents are the set of paths they name; a
  client follows names through the bucket while the plan is carried out, and a run may crash after any step.
  `RepositorySync` holds for every naming; `RepositoryLayout` has the ranks, the code-unit order and the
  paths of the real one.
* **Summary budgets** (`Decimals`, `TextLines`, `ReadCaps`, `BatchSummaryCap`).
* **Statistics** (`Percentile`, `Bootstrap`, `InterJudge`, `StratifiedSample`), over exact integers and reals.
* **Harness concurrency** (`ReplyLines`, `Limiter`).
* **Shared** (`Wrappers`, `Numbers`, `Sorting`, `DistinctLists`, `Recency`).

## Where the code and its comments differ

* `src/agent/loop-detector.ts:191-194` says neither ladder can stop a turn that was never warned. That fails
  in two ways. First, the run ladder's warn may equal its stop: `wandering = wanderingEscalation` is accepted,
  and so is a wandering threshold of twelve with everything else at its default (`TwelveStopsUnwarned`). The
  run rule then fires at the very probe that first meets the rung; `SecondSearchStops` is the shortest such
  run. `GuaranteedExactly`: for an option set, every stop comes after a probe at a rung exactly if the run
  ladder's warn is below its stop or the window's rung is one. Second, `check` words a probe as wandering only
  if the call is not already in the window, and a refused call stays in the window without counting in the
  spread; `StoppedUnwarned` is a run in which that hides the rung. `UnwarnedByEitherExactly` has both: a stop
  comes unwarned exactly if every earlier probe at a rung repeated a call still in its window. For the ceiling,
  `UnwarnedStopExactly` and `WarnedBeforeStop` narrow that down to the first probe at the rung.
* `src/agent/progress/mutation-epochs.ts:20-25` says that re-reads alternated with ever-different failing
  edits are vetoed, and so are re-reads while only other files are edited. The first holds exactly for windows
  of at least twice the critical threshold (`RereadBetweenFailures`, `ShortWindowMissesRereads`); the default
  window of 30 meets that up to a critical threshold of 15 (`SixteenMissesRereads`). The second fails beyond
  the 200 paths tracked: the floor that eviction raises moves every file (`EditsElsewhere`).
  `RereadAfterAttempt` says exactly when a re-read is in a newer epoch.
* `src/agent/loop-detector.ts:526-532` says a test-repeat warning never cites a result from before a change.
  `CurrentThroughoutExactly`: it does not exactly if every result lands before its key is dispatched in another
  state, as when calls go one after another (`SendTested`). `OverlapQuotesOld` is two runs of one key at once
  for which it does.
* `scripts/linux-packaging.ts:409-410` orders the uploads "so a client never sees an index that names a file
  not uploaded yet". The uploads keep that for every new site whose files name only what is uploaded before
  them (`EveryMomentServes`; for a first publication `FirstPublishExactly` makes that an equivalence). The
  deletes that follow go in name order and promise nothing, and a run serves its clients throughout exactly if
  every entry point the new site drops is deleted before anything it leads to (`ServesThroughoutExactly`). The
  deb tree has that order by its names: `InRelease` and `Release` precede `main/` and `pool/`
  (`DebSuiteServes`). The rpm tree has it not: `packages/` and the checksummed metadata precede
  `repodata/repomd.xml`, so an rpm tree removed breaks after one delete (`RpmTreeBreaks`); and the key precedes
  the .repo file that names it (`RepoFileBreaks`). Those two cases are all there is in the layout
  (`LayoutBreaksExactly`). Two sites made by the same build have the same entry points and are not concerned
  (`KeptEntriesGoFirst`).
* `eval-memory/harness/inter-judge-stats.ts:16` calls quadratic kappa always at least unweighted kappa.
  `QuadraticCanBeLower` gives two items for which it is lower, and `QuadraticAtLeastUnweighted` says exactly
  when the claim holds.

## Model

| member | source | states |
|---|---|---|
| `LoopLimits.EveryOptionSetClimbs` | src/agent/loop-detector.ts:174-208 | for every option set the window ladder climbs (warn strictly below stop), the run ladder's warn is at most its stop, and the window can hold every rung |
| `LoopLimits.RunLadderClimbsExactly` | src/agent/loop-detector.ts:181-185 | the run ladder's warn is strictly below its stop exactly if the configured stop is above the configured warning, both with their defaults and floors |
| `LoopLimits.DerivedExactly` | src/agent/loop-detector.ts:174-213 | every option counts, or its default, down to its floor; the window holds every rung, its stop is the least integer of three fifths of it, its warning the nearest to the run ladder's share of that, at least two and below the stop |
| `LoopLimits.DefaultLimits` | src/agent/loop-detector.ts:174-213 | the limits of a tracker without options: 3, 5, 3, 6, 12, 30, 18, 9 and 10 |
| `LoopHistory.GetNoProgressStreak` | src/agent/loop-detector.ts:815-846 | the backward scan returns the length of the longest constant suffix of the results filtered by tool, arguments and epoch, and its value |
| `LoopHistory.TailRunIsLongest` | src/agent/loop-detector.ts:815-846 | a suffix of the results is constant exactly when it is no longer than the streak |
| `LoopCounts.StreakExactly` | src/agent/loop-detector.ts:815-846 | in terms of the window: from an index on all results of the call in its epoch agree exactly if they are no more than the streak |
| `LoopHistory.DroppingNeverRaises` | src/agent/loop-detector.ts:808-812 | forgetting the oldest history never raises a streak |
| `LoopHistory.GetRepeatCount` | src/agent/loop-detector.ts:848-860 | the loop counts every entry of one signature and epoch, whatever became of it |
| `LoopCounts.RepeatsExactly` | src/agent/loop-detector.ts:848-860 | which is the number of entries with this call and epoch |
| `LoopHistory.EffectiveSpread` | src/agent/loop-detector.ts:343-360 | the set the loop builds is the distinct completed arguments of the tool outside the round under way, joined by the prospective call |
| `LoopHistory.CallThenOutcome` | src/agent/loop-detector.ts:362-373 | a call recorded and then answered is one finished entry at the end of the trimmed window |
| `LoopRuns.StreakPlateaus` | src/agent/loop-detector.ts:84-88 | in every sequential run that obeys the veto gate no single-call streak ever passes the critical threshold |
| `LoopRuns.BreakerTrips` | src/agent/loop-detector.ts:84-88 | from any tracker state, re-emitting one call with one result trips the breaker within critical + breaker calls, at most critical of them executed, if the window holds critical + breaker - 1 entries |
| `LoopRuns.ShortWindowRunsMore` | src/agent/loop-detector.ts:186-190 | that bound on the window is exact: with any smaller window a fresh tracker executes the call more than critical times |
| `LoopRuns.EventIsCallThenOutcome` | src/agent/dispatch/batch-gates.ts:201-284 | one emission through the gate is one recorded call followed by its veto or its result |
| `LoopTraces.WindowIsTail` | src/agent/loop-detector.ts:808-812 | the window is what the latest events left, as many as it has room for |
| `LoopTraces.AnsweredWindow` | src/agent/loop-detector.ts:782-806 | an outcome that lands changes one event of the past, or adds one, and the window is the end of that past |
| `LoopTraces.OneEvent` | src/agent/loop-detector.ts:363-373 | a call recorded and then answered is one event of the past |
| `LoopTraces.VetoRunIsOfTheEnd` | src/agent/loop-detector.ts:677-693 | the veto run of a call counts the vetoes in the part of the past, up to now, in which no other call's outcome landed |
| `LoopVerdicts.SignalIsWarranted` | src/agent/dispatch/batch-gates.ts:262-292 | whatever is signalled, its kind, count and detector stand for a rung or cap that was really reached, and only refused calls are signalled as refused |
| `LoopVerdicts.ClassifiedExactly` | src/agent/loop-detector.ts:219-276 | when each classification comes, and its number: critical exactly by the streak, else wandering exactly at a warn rung, else a repeat exactly from the warning threshold on |
| `LoopVerdicts.StoppedExactly` | src/agent/loop-detector.ts:292-306 | a wandering rule stops a call exactly if its rounds in the run or its spread in the window reach the stop, and quotes the spread of the rule that fired, the run rule first |
| `LoopVerdicts.SignalIsDue` | src/agent/dispatch/batch-gates.ts:224-292 | what must be signalled, and no other: the breaker exactly if it has tripped or a wandering rule stops the call, a critical streak exactly if nothing else refuses it, a warning exactly if nothing refuses it and it is at a rung or repeated often enough; each with its number |
| `LoopVerdicts.FamiliesExactly` | src/agent/progress/wandering-spread.ts:36-41 | which tools belong to which family of probes, and that all others have none |
| `WanderingRuns.SpreadRisesByOne` | src/agent/loop-detector.ts:343-360 | with one probe per step round the window spread of a tool starts at one and rises by at most one per probe |
| `WanderingRuns.CeilingComesAfterRung` | src/agent/loop-detector.ts:191-208 | for every option set the ceiling rule fires only after the probe just before it met the window warn rung |
| `WanderingRuns.FirstWarnedExactly` | src/agent/loop-detector.ts:233-256 | in every run the first probe at the window warn rung is warned exactly unless the window holds that very call refused, unanswered or come back with nothing |
| `WanderingRuns.UnwarnedStopExactly` | src/agent/loop-detector.ts:191-194 | for every option set and every run, with one probe of the tool per round, that the ceiling stops: there was a first probe at the warn rung; the stop by the ceiling comes unwarned exactly if that very call was left open in the window and every other probe at a rung repeated a call still in the window |
| `WanderingRuns.WarnedBeforeStop` | src/agent/loop-detector.ts:308-322 | no turn is stopped by the ceiling unwarned whose first probe at the rung was not left open in the window |
| `WanderingRuns.RanMeansNotOpen` | src/agent/loop-detector.ts:308-322 | in particular none in which every call of the tool before came back with a result |
| `WanderingRuns.WordedExactly` | src/agent/loop-detector.ts:233-256 | `check` words a probe as wandering exactly when a ladder is at its warn rung and the call is not in the window |
| `WanderingRuns.StoppedUnwarned` | src/agent/loop-detector.ts:191-194 | a concrete run, each call in a step of its own, with one refused call in the window, that is stopped by the ceiling although no probe was ever given a wandering warning |
| `StopRules.RoundsRiseByOne` | src/agent/progress/wandering-spread.ts:103-117 | read from the run's own bookkeeping, the rounds measured at the probes of a tool start at most at one and rise by at most one per probe, and the run recorded never spans more |
| `StopRules.RunStopComesAfterRung` | src/agent/loop-detector.ts:308-322 | with its warn below its stop, the run rule fires only after an earlier probe of the tool met the run rung |
| `StopRules.StopFollowsRung` | src/agent/loop-detector.ts:191-208 | a stop by either rule, with one probe of the tool per round, follows a probe at a rung of either ladder, unless the run rule fired with its two thresholds equal |
| `StopRules.UnwarnedByEitherExactly` | src/agent/loop-detector.ts:191-194 | for every option set and every such run that either rule stops, ladders read from the run's own bookkeeping: the stop comes unwarned exactly if every earlier probe at a rung repeated a call still in its window; there was such a probe unless the run rule fired with equal thresholds |
| `StopRules.EqualThresholdsStopUnwarned` | src/agent/loop-detector.ts:191-194 | for every set of limits with equal run thresholds a run of searches in steps of their own, all answered and none refused, is stopped by the run rule with no probe at any rung before it |
| `StopRules.GuaranteedExactly` | src/agent/loop-detector.ts:191-194 | for every option set: no gated run, with one probe of the tool per round, is stopped before a probe of its tool has been at a rung, exactly if the run ladder's warn is below its stop or the window's rung is one |
| `StopRules.TwelveStopsUnwarned` | src/config/load-config.ts:327-332 | the wandering threshold alone raised to twelve, which the configuration admits, makes the run thresholds equal and admits such a run |
| `StopRules.SecondSearchStops` | src/agent/loop-detector.ts:308-322 | concretely, with both thresholds two, the second search of a turn is stopped, the first having been at no rung |
| `StopRules.MaskedLadders` | src/agent/progress/wandering-spread.ts:90-117 | the ladders of the run in `StoppedUnwarned` are what its own bookkeeping says at each probe and at the stop |
| `StopRules.MaskedStopsUnwarned` | src/agent/loop-detector.ts:191-194 | so by its own bookkeeping that run is stopped by the ceiling, not the run rule, and never warned |
| `LoopDetector.ToolLoopTracker.constructor` | src/agent/loop-detector.ts:174-213 | a fresh tracker has an empty window, no veto, no counts, no probe runs, no mutation epochs and the limits derived from its options |
| `LoopDetector.ToolLoopTracker.Check` | src/agent/loop-detector.ts:219-276 | critical by the streak, wandering by either ladder unless the call is a repeat, else by plain repeats |
| `LoopDetector.ToolLoopTracker.WanderingStop` | src/agent/loop-detector.ts:292-306 | the run rule first, then the window ceiling, with the spread of the rule that fired |
| `LoopDetector.ToolLoopTracker.NoteStep` | src/agent/loop-detector.ts:383-387 | a change of step index opens exactly one new round |
| `LoopDetector.ToolLoopTracker.RecordCall` | src/agent/loop-detector.ts:363-373 | a pending entry joins the window, and a call without an outcome the past; the window stays what the latest events left |
| `LoopDetector.ToolLoopTracker.PatchLatestPending` | src/agent/loop-detector.ts:782-806 | the backward search answers the latest pending entry of the call, or appends a finished one, and so does the past; the window stays what the latest events left |
| `LoopDetector.ToolLoopTracker.IsBreakerTripped` | src/agent/loop-detector.ts:664-675 | true exactly when at least breaker vetoes of this call have landed since an outcome of another call last did |
| `LoopDetector.ToolLoopTracker.VetoStreak` | src/agent/loop-detector.ts:677-693 | the number of vetoes of this call since an outcome of another call last landed |
| `LoopDetector.ToolLoopTracker.NoteOutcome` | src/agent/loop-detector.ts:476-503 | the reported count never exceeds the true number of sightings since the last write, and is exact while at most 200 fingerprints have come back |
| `LoopDetector.ToolLoopTracker.ReadEpoch` | src/agent/loop-detector.ts:398-402 | a read has the epoch of its file by the tracker's own mutation epochs, any other call none |
| `LoopDetector.ToolLoopTracker.NoteMutationAttempt` | src/agent/loop-detector.ts:404-426 | the attempt moves the epochs of its targets as `note` says and forgets the read progress on exactly what it opened |
| `LoopDetector.ToolLoopTracker.RecordOutcome` | src/agent/loop-detector.ts:428-474 | a veto only counts as a veto; a result lands in the window, joins or settles the probe runs, ends other calls' veto runs, is counted as an outcome, moves the mutation epochs of what it targets and forgets read progress on what that opened; either way the outcome answers the call's test command |
| `LoopDetector.ToolLoopTracker.CheckReadRepeat` | src/agent/loop-detector.ts:551-594 | by the past alone: a repeat is reported exactly if the read returned nothing that its file, at this version and as long as it has been remembered, had not returned before; the count is of such reads in a row |
| `LoopDetector.ToolLoopTracker.RecordRead` | src/agent/loop-detector.ts:596-632 | the read folds into its file's coverage, most recently read last, oldest file evicted |
| `LoopDetector.ToolLoopTracker.ForgetProgress` | src/agent/loop-detector.ts:404-426 | an attempt forgets the no-progress count of exactly the tracked files one of its targets may name, and keeps their lines |
| `LoopDetector.ForgottenExactly` | src/agent/loop-detector.ts:404-426 | what an attempt forgets: the progress of a tracked file exactly if the attempt landed, or had failed fewer than three times before, on a target that may name it |
| `LoopDetector.ToolLoopTracker.RunSyncLoopGate` | src/agent/dispatch/batch-gates.ts:201-322 | a call is refused exactly by a critical streak, a tripped breaker or a wandering rule; the signal is a breaker exactly if enough vetoes of the call stand by the past, or a wandering rule stops it; a refusal is recorded and vetoed at once and reports the vetoes of the call, at least one, an admitted call is left pending; an admitted test command is recorded, and reported as a repeat exactly if the runs in a row at its fingerprint, this one included, are at least two |
| `GatedCalls.Send` | src/agent/dispatch/batch-scheduler.ts:191-224 | one call through gate and outcome is one emission of the veto protocol, one event of the past, one step of the probe runs and, if it ran, one attempt on what it targets |
| `GatedCalls.SendWatched` | src/agent/loop-detector.ts:308-322 | of the tracker itself: if a wandering rule stops a call, in a step of its own, with one probe of the tool per round and the run warn below its stop, some earlier call of that tool was at a rung by the tracker's own past |
| `GatedCalls.SendTested` | src/agent/loop-detector.ts:526-532 | one call after another through the tracker: no warning about a test command ever quotes a result of an earlier state of the workspace than its latest run's |
| `GatedCalls.SendAll` | src/agent/loop-detector.ts:84-88 | whatever calls go through the tracker one after another, and whatever they answer, no single-call streak in its window passes critical |
| `GatedCalls.SendOverAndOver` | src/agent/loop-detector.ts:84-88 | whatever the tracker has seen, one call sent over and over with one result runs at most critical times, and the one after critical + breaker of them is answered with a breaker signal naming more vetoes than the breaker needs |
| `ProbeRuns.BatchOrderIrrelevant` | src/agent/progress/wandering-spread.ts:62-69 | the outcomes of one step leave the same runs in whatever order they come home |
| `ProbeRuns.RunExactly` | src/agent/progress/wandering-spread.ts:11-14 | the run of a probing tool holds exactly the signatures completed since a read found that a call of another family had succeeded |
| `ProbeRuns.RoundsAtMostSpread` | src/agent/progress/wandering-spread.ts:103-108 | a run never spans more rounds than its spread, and the spread is at least one |
| `ProbeRuns.ProbeRuns.Record` | src/agent/progress/wandering-spread.ts:72-88 | a success is progress, and a probe joins its run with the round it was first made in |
| `ProbeRuns.ProbeRuns.ApplyProgress` | src/agent/progress/wandering-spread.ts:119-135 | the loops drop exactly the runs that something outside their family has settled |
| `ProbeRuns.ProbeRuns.Spread` | src/agent/progress/wandering-spread.ts:90-101 | the distinct signatures of the settled run with the prospective one |
| `ProbeRuns.ProbeRuns.Rounds` | src/agent/progress/wandering-spread.ts:103-117 | the distinct rounds of the settled run, one more for a new signature in a new round |
| `TestRepeats.CountIsTailRun` | src/agent/loop-detector.ts:533-549 | whatever was dispatched and answered, the book has the latest fingerprint of each test key and the number of dispatches in a row at it |
| `TestRepeats.CheckedExactly` | src/agent/loop-detector.ts:505-524 | the reported count is the number of runs in a row at this fingerprint, the prospective one included, and it is a repeat exactly from two on |
| `TestRepeats.QuotesCited` | src/agent/loop-detector.ts:634-652 | what a warning would quote is the latest result of the key since its fingerprint last changed |
| `TestRepeats.CurrentThroughoutExactly` | src/agent/loop-detector.ts:526-532 | however dispatches and results interleave, no warning ever quotes a result of an earlier state exactly if every result lands before its key is dispatched in another state |
| `TestRepeats.OverlapQuotesOld` | src/agent/loop-detector.ts:526-532 | two runs of one key at once, with a change between their dispatches: the warning quotes the result of the state before |
| `TestRepeats.TestRuns.CheckTestRepeat` | src/agent/loop-detector.ts:511-524 | by its own past: the count, the repeat and the quoted summary |
| `TestRepeats.TestRuns.RecordTestRun` | src/agent/loop-detector.ts:533-549 | a dispatch joins the past, with its run continued or begun anew |
| `TestRepeats.TestRuns.NoteTestOutcome` | src/agent/loop-detector.ts:634-652 | an outcome answers the call's open dispatch, and unless it is a veto gives its key a summary |
| `TestRepeats.TestRuns.GateTest` | src/agent/dispatch/batch-gates.ts:294-322 | an admitted test command is recorded and any other call is not, a refused call answers the dispatch of its own kind; a repeat is reported exactly if the runs in a row at this fingerprint are at least two, with the latest result since the fingerprint changed |
| `OutcomeRepeats.HoldsMostRecent` | src/agent/loop-detector.ts:137-145 | the map holds exactly the at most 200 most recently seen distinct fingerprints since the last write, in recency order |
| `Recency.RecentExactly` | src/agent/loop-detector.ts:137-145 | a fingerprint is among the n most recent exactly if fewer than n others have been seen since it last was |
| `OutcomeRepeats.CountNeverTooHigh` | src/agent/loop-detector.ts:21-26 | eviction can only cost a detection: no count exceeds the true one |
| `OutcomeRepeats.CountExact` | src/agent/loop-detector.ts:21-26 | counts are exact whenever no more than 200 distinct fingerprints came back |
| `OutcomeRepeats.ReportedRepeat` | src/agent/loop-detector.ts:476-503 | what is reported of the next sighting is never above the truth, and equal to it within the cap |
| `ReadRepeats.Simulates` | src/agent/loop-detector.ts:28-35 | what the bounded, forgetting table knows of a path is never more than an unbounded memory knows |
| `ReadRepeats.RepeatIsReal` | src/agent/loop-detector.ts:551-594 | whenever the table reports a repeat the unbounded memory reports one with at least that count, and every line was returned before |
| `ReadRepeats.ExactWhenUndisturbed` | src/agent/loop-detector.ts:28-35 | with at most 200 files and no mutation the table misses nothing |
| `ReadRepeats.VerdictExactly` | src/agent/loop-detector.ts:551-594 | from the trace alone, whatever was read and attempted: a repeat exactly if the file is remembered at this version and every line was returned since it was last forgotten or changed; the count is that of the reads in a row, this one included, that returned nothing new |
| `ReadRepeats.RepeatsExactly` | src/agent/loop-detector.ts:574-594 | with at most 200 files read, a repeat exactly if the file was last read at this version and every line was returned since that version came |
| `ReadCoverage.NewlyCoveredCount` | src/agent/progress/read-coverage.ts:115-146 | the interval arithmetic counts exactly the lines of the span not covered yet |
| `ReadCoverage.MergeRange` | src/agent/progress/read-coverage.ts:148-183 | the merged list is sorted, disjoint and never merely adjacent, and covers exactly the old lines and the new ones |
| `MutationEpochs.EpochsOnlyGrow` | src/agent/progress/mutation-epochs.ts:143-148 | the epoch of a path never decreases, eviction included |
| `MutationEpochs.SamePathExactly` | src/agent/progress/mutation-epochs.ts:66-70 | two names are of one file exactly if they are equal or one is the other below some directory |
| `MutationEpochs.OpenedIsNewer` | src/agent/progress/mutation-epochs.ts:143-148 | a read after an epoch-opening attempt on its file is in a strictly newer epoch |
| `MutationEpochs.CountedExactly` | src/agent/progress/mutation-epochs.ts:178-183 | each mention in a failed attempt is one more failure of the path, and a landed change starts its count over |
| `MutationEpochs.OpenedExactly` | src/agent/progress/mutation-epochs.ts:178-183 | an attempt opens an epoch for exactly the paths that landed or had failed fewer than three times in a row |
| `MutationEpochs.MutationEpochs.Note` | src/agent/progress/mutation-epochs.ts:158-204 | exactly the paths that landed or had failed fewer than three times move to one new epoch, every other entry keeps its own or sinks into the floor, the floor only moves when the table overflows, failures are counted, and eviction only forgets failures, none while both tables fit |
| `MutationEpochs.RereadAfterAttempt` | src/agent/progress/mutation-epochs.ts:1-26 | read, attempt on any number of paths, re-read: the re-read is in a strictly newer epoch exactly if the attempt landed, or had fewer than three failures before it, on a target that names the file, or what it evicted lifted the floor past the read |
| `MutationEpochs.EditsElsewhere` | src/agent/progress/mutation-epochs.ts:24-25 | whatever 201 other files are edited once each, the last of those edits puts a file none of them names in a newer epoch |
| `MutationEpochs.MutationEpochs.EpochFor` | src/agent/progress/mutation-epochs.ts:206-213 | the loop finds the latest attempt that may have touched the path |
| `EpochBudgets.BudgetBound` | src/agent/progress/mutation-epochs.ts:42-47 | failures in a row can open at most three epochs for each path |
| `EpochBudgets.FailedAttempt` | src/agent/progress/mutation-epochs.ts:20-23 | a failed attempt on none but some known paths opens no epoch at all, or uses up one of at most three per path that failures can still open |
| `EpochBudgets.FailedOnce` | src/agent/progress/mutation-epochs.ts:150-155 | an attempt on one path that fails is one more failure of it, and leaves the epochs alone exactly if three failures in a row came before |
| `RereadLoops.RereadBetweenFailures` | src/agent/progress/mutation-epochs.ts:20-25 | of the tracker itself, with a window of at least 2 * critical: re-reads of one file with one result, alternated with calls that fail on whatever known paths however differently, end in a refused re-read after at most critical re-reads per epoch those failures can open and one more; after at most critical + 3 if each failure is on the same path and the gate lets it run |
| `RereadLoops.ShortWindowMissesRereads` | src/agent/progress/mutation-epochs.ts:20-25 | that bound on the window is exact: with fewer than 2 * critical entries every call of such an alternation is let through, however long it is, although all re-reads are in one epoch |
| `RereadLoops.SixteenMissesRereads` | src/config/load-config.ts:309-314 | a critical threshold of sixteen, which the configuration admits, with the default window of thirty is such a case |
| `TurnRecovery.Prepared` | src/agent/turn/turn-preparation.ts:210-229 | a leg is what was asked for, at least one step; the ceiling is the larger of the one configured and one leg, and one leg without auto-continue |
| `TurnRecovery.NextRetryMs` | src/agent/turn/turn-recovery.ts:573-630 | every wait is at least a millisecond and never past the wait budget |
| `TurnRecovery.SameStepSpends` | src/agent/turn/turn-recovery.ts:112-167 | every same-step retry spends one of finitely many chances of its step |
| `TurnRecovery.WaitSpends` | src/agent/agent-loop.ts:983-1003 | so does every wait, once its time has passed |
| `TurnRecovery.RestartSpends` | src/agent/turn/out-of-memory-recovery.ts:72-96 | so does every restart of the local model |
| `TurnRecovery.AnnouncedWillBeEntered` | src/agent/agent-loop.ts:188-204 | a recovery into the next step is announced only if that step will be entered, and never from the reserved final step |
| `AgentLoop.AvailableMeansTaken` | src/agent/agent-loop.ts:188-204 | `recoveryStepAvailable(i)` is true exactly when a turn that goes on to index i + 1 unaborted begins that step in its next iteration |
| `TurnRecovery.RecoveriesBounded` | src/agent/turn/turn-recovery.ts:298-383 | parse recoveries are bounded over the turn and empty recoveries in a row |
| `TurnRecovery.TurnLoopState.RecoverTurnStep` | src/agent/turn/turn-recovery.ts:65-663 | decides exactly as the six laws below say, in terms of the failure, the budgets and the state before, and leaves the state of `Recovered` |
| `TurnRecovery.TurnLoopState.ParkForProvider` | src/agent/turn/turn-recovery.ts:544-630 | waits exactly while waiting is enabled, its budget lasts and the engine is not known to be gone past its grace; as long as the hint, the attempt number and the budget left say; otherwise fails |
| `TurnRecovery.WaitsExactly` | src/agent/turn/turn-recovery.ts:544-580 | the decision is to wait exactly for an outage that neither the user nor the deadline interrupted, before the final step, with waiting enabled, budget left and no engine gone past its grace |
| `TurnRecovery.WaitLastsExactly` | src/agent/turn/turn-recovery.ts:581-594 | the wait is what the provider asked for, or 2, 4, 8, 16 and then 30 seconds by the number of attempts, at least a millisecond, never past the budget, and at most two seconds for an engine that is gone |
| `TurnRecovery.RetriesNextExactly` | src/agent/turn/turn-recovery.ts:298-383 | a completion that could not be used goes on to the next step exactly if nothing interrupted it, its own budget is not spent, and that step will be entered |
| `TurnRecovery.RetriesSameExactly` | src/agent/turn/turn-recovery.ts:112-235 | the same step is taken again exactly for the summary once the deadline has fired, for a cut reply with tries left, or for a request that can still be packed smaller |
| `TurnRecovery.OutOfMemoryExactly` | src/agent/turn/turn-recovery.ts:484-508 | a restart of the local model is asked for exactly if it ran out of memory, uninterrupted, before the final step |
| `TurnRecovery.StopsExactly` | src/agent/turn/turn-recovery.ts:256-277 | the turn stops in order exactly on a failed final step that is neither cancelled nor retried nor the second empty completion in a row, or on exhausted credit with something to resume |
| `TurnRecovery.FailsExactly` | src/agent/turn/turn-recovery.ts:80-104 | it fails as cancelled exactly if the user ended it, and a failure leaves the state as it was |
| `RetryPlans.RaisedCapFits` | src/agent/turn/truncation-recovery.ts:118-133 | a raised cap is above the old one, at most doubled, at most 32768 and within a known window with its headroom; a cloud or looping reply is never given one |
| `RetryPlans.KeptCapFits` | src/agent/turn/truncation-recovery.ts:102-137 | a kept cap is positive, never above what was asked for or delivered, and locally within a known window with its headroom |
| `RetryPlans.LocalRetriedExactly` | src/agent/turn/truncation-recovery.ts:114-137 | a local reply cut at its cap is retried exactly if there was a cap and a known window has room left |
| `RetryPlans.PlansExactly` | src/agent/turn/truncation-recovery.ts:93-137 | the whole plan: what was delivered at the end of a window or a provider limit, a cloud cap kept, and locally the largest cap above the old one, up to twice that and 32768, with room, or else the largest up to the old one |
| `RetryPlans.LearnedWindowShrinks` | src/agent/turn/size-rejection-recovery.ts:56-81 | a window learned from a refusal is plausible and strictly below the one believed in |
| `RetryPlans.LearnsExactly` | src/agent/turn/size-rejection-recovery.ts:56-81 | the window the refusal names exactly if it is plausible and below the one believed in, else four fifths of the prompt exactly if that is |
| `RetryPlans.LearningEnds` | src/agent/turn/size-rejection-recovery.ts:56-81 | however lessons and other corrections of the believed window alternate, refusals teach a new one at most as often as the first window and all it was ever raised by exceed the least plausible one |
| `RetryPlans.CutReplyPlanned` | src/agent/turn/truncation-recovery.ts:84-137 | the recovery takes a truncation retry exactly when `planTruncationRetry` plans one |
| `RetryPlans.RefusalPlanned` | src/agent/turn/size-rejection-recovery.ts:56-81 | and repacks exactly when `planSizeRejectionRepack` finds a window |
| `AgentLoop.BeginsInStep` | src/agent/agent-loop.ts:220-309 | past the boundary a step starts with its leg tracked, the reserved final step recognised and every announcement performed |
| `AgentLoop.TakenAdvances` | src/agent/agent-loop.ts:598-720 | a completed step ends the turn as promised or leads to the next index |
| `AgentLoop.MetAdvances` | src/agent/agent-loop.ts:973-1046 | whatever recovery decides, the turn keeps its promises and has less left to retry |
| `AgentLoop.ThrownAdvances` | src/agent/agent-loop.ts:912-973 | a thrown step is compacted at most once per turn before the ordinary recovery, which sees an abort or a deadline that fell during the compaction |
| `AgentLoop.IterationAdvances` | src/agent/agent-loop.ts:220-1048 | one iteration ends the turn as promised or comes back to the head with a smaller lexicographic measure |
| `AgentLoop.NoProgressExactly` | src/agent/agent-loop.ts:227-240 | the loop stops with `no_progress` at index i exactly when i is a leg boundary and no step completed in the preceding leg returned anything usable |
| `AgentLoop.AvailableExactly` | src/agent/agent-loop.ts:198-204 | `recoveryStepAvailable(i)` is true exactly when step i + 1 exists and does not end a leg that brought nothing back |
| `AgentLoop.RunPromises` | src/agent/agent-loop.ts:220-1048 | for every world and every run: at most `stepCeiling` completed steps in strictly increasing index order, at most one overflow compaction, nothing after a completed final step, every announced retry performed, every boundary step earned |
| `AgentLoop.Iterate` | src/agent/agent-loop.ts:220-1048 | the imperative loop body leaves exactly the loop variables and turn state of `Iterated`, of which the laws below say what a run of it keeps, tells and remembers |
| `AgentLoop.RunTurnInner` | src/agent/agent-loop.ts:130-1056 | the whole loop terminates for every world, keeps those promises, and keeps time: every iteration tells exactly what its history says, a finished step is logged as final exactly if it is the last of the bound or the time was up when it began, no other step begins after one begun as final, and a turn ended on one for want of a terminal verb ends with `max_steps`, its cause the clock exactly if the time was up |
| `AgentLoop.TurnKeepsTime` | src/agent/agent-loop.ts:305-309 | the same of every run: the time is up in an iteration exactly if the clock has reached the ceiling or the deadline has cut an earlier one short, in its request or in the compaction after it |
| `AgentLoop.ReservedIsLast` | src/agent/agent-loop.ts:307-309 | with a clock that does not go back, once the loop has begun its reserved step it comes back to no other |
| `AgentLoop.ClockIsHistory` | src/agent/agent-loop.ts:305-307 | the recorded compaction, fired ceiling and stop cause are those of the history, in every run |
| `TurnHistory.TurnRemembers` | src/agent/agent-loop.ts:556-633 | between two iterations the step index, the waits and their total, the restarts, and the parse, empty, truncation and packing retries on record are exactly those that have happened since they were last reset |
| `TurnHistory.ThrewExactly` | src/agent/agent-loop.ts:912-1046 | a thrown step leads to another iteration exactly by a compaction that freed room, a retry of the same step, a next step that will be taken, a wait not aborted or a restart that succeeded; otherwise it ends the turn with the reason and cause stated |
| `TurnHistory.GoesOnExactly` | src/agent/agent-loop.ts:220-1048 | an iteration that comes back passed its boundary and completed a step without verb, ceiling or breaker, or recovered; the next index is one more exactly for a completed step or a lost completion |
| `TurnHistory.EndsExactly` | src/agent/agent-loop.ts:220-1056 | how every turn ends: cancelled or without progress before its step, by the verb, the reserved step or the breaker on a completed one, and on a thrown one exactly as the recovery must |
| `Steering.TrimCuts` | src/runtime/steering-inbox.ts:83-84 | trimming cuts white space at both ends only, and leaves nothing exactly when the text is blank |
| `Steering.Conserved` | src/runtime/steering-inbox.ts:13-20 | in every interleaving over all sessions: what was pending and accepted equals, in order, what was handed out and is still pending |
| `Steering.SoundAfter` | src/runtime/steering-inbox.ts:23-31 | no slot ever holds more than sixteen messages or an empty one, and only an open session has any |
| `Steering.TurnConserves` | src/agent/agent-loop.ts:99-122 | what a turn accepted is what its drains recorded followed by what its close returns |
| `Steering.NothingAfterClose` | src/runtime/steering-inbox.ts:107-117 | after the close nothing is accepted and nothing is handed out until the session is opened again |
| `Steering.Isolated` | src/runtime/steering-inbox.ts:19-20 | what happens to a session is decided by its own operations alone |
| `Steering.SteeringInbox.Push` | src/runtime/steering-inbox.ts:75-93 | a message is accepted exactly when the session is open, the text not blank and fewer than sixteen are pending |
| `Steering.AcceptedExactly` | src/runtime/steering-inbox.ts:75-93 | in every interleaving a message is accepted, trimmed, exactly if its session was last opened, it is not blank, and fewer than sixteen accepted before are still to be handed out |
| `Steering.SteeringInbox.Drain` | src/runtime/steering-inbox.ts:95-105 | everything pending is handed out once |
| `Steering.SteeringInbox.CloseAndDrain` | src/runtime/steering-inbox.ts:107-121 | closing and draining is one step |
| `Steering.RunTurn` | src/agent/agent-loop.ts:104-128 | for any moments of a turn, steered turns followed by undelivered (or, on a throw, stranded) messages are the accepted ones in order |
| `RepositorySync.PutsContain` | scripts/linux-packaging.ts:427-439 | exactly the indexes and the new packages are uploaded, and exactly the unlisted paths deleted |
| `RepositorySync.PutsOrdered` | scripts/linux-packaging.ts:408-420 | uploads go in rank order, by name within a rank |
| `RepositorySync.FirstPublishExactly` | scripts/linux-packaging.ts:408-439 | the first publication of any site never shows a client a name that leads nowhere exactly if every entry point comes, in upload order, after all it leads to |
| `RepositorySync.ServedByClosed` | scripts/linux-packaging.ts:408-413 | a client is served if the bucket holds a closed set containing what it was pointed at |
| `RepositorySync.ReachedIsClosed` | scripts/linux-packaging.ts:408-413 | what is reachable from the entry points of a serving bucket is closed |
| `RepositorySync.EveryMomentServes` | scripts/linux-repo.ts:341-356 | after every upload everything reachable from an entry point is present, whatever the new site holds whose files name only what is uploaded before them; and after every delete, if every dropped entry point goes before what it leads to |
| `RepositorySync.OldEntriesFollowable` | scripts/linux-repo.ts:341-356 | until the first delete a client that read an old entry point before the run can still follow it |
| `RepositorySync.OldEntryServedExactly` | scripts/linux-repo.ts:341-356 | and from then on exactly as long as nothing it leads to has been deleted |
| `RepositorySync.DeleteMomentExactly` | scripts/linux-packaging.ts:434-437 | after any number of deletes the bucket serves its clients exactly if every dropped entry point still there leads to nothing that is gone |
| `RepositorySync.ServesThroughoutExactly` | scripts/linux-packaging.ts:427-439 | a run serves its clients at every moment exactly if every dropped entry point is deleted before anything it leads to |
| `RepositorySync.GoesFirstByName` | scripts/linux-packaging.ts:434-437 | which comes to: every dropped entry point precedes, in code units, everything it leads to that the new site lacks |
| `RepositorySync.KeptEntriesGoFirst` | scripts/linux-packaging.ts:434-437 | in particular a site with every old entry point is published without a gap |
| `RepositoryLayout.PositionOrders` | scripts/linux-packaging.ts:434-436 | the positions order paths as code units do and tell any two apart |
| `RepositoryLayout.LayoutBreaksExactly` | scripts/linux-repo.ts:242-286 | for the layout the publisher builds: some moment of a run breaks a client exactly if the new site drops repomd.xml together with a file it leads to, or the .repo file together with its key |
| `RepositoryLayout.RpmTreeBreaks` | scripts/linux-repo.ts:272-286 | concretely, removing an rpm tree breaks a client after a single delete |
| `RepositoryLayout.RepoFileBreaks` | scripts/linux-packaging.ts:370-384 | concretely, dropping the .repo file and its key breaks a client after a single delete |
| `RepositoryLayout.BaseUrlComesEarly` | scripts/linux-packaging.ts:408-420 | if a client takes the base URL in the .repo file for the repomd.xml beneath it, the first publication shows it the .repo file before repomd.xml is there |
| `RepositoryLayout.DebSuiteServes` | scripts/linux-repo.ts:242-270 | removing a deb suite with its packages breaks no client, although an old entry point is gone |
| `RepositorySync.CompletedIsSite` | scripts/linux-packaging.ts:422-426 | a completed run leaves exactly the paths of the site, and exactly its contents if and only if packages are immutable |
| `RepositorySync.CrashesNeverBreak` | scripts/linux-repo.ts:341-356 | however often a run crashed and was restarted, perhaps with a newer site: no moment of any run breaks a client exactly if in every run the dropped entry points go first |
| `RepositorySync.LastRunWins` | scripts/linux-repo.ts:341-356 | once a run completes, whatever it started from, the bucket holds exactly its site's paths, and its contents exactly if packages are immutable |
| `RepositorySync.CarryOut` | scripts/linux-repo.ts:342-356 | the loop over the plan leaves the bucket after exactly the steps it took |
| `RepositorySync.Sync` | scripts/linux-repo.ts:324-356 | a run that crashes leaves exactly what a history of crashed runs is made of |
| `Decimals.DecimalNames` | src/agent/batch-summary-cap.ts:89-90 | a decimal numeral names its number |
| `Decimals.DigitsBelow` | src/agent/batch-summary-cap.ts:91-91 | a numeral has at most k digits exactly below the k-th power of ten |
| `TextLines.LinesAtBreak` | src/session/conversation-turn.ts:590-593 | splitting at line feeds splits in two at any break |
| `ReadCaps.ReadCutFits` | src/session/conversation-turn.ts:572-603 | a cut read with its paging hint fits its budget |
| `ReadCaps.PlainCutFits` | src/session/conversation-turn.ts:535-539 | the plain cut fits exactly while the hidden count has at most nine digits |
| `ReadCaps.ReadCutContinues` | src/session/conversation-turn.ts:581-603 | the shown and the hidden lines are the lines of the read with nothing between, so the offset asked for next is the first line not shown |
| `ReadCaps.CutAtLastBreak` | src/session/conversation-turn.ts:581-590 | a read is cut on its last break within the budget, and only if that is in the second half of it |
| `ReadCaps.ReadCutTells` | src/session/conversation-turn.ts:581-605 | what the cut read shows and its hint says: the lines shown, the lines hidden and where to read on |
| `ReadCaps.PlainCutKeeps` | src/session/conversation-turn.ts:535-540 | the plain cut keeps what leaves forty characters for its marker, which counts the rest |
| `ReadCaps.StartLineExactly` | src/session/conversation-turn.ts:559-567 | an offset names its whole part, the first line below that, and no line if it is negative |
| `BatchSummaryCap.CappedTotalPermutes` | src/agent/batch-summary-cap.ts:54-58 | the capped total depends only on which lengths there are |
| `BatchSummaryCap.StoppedAt` | src/agent/batch-summary-cap.ts:60-64 | where the loop stops, the even share is the largest allowance that fits the budget |
| `BatchSummaryCap.EvenGrows` | src/agent/batch-summary-cap.ts:60-64 | taking out a length below the even share never lowers the share of the others |
| `BatchSummaryCap.FairShare` | src/agent/batch-summary-cap.ts:50-66 | the share is the largest s whose capped total fits (or the longest length if all fit), never below 600 |
| `BatchSummaryCap.ShareIsUnique` | src/agent/batch-summary-cap.ts:50-53 | that determines the share, from the multiset of lengths alone |
| `BatchSummaryCap.ShareHoldsBudget` | src/agent/batch-summary-cap.ts:6-12 | the capped total is at most the budget, or 600 for each result |
| `BatchSummaryCap.ClipNamesWhatIsHidden` | src/agent/batch-summary-cap.ts:68-93 | a clipped result is a nonempty head and a marker naming exactly the number of characters left out |
| `BatchSummaryCap.ClipFits` | src/agent/batch-summary-cap.ts:88-93 | a clipped result fits its share whenever the marker leaves room |
| `BatchSummaryCap.ClipKeepsMost` | src/agent/batch-summary-cap.ts:88-93 | the head kept is the longest that leaves room for the marker of the whole length, and never empty |
| `BatchSummaryCap.FittedFits` | src/agent/batch-summary-cap.ts:37-47 | every result takes at most its share and a short one is untouched |
| `BatchSummaryCap.ReadFittedExactly` | src/agent/batch-summary-cap.ts:37-47 | over its share a file read is cut on a line boundary and tells how to read on from where it started |
| `BatchSummaryCap.FittedExactly` | src/agent/batch-summary-cap.ts:37-47 | and anything else keeps the longest head it can |
| `BatchSummaryCap.CapBatchSummaries` | src/agent/batch-summary-cap.ts:26-48 | everything untouched when it fits, otherwise each cut to one fair share |
| `BatchSummaryCap.BatchHoldsBudget` | src/agent/batch-summary-cap.ts:14-25 | the whole capped batch totals at most the budget, or 600 for each result |
| `InterJudge.WeightLaws` | eval-memory/harness/inter-judge-stats.ts:112-132 | all three weightings are symmetric, at most 1, and 1 exactly on the diagonal |
| `InterJudge.KappaSymmetric` | eval-memory/harness/inter-judge-stats.ts:82-110 | kappa does not change when the raters are exchanged |
| `InterJudge.ChanceIsCertain` | eval-memory/harness/inter-judge-stats.ts:76-81 | the fallback is reached exactly when both raters used one and the same single level |
| `InterJudge.KappaAtMostOne` | eval-memory/harness/inter-judge-stats.ts:82-110 | kappa is at most 1, and 1 exactly for identical ratings over at least two levels |
| `InterJudge.Marginals` | eval-memory/harness/inter-judge-stats.ts:92-96 | row sums are A's counts and column sums are B's |
| `InterJudge.ObservedIsPairs` | eval-memory/harness/inter-judge-stats.ts:98-107 | the observed loop over the matrix is the mean credit of the items as paired |
| `InterJudge.ExpectedIsCross` | eval-memory/harness/inter-judge-stats.ts:98-107 | the expected loop over the marginals is the mean credit of all pairings |
| `InterJudge.DiagonalIsAgreement` | eval-memory/harness/inter-judge-stats.ts:27-37 | the diagonal over n is the exact agreement |
| `InterJudge.ExactAgreement` | eval-memory/harness/inter-judge-stats.ts:27-37 | the loop counts the items scored alike; unequal lengths are refused |
| `InterJudge.ConfusionMatrix` | eval-memory/harness/inter-judge-stats.ts:53-74 | cell (i, j) counts the items scored i + 1 by A and j + 1 by B; the first fault is the one reported |
| `InterJudge.FirstFaultExactly` | eval-memory/harness/inter-judge-stats.ts:53-74 | the fault reported is that of the first item with a rating off the scale, rater A before rater B |
| `InterJudge.BuildWeightMatrix` | eval-memory/harness/inter-judge-stats.ts:112-132 | the cells are the weights of their levels |
| `InterJudge.CohenKappa` | eval-memory/harness/inter-judge-stats.ts:82-110 | through matrix and marginals the code computes the item-level definition, with its errors and fallbacks |
| `InterJudge.UnweightedKappa` | eval-memory/harness/inter-judge-stats.ts:82-110 | unweighted kappa is one minus the share of disagreements over their share among all pairings |
| `InterJudge.LinearKappa` | eval-memory/harness/inter-judge-stats.ts:112-132 | linear kappa: the same with plain distances |
| `InterJudge.QuadraticKappa` | eval-memory/harness/inter-judge-stats.ts:82-110 | quadratic kappa is the same with squared distances; the number of levels cancels out |
| `InterJudge.QuadraticAtLeastUnweighted` | eval-memory/harness/inter-judge-stats.ts:14-16 | quadratic kappa is at least unweighted kappa exactly when disagreements are on average no farther apart than those of random pairings |
| `InterJudge.QuadraticCanBeLower` | eval-memory/harness/inter-judge-stats.ts:14-16 | two items on any scale of three or more levels for which quadratic kappa is the lower |
| `Bootstrap.IndexesInRange` | eval-memory/harness/bootstrap-ci.ts:81-85 | both reads hit a draw exactly when 0 <= alpha < 2, and then the indexes are mirror images |
| `Bootstrap.IndexesOrdered` | eval-memory/harness/bootstrap-ci.ts:81-85 | below 1 they are in order |
| `Bootstrap.Bootstrap` | eval-memory/harness/bootstrap-ci.ts:51-93 | the nested loops, the sort and the two reads compute `Estimated` for one random source; an empty sample gives zeros and a single value itself |
| `Bootstrap.BoundsAreQuantiles` | eval-memory/harness/bootstrap-ci.ts:61-93 | without sorting: of the n draws, each the statistic of its own group of picks, the bounds are the ones of rank floor(alpha / 2 * n) from below and from above |
| `Bootstrap.MeanIsCentral` | eval-memory/harness/bootstrap-ci.ts:120-125 | the mean of a sample lies within it |
| `Bootstrap.IntervalWithinSample` | eval-memory/harness/bootstrap-ci.ts:81-93 | for every random source min(sample) <= ciLow <= ciHigh <= max(sample) |
| `Bootstrap.BootstrapDelta` | eval-memory/harness/bootstrap-ci.ts:103-118 | the paired deltas are bootstrapped; unpaired samples are refused |
| `Bootstrap.MeanIsOdd` | eval-memory/harness/bootstrap-ci.ts:120-125 | the mean changes sign with its sample |
| `Bootstrap.ArmSwap` | eval-memory/harness/bootstrap-ci.ts:95-118 | swapping the arms under one random stream exactly negates the estimate and swaps the bounds |
| `Bootstrap.MeanOf` | eval-memory/harness/bootstrap-ci.ts:120-125 | the summing loop computes the mean |
| `Percentile.PercentileIsCurve` | eval-memory/harness/percentile.ts:23-35 | the branches of the code are one clamped interpolation curve over the sorted sample |
| `Percentile.MonotoneInFraction` | eval-memory/harness/percentile.ts:23-35 | the percentile never falls as the fraction grows, across segments |
| `Percentile.MonotoneInData` | eval-memory/harness/percentile.ts:23-35 | nor as the data grow pointwise |
| `Percentile.OrderIrrelevant` | eval-memory/harness/percentile.ts:9-11 | nor does the order of the data matter |
| `Percentile.WithinSample` | eval-memory/harness/percentile.ts:23-35 | it lies between the sample's minimum and maximum |
| `Percentile.ExactAtRank` | eval-memory/harness/percentile.ts:30-34 | at an exact rank it is the sorted member |
| `Percentile.BetweenRanks` | eval-memory/harness/percentile.ts:30-34 | definition 7 itself, on any ascending arrangement: t of the way between two ranks it is t of the way between their members |
| `Percentile.BeyondRanks` | eval-memory/harness/percentile.ts:23-29 | at or beyond the ends it is the end, of one value that value, of nothing zero |
| `Percentile.MeanP50P95` | eval-memory/harness/percentile.ts:47-57 | p50 <= p95, and all three lie within the sample |
| `StratifiedSample.ShuffleInPlace` | eval-memory/harness/stratified-sample.ts:65-71 | the in-place loop makes the exchanges its random source picks, one number per position |
| `StratifiedSample.ShuffledPermutes` | eval-memory/harness/stratified-sample.ts:65-71 | the shuffle loses and duplicates nothing |
| `StratifiedSample.EveryOrderHasASource` | eval-memory/harness/stratified-sample.ts:4-9 | every order of the elements is left behind by some random source in [0, 1) |
| `StratifiedSample.OneWayEach` | eval-memory/harness/stratified-sample.ts:65-71 | and by exactly one sequence of picks, so equally likely picks make every order equally likely |
| `StratifiedSample.Bucket` | eval-memory/harness/stratified-sample.ts:37-43 | the buckets partition the indexes by stratum |
| `StratifiedSample.Choose` | eval-memory/harness/stratified-sample.ts:51-58 | a stratum keeps its quota of its own indexes: the front of them as the source's picks exchange them, one number used per position |
| `StratifiedSample.KeptInOrder` | eval-memory/harness/stratified-sample.ts:18-21 | the output is the kept items in their original order |
| `StratifiedSample.KeptCounts` | eval-memory/harness/stratified-sample.ts:61-62 | and has as many of each stratum as were kept of it |
| `StratifiedSample.QuotaAtTheEnds` | eval-memory/harness/stratified-sample.ts:32-34 | the shortcuts for fractions outside (0, 1) keep what the quota says |
| `StratifiedSample.StratifiedSample` | eval-memory/harness/stratified-sample.ts:25-63 | for every fraction, floor and random source: an order-preserving subsequence with exactly min(size, max(floor, round(size * fraction))) items of each stratum, the front of each stratum as shuffled, the source read through the strata in key order |
| `StratifiedSample.EverySampleHasASource` | eval-memory/harness/stratified-sample.ts:51-71 | for every choice of quota-many items in each stratum some source in [0, 1) makes the sampler return exactly it |
| `ReplyLines.LinesInParts` | eval-memory/harness/multi-turn-driver.ts:293-299 | a text that arrives in two parts splits like the whole, wherever the cut falls |
| `ReplyLines.ChunkMakesNoDifference` | eval-memory/harness/multi-turn-driver.ts:293-299 | so chunking changes neither the complete lines nor the rest, even between CR and LF |
| `ReplyLines.SplitsBack` | eval-memory/harness/multi-turn-driver.ts:293-299 | lines written with LF or CR LF, in any mixture, are split back as they were, and what follows the last break is left over |
| `ReplyLines.LinesConserved` | eval-memory/harness/multi-turn-driver.ts:253-309 | for every chunking and interleaving, lines handed out followed by the backlog are the lines of the whole stream, and a backlog and a waiting resolver never coexist |
| `ReplyLines.PairedInOrder` | eval-memory/harness/multi-turn-driver.ts:348-384 | the k-th wait is answered by the k-th line of the whole stream, and open exactly while it has not come |
| `ReplyLines.Driver.OnData` | eval-memory/harness/multi-turn-driver.ts:293-309 | of the complete lines of the buffer a waiting resolver gets the first and the backlog all others, in order; what follows the last break stays in the buffer |
| `ReplyLines.Driver.WaitForNextReplyLine` | eval-memory/harness/multi-turn-driver.ts:253-291 | a wait takes the first line of the backlog, or leaves a resolver and answers a stale one as overtaken |
| `ReplyLines.Driver.OnClose` | eval-memory/harness/multi-turn-driver.ts:270-289 | the exit of the child answers an open wait with nothing |
| `ReplyLines.DrivePrompts` | eval-memory/harness/multi-turn-driver.ts:348-384 | the k-th reply is the k-th line of all the child ever writes; the first sent prompt without one ends the loop with null, a write that fails ends it with nothing pushed, and the stop reason is the one of these that happened |
| `Limiter.AlwaysSound` | eval-memory/harness/p-limit.ts:44-78 | in every interleaving: at most `concurrency` active, waiting only while full, started in exact submission order |
| `Limiter.Accounted` | eval-memory/harness/p-limit.ts:44-78 | submitted = settled + active + waiting, and started = min(submitted, settled + concurrency) |
| `Limiter.NoneLeftBehind` | eval-memory/harness/p-limit.ts:47-51 | once nothing runs, every submitted task has run exactly once |
| `Limiter.SettlementsSuffice` | eval-memory/harness/p-limit.ts:47-51 | as many settlements as tasks are outstanding leave none behind, whichever settles when |
| `Limiter.SomeoneRuns` | eval-memory/harness/p-limit.ts:47-51 | while a task is outstanding some task is running |
| `Limiter.ConcurrencyLimiter.Limit` | eval-memory/harness/p-limit.ts:53-77 | a call takes a slot if there is one and queues otherwise |
| `Limiter.ConcurrencyLimiter.OnSettled` | eval-memory/harness/p-limit.ts:47-70 | a settled task hands its slot to the one that has waited longest |
| `Limiter.PLimit` | eval-memory/harness/p-limit.ts:35-42 | anything but a positive concurrency is refused |

## Left out

- WarnedBeforeStop: a sufficient condition on one probe, for stops by the ceiling; the exact one is UnwarnedStopExactly, and UnwarnedByEitherExactly for stops by either rule.
- UnwarnedStopExactly: of stops by the ceiling only, with the run ladder arbitrary; UnwarnedByEitherExactly has both rules with the run ladder read from the run.
- RecordOutcome: which paths a call reads or targets is a parameter of the tracker.
- RunSyncLoopGate: does not model the texts of the veto and its target; recognising a test command and fingerprinting the workspace are inputs.
- ForgetProgress: the normalisation of paths is a parameter of the tracker.
- RecoverTurnStep: reads the retry plans as flags; RetryPlans computes those flags from token counts and proves that they are the plans.
- TurnKeepsTime: what the clock promises over several iterations assumes that it does not go back; `Date.now()` may.
- LearningEnds: counts refusals that teach a window against all that other corrections raise it by; how much those raise it is left to the provider.
- RereadBetweenFailures: one call between two re-reads, on paths known beforehand that leave room in both tables.
- SendWatched: one call at a time, in sequence.
- FairShare: the lengths arrive as exact integers; the float nature of JavaScript numbers above 2^53 is not modelled.
- ReadCutFits: assumes a read below a billion characters (the engine's strings are shorter) and a start line that leaves fifty digits for the next offset.
- ClipFits: one way only; when the marker is as long as the share a single character is kept and the share may be exceeded.
- OldEntriesFollowable: stops at the first delete; OldEntryServedExactly says what holds afterwards.
- LayoutBreaksExactly: takes from the build tools which directories a suite and a repomd.xml name (`LaidOut`); the base URL in the .repo file names a directory, not a file, and counts as a name only in BaseUrlComesEarly.
- StoppedAt: speaks of the share before the floor of 600 is applied.
- LoopDetector: signatures and fingerprints are compared as values, so hash collisions do not exist; parsing a call's paths from its arguments (patch headers, dry runs) is a parameter.
- Of the tracker: the deduplication of warnings by bucket, and the advisory batch-composite verdict (its entries are in the runs, without a gate).
- Parallel calls of one signature in one step, and probes that share a step round, in the run theorems about the streak and the spread.
- Of the step loop: prompts, notices, events, logging and memory; whether an overflow compaction can be planned and frees anything is an answer of the world; exceptions come from the inference of a step.
- Sleeping is counted by its requested length, and an abort is seen where the code reads the signal.
- Of the inbox: `peek`, and `clear`/`clearAll`, which discard messages outside any turn.
- Of the publisher: signing, building indexes, release selection and HTTP; the locale's order of uploads is arbitrary, uploads and deletes are atomic, a listing is complete, and paths hold no surrogate pairs.
- Floating-point rounding in all statistics; ratings that are not integers; a fractional `minPerStratum`.
- The uniformity of the random source: every order arises in exactly one way, which is what uniform picks need.
- Decoding of output chunks: a chunk is text, so a multi-byte character cut in two is not modelled; neither are timeouts and standard error. A wait begun after the child has closed, which the code leaves open for ever, is not modelled either.
- Strings are sequences of characters; surrogate pairs cut by a character budget are not modelled.
- Trace reading, command lines, process spawning, configuration and the evaluation cases.
