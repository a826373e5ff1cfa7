/** The outcome-repeat counts and what they say about the past: src/agent/loop-detector.ts:145, 481-503. */
module OutcomeRepeats {
  import opened Wrappers
  import opened DistinctLists
  import opened OrderedMaps
  import opened Recency

  const MAX_TRACKED_OUTCOMES := 200
  const OUTCOME_REPEAT_WARNING_THRESHOLD := 3

  type Counts = m: OrderedMap<string, nat> | m.Valid() witness OrderedMap([], map[])

  const NO_COUNTS: Counts := OrderedMap([], map[])

  /** The counts after one more outcome with this fingerprint. */
  function Bump(counts: Counts, fingerprint: string): Counts {
    counts.Reinsert(fingerprint, NextCount(counts, fingerprint)).Evict(MAX_TRACKED_OUTCOMES)
  }

  function NextCount(counts: Counts, fingerprint: string): nat {
    match counts.Get(fingerprint)
    case Some(c) => c + 1
    case None => 1
  }

  /** One non-vetoed outcome, as the detector reads it. */
  datatype Outcome = Write | Other(fingerprint: string)

  function CountsAfter(counts: Counts, outcome: Outcome): Counts {
    match outcome
    case Write => NO_COUNTS
    case Other(f) => Bump(counts, f)
  }

  function AfterOutcomes(trace: seq<Outcome>): Counts {
    if trace == [] then NO_COUNTS
    else CountsAfter(AfterOutcomes(trace[..|trace| - 1]), trace[|trace| - 1])
  }

  lemma OutcomesStep(trace: seq<Outcome>, outcome: Outcome)
    ensures AfterOutcomes(trace + [outcome]) == CountsAfter(AfterOutcomes(trace), outcome)
  {
    assert (trace + [outcome])[..|trace|] == trace;
  }

  // ----- the past, read straight off the trace -----

  /** The fingerprints since the last successful write, oldest first. */
  ghost function SinceWrite(trace: seq<Outcome>): seq<string> {
    if trace == [] then []
    else
      match trace[|trace| - 1]
      case Write => []
      case Other(f) => SinceWrite(trace[..|trace| - 1]) + [f]
  }

  ghost function Occurrences(s: seq<string>, x: string): nat {
    multiset(s)[x]
  }

  // ----- the map means exactly this about the past -----

  /** The map holds exactly the at most 200 most recently seen fingerprints, in recency order. */
  lemma {:induction false} HoldsMostRecent(trace: seq<Outcome>)
    ensures AfterOutcomes(trace).keys == Last(ByRecency(SinceWrite(trace)), MAX_TRACKED_OUTCOMES)
  {
    if trace != [] && trace[|trace| - 1].Other? {
      var before, f := trace[..|trace| - 1], trace[|trace| - 1].fingerprint;
      HoldsMostRecent(before);
      var recent := ByRecency(SinceWrite(before));
      RecencyDistinct(SinceWrite(before));
      RecencyAppend(SinceWrite(before), f);
      WindowStep(recent, f, MAX_TRACKED_OUTCOMES);
      var window := Last(recent, MAX_TRACKED_OUTCOMES);
      LastDistinct(recent, MAX_TRACKED_OUTCOMES);
      WithoutLength(window, f);
    }
  }

  /** No count ever exceeds the true number of sightings since the write. */
  lemma {:induction false} CountNeverTooHigh(trace: seq<Outcome>, x: string)
    requires x in AfterOutcomes(trace).vals
    ensures 1 <= AfterOutcomes(trace).vals[x] <= Occurrences(SinceWrite(trace), x)
  {
    var before := trace[..|trace| - 1];
    match trace[|trace| - 1]
    case Other(f) =>
      var counts := AfterOutcomes(before);
      assert x in counts.vals || x == f;
      if x in counts.vals { CountNeverTooHigh(before, x); }
  }

  /** The true count of a fingerprint that has come back at all. */
  ghost function Truth(s: seq<string>, x: string): Option<nat> {
    if x in s then Some(Occurrences(s, x)) else None
  }

  lemma TruthAppend(s: seq<string>, f: string, x: string)
    ensures Truth(s + [f], x) ==
      if x != f then Truth(s, x) else Some(1 + if Truth(s, f).Some? then Truth(s, f).value else 0)
  {
    assert x in s + [f] <==> x in s || x == f;
  }

  /** As long as no more than 200 distinct fingerprints have come back, every count is exact. */
  lemma {:induction false} CountExact(trace: seq<Outcome>, x: string)
    requires |ByRecency(SinceWrite(trace))| <= MAX_TRACKED_OUTCOMES
    ensures AfterOutcomes(trace).Get(x) == Truth(SinceWrite(trace), x)
  {
    if trace != [] && trace[|trace| - 1].Other? {
      var before, f := trace[..|trace| - 1], trace[|trace| - 1].fingerprint;
      NoEviction(before, f);
      CountExact(before, x);
      BumpInside(AfterOutcomes(before), f, x);
      TruthAppend(SinceWrite(before), f, x);
    }
  }

  /** A sighting that leaves at most 200 distinct fingerprints had at most 200 before it. */
  lemma NoEviction(before: seq<Outcome>, f: string)
    requires |ByRecency(SinceWrite(before) + [f])| <= MAX_TRACKED_OUTCOMES
    ensures |ByRecency(SinceWrite(before))| <= MAX_TRACKED_OUTCOMES
    ensures |Without(AfterOutcomes(before).keys, f)| < MAX_TRACKED_OUTCOMES
  {
    var past := SinceWrite(before);
    RecencyAppend(past, f);
    RecencyDistinct(past);
    WithoutLength(ByRecency(past), f);
    HoldsMostRecent(before);
  }

  lemma BumpInside(counts: Counts, f: string, x: string)
    requires |Without(counts.keys, f)| < MAX_TRACKED_OUTCOMES
    ensures Bump(counts, f).Get(x) == if x == f then Some(NextCount(counts, f)) else counts.Get(x)
  {
  }

  /** What the agent is told: a reported repeat is a real one, and inside the cap none is missed. */
  lemma ReportedRepeat(trace: seq<Outcome>, f: string)
    ensures var told := NextCount(AfterOutcomes(trace), f);
      var truth := Occurrences(SinceWrite(trace + [Other(f)]), f);
      && told <= truth
      && (|ByRecency(SinceWrite(trace))| <= MAX_TRACKED_OUTCOMES ==> told == truth)
  {
    SinceWriteStep(trace, f);
    TruthAppend(SinceWrite(trace), f, f);
    if f in AfterOutcomes(trace).vals { CountNeverTooHigh(trace, f); }
    if |ByRecency(SinceWrite(trace))| <= MAX_TRACKED_OUTCOMES { CountExact(trace, f); }
  }

  lemma SinceWriteStep(trace: seq<Outcome>, f: string)
    ensures SinceWrite(trace + [Other(f)]) == SinceWrite(trace) + [f]
  {
    assert (trace + [Other(f)])[..|trace|] == trace;
  }
}
