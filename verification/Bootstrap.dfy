/** Percentile-bootstrap intervals: eval-memory/harness/bootstrap-ci.ts, over exact reals. */
module Bootstrap {
  import opened Wrappers
  import opened Sorting
  import opened Percentile
  import opened Numbers

  /** `ciLow` and `ciHigh` are `None` where the code reads past the draws (`undefined`). */
  datatype Estimate = Estimate(point: real, ciLow: Option<real>, ciHigh: Option<real>, iterations: nat, n: nat)

  type Statistic = seq<real> -> real

  /** The k-th number the random source hands out. 1.0 is allowed: the code guards against it. */
  ghost predicate UnitSource(rng: nat -> real) {
    forall k: nat :: 0.0 <= rng(k) <= 1.0
  }

  function Pick(u: real, n: nat): (p: nat)
    requires n >= 1 && 0.0 <= u <= 1.0
    ensures p < n
    ensures u == 1.0 ==> p == n - 1
    ensures u < 1.0 ==> p as real <= Times(u, n as real) < (p + 1) as real
  {
    Scale(n as real, 0.0, u);
    BelowWhole(u, n as real);
    var pick := Times(u, n as real).Floor;
    if pick <= n - 1 then pick else n - 1
  }

  function Ceil(x: real): int { -((-x).Floor) }

  function LowIndex(alpha: real, iterations: nat): int {
    Times(alpha / 2.0, iterations as real).Floor
  }

  function HighIndex(alpha: real, iterations: nat): int {
    var h := Ceil(Times(1.0 - alpha / 2.0, iterations as real)) - 1;
    if iterations - 1 <= h then iterations - 1 else h
  }

  lemma Complement(t: real, n: real)
    ensures Times(1.0 - t, n) == n - Times(t, n)
  {
  }

  lemma BelowWhole(t: real, n: real)
    requires n >= 1.0
    ensures 0.0 <= t <==> 0.0 <= Times(t, n)
    ensures t < 1.0 <==> Times(t, n) < n
    ensures t < 0.5 ==> 2.0 * Times(t, n) < n
  {
    Complement(t, n);
    PositiveTimes(t, n);
    PositiveTimes(1.0 - t, n);
    assert Times(t, n) + Times(t, n) == Times(2.0 * t, n);
    PositiveTimes(1.0 - 2.0 * t, n);
    Complement(2.0 * t, n);
  }

  lemma PositiveTimes(t: real, n: real)
    requires n > 0.0
    ensures t >= 0.0 <==> Times(t, n) >= 0.0
    ensures t > 0.0 <==> Times(t, n) > 0.0
  {
  }

  /** Both reads hit a draw exactly when 0 <= alpha < 2, and then the indexes mirror each other. */
  lemma IndexesInRange(alpha: real, iterations: nat)
    requires iterations >= 1
    ensures 0.0 <= alpha < 2.0 <==>
      0 <= LowIndex(alpha, iterations) < iterations && 0 <= HighIndex(alpha, iterations) < iterations
    ensures 0.0 <= alpha < 2.0 ==> HighIndex(alpha, iterations) == iterations - 1 - LowIndex(alpha, iterations)
  {
    Complement(alpha / 2.0, iterations as real);
    BelowWhole(alpha / 2.0, iterations as real);
  }

  /** A two-sided alpha below 1 keeps them in order. */
  lemma IndexesOrdered(alpha: real, iterations: nat)
    requires iterations >= 1 && 0.0 <= alpha < 1.0
    ensures 0 <= LowIndex(alpha, iterations) <= HighIndex(alpha, iterations) < iterations
  {
    IndexesInRange(alpha, iterations);
    BelowWhole(alpha / 2.0, iterations as real);
  }

  function Resample(sample: seq<real>, rng: nat -> real, from: nat): (r: seq<real>)
    requires sample != [] && UnitSource(rng)
    ensures |r| == |sample|
    ensures forall i :: 0 <= i < |r| ==> r[i] == sample[Pick(rng(from + i), |sample|)]
  {
    seq(|sample|, (j: nat) requires j < |sample| => sample[Pick(rng(from + j), |sample|)])
  }

  function Draws(sample: seq<real>, stat: Statistic, rng: nat -> real, count: nat): (d: seq<real>)
    requires sample != [] && UnitSource(rng)
    ensures |d| == count
  {
    if count == 0 then []
    else Draws(sample, stat, rng, count - 1) + [stat(Resample(sample, rng, (count - 1) * |sample|))]
  }

  function Read(draws: seq<real>, index: int): Option<real> {
    if 0 <= index < |draws| then Some(draws[index]) else None
  }

  /** What `bootstrap` returns for one random source. */
  function Estimated(sample: seq<real>, stat: Statistic, iterations: nat, alpha: real, rng: nat -> real): Estimate
    requires UnitSource(rng)
  {
    if sample == [] then Estimate(0.0, Some(0.0), Some(0.0), 0, 0)
    else if |sample| == 1 then Estimate(sample[0], Some(sample[0]), Some(sample[0]), 0, 1)
    else EstimatedAt(sample, stat, iterations, LowIndex(alpha, iterations), HighIndex(alpha, iterations), rng)
  }

  function EstimatedAt(sample: seq<real>, stat: Statistic, iterations: nat, low: int, high: int,
                       rng: nat -> real): Estimate
    requires UnitSource(rng) && sample != []
  {
    var draws := SortBy(Draws(sample, stat, rng, iterations), Value);
    Estimate(stat(sample), Read(draws, low), Read(draws, high), iterations, |sample|)
  }

  /** `bootstrap`: the nested resampling loops. */
  method Bootstrap(sample: seq<real>, stat: Statistic, iterations: nat, alpha: real, rng: nat -> real)
    returns (r: Estimate)
    requires UnitSource(rng)
    ensures r == Estimated(sample, stat, iterations, alpha, rng)
    ensures sample == [] ==> r == Estimate(0.0, Some(0.0), Some(0.0), 0, 0)
    ensures |sample| == 1 ==> r == Estimate(sample[0], Some(sample[0]), Some(sample[0]), 0, 1)
  {
    if |sample| == 0 { return Estimate(0.0, Some(0.0), Some(0.0), 0, 0); }
    if |sample| == 1 { return Estimate(sample[0], Some(sample[0]), Some(sample[0]), 0, 1); }
    var n := |sample|;
    var draws: seq<real> := [];
    var calls := 0;
    for i := 0 to iterations
      invariant calls == i * n
      invariant draws == Draws(sample, stat, rng, i)
    {
      var resample: seq<real> := [];
      ghost var from := calls;
      for j := 0 to n
        invariant calls == from + j && |resample| == j
        invariant forall k :: 0 <= k < j ==> resample[k] == sample[Pick(rng(from + k), n)]
      {
        resample := resample + [sample[Pick(rng(calls), n)]];
        calls := calls + 1;
      }
      assert resample == Resample(sample, rng, from);
      draws := draws + [stat(resample)];
      assert from + n == (i + 1) * n;
    }
    var sorted := SortBy(draws, Value);
    r := Estimate(stat(sample), Read(sorted, LowIndex(alpha, iterations)), Read(sorted, HighIndex(alpha, iterations)),
                  iterations, n);
  }

  function Mean(sample: seq<real>): real {
    if sample == [] then 0.0 else Sum(sample) / |sample| as real
  }

  /** `mean`: the summing loop. */
  method MeanOf(sample: seq<real>) returns (m: real)
    ensures m == Mean(sample)
  {
    if |sample| == 0 { return 0.0; }
    var sum := 0.0;
    for i := 0 to |sample|
      invariant sum == Sum(sample[..i])
    {
      assert sample[..i + 1][..i] == sample[..i];
      sum := sum + sample[i];
    }
    assert sample[..|sample|] == sample;
    m := sum / |sample| as real;
  }

  /** A statistic whose value always lies among the values it summarises. */
  ghost predicate Central(stat: Statistic) {
    forall s: seq<real>, lo: real, hi: real {:trigger Bounded(s, lo, hi), stat(s)} ::
      s != [] && Bounded(s, lo, hi) ==> lo <= stat(s) <= hi
  }

  ghost predicate Bounded(s: seq<real>, lo: real, hi: real) {
    forall i :: 0 <= i < |s| ==> lo <= s[i] <= hi
  }

  lemma MeanIsCentral()
    ensures Central(Mean)
  {
    forall s: seq<real>, lo: real, hi: real | s != [] && Bounded(s, lo, hi) ensures lo <= Mean(s) <= hi {
      MeanWithin(s, lo, hi);
    }
  }

  lemma {:induction false} DrawsBounded(sample: seq<real>, stat: Statistic, rng: nat -> real, count: nat, lo: real,
                                        hi: real)
    requires sample != [] && UnitSource(rng) && Central(stat) && Bounded(sample, lo, hi)
    ensures Bounded(Draws(sample, stat, rng, count), lo, hi)
  {
    if count > 0 {
      DrawsBounded(sample, stat, rng, count - 1, lo, hi);
      var r := Resample(sample, rng, (count - 1) * |sample|);
      assert Bounded(r, lo, hi);
    }
  }

  /** For every random source the interval is ordered and stays inside the sample's own range. */
  lemma IntervalWithinSample(sample: seq<real>, stat: Statistic, iterations: nat, alpha: real, rng: nat -> real)
    requires UnitSource(rng) && Central(stat) && sample != []
    requires iterations >= 1 && 0.0 <= alpha < 1.0
    ensures var r := Estimated(sample, stat, iterations, alpha, rng);
      && r.ciLow.Some? && r.ciHigh.Some?
      && Minimum(sample) <= r.ciLow.value <= r.ciHigh.value <= Maximum(sample)
  {
    assert forall i :: 0 <= i < |sample| ==> sample[i] in sample;
    if |sample| > 1 {
      var lo, hi := Minimum(sample), Maximum(sample);
      var d := Draws(sample, stat, rng, iterations);
      DrawsBounded(sample, stat, rng, iterations, lo, hi);
      IndexesOrdered(alpha, iterations);
      SortedWithin(d, SortBy(d, Value), lo, hi, LowIndex(alpha, iterations), HighIndex(alpha, iterations));
    }
  }

  lemma SortedWithin(d: seq<real>, s: seq<real>, lo: real, hi: real, i: nat, j: nat)
    requires Bounded(d, lo, hi) && multiset(s) == multiset(d) && Ascending(s, Value)
    requires i <= j < |s|
    ensures lo <= s[i] <= s[j] <= hi
  {
    SameMembers(d, s);
    assert s[i] in d && s[j] in d;
    SortedSteps(s, i, j);
  }

  /** Draw i of a bootstrap: the statistic of the i-th group of |sample| picks, each a member of the sample. */
  ghost predicate AreDraws(d: seq<real>, sample: seq<real>, stat: Statistic, rng: nat -> real)
    requires sample != [] && UnitSource(rng)
  {
    forall i :: 0 <= i < |d| ==> IsDraw(d[i], sample, stat, rng, i * |sample|)
  }

  ghost predicate IsDraw(x: real, sample: seq<real>, stat: Statistic, rng: nat -> real, from: nat)
    requires sample != [] && UnitSource(rng)
  {
    exists r: seq<real> :: IsResample(r, sample, rng, from) && x == stat(r)
  }

  ghost predicate IsResample(r: seq<real>, sample: seq<real>, rng: nat -> real, from: nat)
    requires sample != [] && UnitSource(rng)
  {
    |r| == |sample| && forall j :: 0 <= j < |r| ==> r[j] == sample[Pick(rng(from + j), |sample|)]
  }

  lemma {:induction false} DrawsAreUnique(d: seq<real>, sample: seq<real>, stat: Statistic, rng: nat -> real)
    requires sample != [] && UnitSource(rng) && AreDraws(d, sample, stat, rng)
    ensures d == Draws(sample, stat, rng, |d|)
  {
    if d != [] {
      var n := |d| - 1;
      DrawsAreUnique(d[..n], sample, stat, rng);
      assert IsDraw(d[n], sample, stat, rng, n * |sample|);
      var r: seq<real> :| IsResample(r, sample, rng, n * |sample|) && d[n] == stat(r);
      assert r == Resample(sample, rng, n * |sample|);
      assert d == d[..n] + [d[n]];
    }
  }

  /** v is the draw of rank k: whatever bound is named, v is below it exactly if more than k draws are. */
  ghost predicate OfRank(d: seq<real>, k: nat, v: real) {
    v in d && forall w :: v <= w <==> k < AtMost(d, w)
  }

  /**
   * The estimate of two or more values, without sorting: its bounds are the draws of rank floor(alpha / 2 * n) from
   * below and from above, out of n draws each taken of its own group of picks.
   */
  lemma BoundsAreQuantiles(sample: seq<real>, stat: Statistic, alpha: real, rng: nat -> real, d: seq<real>, k: nat)
    requires UnitSource(rng) && |sample| >= 2 && d != [] && AreDraws(d, sample, stat, rng)
    requires 0.0 <= alpha < 2.0 && k as real <= Times(alpha / 2.0, |d| as real) < (k + 1) as real
    ensures var r := Estimated(sample, stat, |d|, alpha, rng);
      && r.point == stat(sample) && r.iterations == |d| && r.n == |sample|
      && r.ciLow.Some? && k < |d| && OfRank(d, k, r.ciLow.value)
      && r.ciHigh.Some? && OfRank(d, |d| - 1 - k, r.ciHigh.value)
  {
    DrawsAreUnique(d, sample, stat, rng);
    IndexesInRange(alpha, |d|);
    assert LowIndex(alpha, |d|) == k;
    SortedRank(d, k);
    SortedRank(d, |d| - 1 - k);
  }

  lemma SortedRank(d: seq<real>, k: nat)
    requires k < |d|
    ensures OfRank(d, k, SortBy(d, Value)[k])
  {
    var s := SortBy(d, Value);
    SameMembers(s, d);
    assert s[k] in s;
    forall w ensures s[k] <= w <==> k < AtMost(d, w) {
      RankByCount(s, k, w);
      AtMostPermutation(s, d, w);
    }
  }

  function Deltas(a: seq<real>, b: seq<real>): (d: seq<real>)
    requires |a| == |b|
    ensures |d| == |a| && forall i :: 0 <= i < |d| ==> a[i] == b[i] + d[i]
  {
    seq(|a|, (i: nat) requires i < |a| => a[i] - b[i])
  }

  /** What `bootstrapDelta` returns; `None` is its throw on unpaired samples. */
  function EstimatedDelta(a: seq<real>, b: seq<real>, stat: Statistic, iterations: nat, alpha: real, rng: nat -> real)
    : Option<Estimate>
    requires UnitSource(rng)
  {
    if |a| != |b| then None else Some(Estimated(Deltas(a, b), stat, iterations, alpha, rng))
  }

  method BootstrapDelta(a: seq<real>, b: seq<real>, stat: Statistic, iterations: nat, alpha: real, rng: nat -> real)
    returns (r: Option<Estimate>)
    requires UnitSource(rng)
    ensures r == EstimatedDelta(a, b, stat, iterations, alpha, rng)
    ensures r.None? <==> |a| != |b|
  {
    if |a| != |b| { return None; }
    var deltas: seq<real> := [];
    for i := 0 to |a|
      invariant deltas == Deltas(a, b)[..i]
    {
      deltas := deltas + [a[i] - b[i]];
    }
    var estimate := Bootstrap(deltas, stat, iterations, alpha, rng);
    assert deltas == Deltas(a, b);
    r := Some(estimate);
  }

  function Negated(s: seq<real>): (r: seq<real>)
    ensures |r| == |s| && forall i :: 0 <= i < |s| ==> r[i] == -s[i]
  {
    seq(|s|, (i: nat) requires i < |s| => -s[i])
  }

  /** A statistic that changes sign with its sample. */
  ghost predicate Odd(stat: Statistic) {
    forall s: seq<real> {:trigger Negated(s)} :: stat(Negated(s)) == -stat(s)
  }

  lemma {:induction false} SumNegated(s: seq<real>)
    ensures Sum(Negated(s)) == -Sum(s)
  {
    if s != [] {
      SumNegated(s[..|s| - 1]);
      assert Negated(s)[..|s| - 1] == Negated(s[..|s| - 1]);
    }
  }

  lemma MeanIsOdd()
    ensures Odd(Mean)
  {
    forall s: seq<real> ensures Mean(Negated(s)) == -Mean(s) {
      MeanNegated(s);
    }
  }

  lemma MeanNegated(s: seq<real>)
    ensures Mean(Negated(s)) == -Mean(s)
  {
    SumNegated(s);
    if s != [] { NegatedQuotient(Sum(s), |s| as real); }
  }

  lemma NegatedQuotient(x: real, n: real)
    requires n > 0.0
    ensures (-x) / n == -(x / n)
  {
  }

  lemma {:induction false} DrawsNegated(sample: seq<real>, stat: Statistic, rng: nat -> real, count: nat)
    requires sample != [] && UnitSource(rng) && Odd(stat)
    ensures Draws(Negated(sample), stat, rng, count) == Negated(Draws(sample, stat, rng, count))
  {
    if count > 0 {
      DrawsNegated(sample, stat, rng, count - 1);
      var from := (count - 1) * |sample|;
      assert Resample(Negated(sample), rng, from) == Negated(Resample(sample, rng, from));
      var d := Draws(sample, stat, rng, count);
      assert d[..count - 1] == Draws(sample, stat, rng, count - 1);
    }
  }

  /** Negation turned back to front: what sorting does to negated draws. */
  ghost function Mirrored(s: seq<real>): (r: seq<real>)
    ensures |r| == |s| && forall i :: 0 <= i < |s| ==> r[i] == -s[|s| - 1 - i]
  {
    seq(|s|, (i: nat) requires i < |s| => -s[|s| - 1 - i])
  }

  lemma {:induction false} MirrorCounts(s: seq<real>)
    ensures multiset(Mirrored(s)) == multiset(Negated(s))
  {
    if s != [] {
      var front, last := s[..|s| - 1], s[|s| - 1];
      MirrorCounts(front);
      assert Mirrored(s) == [-last] + Mirrored(front);
      assert Negated(s) == Negated(front) + [-last];
    }
  }

  lemma {:induction false} NegatedCount(s: seq<real>, x: real)
    ensures multiset(Negated(s))[x] == multiset(s)[-x]
  {
    if s != [] {
      var front, last := s[..|s| - 1], s[|s| - 1];
      NegatedCount(front, x);
      AppendCount(front, last, -x);
      AppendCount(Negated(front), -last, x);
      assert s == front + [last];
      assert Negated(s) == Negated(front) + [-last];
    }
  }

  lemma AppendCount(s: seq<real>, last: real, x: real)
    ensures multiset(s + [last])[x] == multiset(s)[x] + if x == last then 1 else 0
  {
  }

  lemma SortNegated(d: seq<real>)
    ensures SortBy(Negated(d), Value) == Mirrored(SortBy(d, Value))
  {
    SortNegatedTo(d, SortBy(d, Value), SortBy(Negated(d), Value));
  }

  lemma SortNegatedTo(d: seq<real>, s: seq<real>, t: seq<real>)
    requires Ascending(s, Value) && multiset(s) == multiset(d)
    requires Ascending(t, Value) && multiset(t) == multiset(Negated(d))
    ensures t == Mirrored(s)
  {
    var m := Mirrored(s);
    forall i, j | 0 <= i <= j < |m| ensures Value(m[i]) <= Value(m[j]) {
      SortedSteps(s, |s| - 1 - j, |s| - 1 - i);
    }
    MirrorCounts(s);
    forall x ensures multiset(Negated(s))[x] == multiset(Negated(d))[x] {
      NegatedCount(s, x);
      NegatedCount(d, x);
    }
    assert multiset(Negated(s)) == multiset(Negated(d));
    AscendingUnique(m, t, Value);
  }

  ghost function Flip(x: Option<real>): Option<real> {
    if x.Some? then Some(-x.value) else None
  }

  /** Swapping the arms under one random stream exactly negates the estimate and swaps the bounds. */
  lemma ArmSwap(a: seq<real>, b: seq<real>, stat: Statistic, iterations: nat, alpha: real, rng: nat -> real)
    requires UnitSource(rng) && Odd(stat)
    requires iterations >= 1 && 0.0 <= alpha < 2.0 && |a| == |b|
    ensures var r := EstimatedDelta(a, b, stat, iterations, alpha, rng).value;
      EstimatedDelta(b, a, stat, iterations, alpha, rng) ==
      Some(Estimate(-r.point, Flip(r.ciHigh), Flip(r.ciLow), r.iterations, r.n))
  {
    var d := Deltas(a, b);
    DeltasNegate(a, b);
    Opposite(d, stat, iterations, alpha, rng);
    assert EstimatedDelta(a, b, stat, iterations, alpha, rng) == Some(Estimated(d, stat, iterations, alpha, rng));
    assert EstimatedDelta(b, a, stat, iterations, alpha, rng) ==
      Some(Estimated(Negated(d), stat, iterations, alpha, rng));
  }

  lemma DeltasNegate(a: seq<real>, b: seq<real>)
    requires |a| == |b|
    ensures Deltas(b, a) == Negated(Deltas(a, b))
  {
  }

  lemma Opposite(d: seq<real>, stat: Statistic, iterations: nat, alpha: real, rng: nat -> real)
    requires UnitSource(rng) && Odd(stat)
    requires iterations >= 1 && 0.0 <= alpha < 2.0
    ensures var r := Estimated(d, stat, iterations, alpha, rng);
      Estimated(Negated(d), stat, iterations, alpha, rng) ==
      Estimate(-r.point, Flip(r.ciHigh), Flip(r.ciLow), r.iterations, r.n)
  {
    if |d| > 1 {
      IndexesInRange(alpha, iterations);
      OppositeAt(d, stat, iterations, LowIndex(alpha, iterations), HighIndex(alpha, iterations), rng);
    }
  }

  lemma OppositeAt(d: seq<real>, stat: Statistic, iterations: nat, low: int, high: int, rng: nat -> real)
    requires UnitSource(rng) && Odd(stat) && d != []
    requires 0 <= low < iterations && high == iterations - 1 - low
    ensures var r := EstimatedAt(d, stat, iterations, low, high, rng);
      EstimatedAt(Negated(d), stat, iterations, low, high, rng) ==
      Estimate(-r.point, Flip(r.ciHigh), Flip(r.ciLow), r.iterations, r.n)
  {
    var draws := Draws(d, stat, rng, iterations);
    DrawsNegated(d, stat, rng, iterations);
    SortNegated(draws);
    ReadMirrored(SortBy(draws, Value), low);
    ReadMirrored(SortBy(draws, Value), high);
  }

  lemma ReadMirrored(s: seq<real>, i: nat)
    requires i < |s|
    ensures Read(Mirrored(s), i) == Flip(Read(s, |s| - 1 - i))
  {
  }
}
