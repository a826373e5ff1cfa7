/** Type-7 sample percentiles (Hyndman-Fan definition 7): eval-memory/harness/percentile.ts. */
module Percentile {
  import opened Sorting
  import opened Numbers

  function Minimum(xs: seq<real>): (m: real)
    requires xs != []
    ensures m in xs && forall x :: x in xs ==> m <= x
  {
    if |xs| == 1 then xs[0]
    else
      var m := Minimum(xs[1..]);
      assert xs == [xs[0]] + xs[1..];
      if xs[0] < m then xs[0] else m
  }

  function Maximum(xs: seq<real>): (m: real)
    requires xs != []
    ensures m in xs && forall x :: x in xs ==> x <= m
  {
    if |xs| == 1 then xs[0]
    else
      var m := Maximum(xs[1..]);
      assert xs == [xs[0]] + xs[1..];
      if xs[0] > m then xs[0] else m
  }

  /** Linear interpolation between the ranks around h, as the code computes it. */
  function At(s: seq<real>, h: real): real
    requires s != [] && 0.0 <= h <= (|s| - 1) as real
  {
    var floorH := h.Floor;
    var ceilH := if floorH + 1 <= |s| - 1 then floorH + 1 else |s| - 1;
    s[floorH] + Times(h - floorH as real, s[ceilH] - s[floorH])
  }

  /** `percentile`, over exact reals. */
  function Percentile(xs: seq<real>, fraction: real): real {
    if xs == [] then 0.0
    else if fraction <= 0.0 then Minimum(xs)
    else if fraction >= 1.0 then Maximum(xs)
    else
      var sorted := SortBy(xs, Value);
      var n := |sorted|;
      if n == 1 then sorted[0]
      else
        Scale((n - 1) as real, 0.0, fraction);
        Scale((n - 1) as real, fraction, 1.0);
        At(sorted, Times((n - 1) as real, fraction))
  }

  ghost function Clamp(f: real): real {
    if f <= 0.0 then 0.0 else if f >= 1.0 then 1.0 else f
  }

  lemma Scale(t: real, a: real, b: real)
    requires 0.0 <= t && a <= b
    ensures Times(t, a) <= Times(t, b) && Times(a, t) <= Times(b, t)
    ensures Times(t, 0.0) == 0.0 == Times(0.0, t) && Times(t, 1.0) == t == Times(1.0, t)
  {
  }

  lemma Ends(xs: seq<real>, s: seq<real>)
    requires xs != [] && Ascending(s, Value) && multiset(s) == multiset(xs)
    ensures |s| == |xs| && Minimum(xs) == s[0] && Maximum(xs) == s[|s| - 1]
  {
    SameMembers(xs, s);
    var lo, hi := Minimum(xs), Maximum(xs);
    assert lo in s && hi in s && s[0] in xs && s[|s| - 1] in xs;
    var i :| 0 <= i < |s| && s[i] == lo;
    var j :| 0 <= j < |s| && s[j] == hi;
    SortedSteps(s, 0, i);
    SortedSteps(s, j, |s| - 1);
  }

  lemma AtRank(s: seq<real>, k: nat)
    requires k < |s|
    ensures At(s, k as real) == s[k]
  {
    ZeroTimes(s[if k + 1 <= |s| - 1 then k + 1 else |s| - 1] - s[k]);
  }

  ghost function Rank(n: nat, f: real): (h: real)
    requires n >= 1
    ensures 0.0 <= h <= (n - 1) as real
  {
    Scale((n - 1) as real, 0.0, Clamp(f));
    Scale((n - 1) as real, Clamp(f), 1.0);
    Times((n - 1) as real, Clamp(f))
  }

  /** Every branch of `percentile` reads one curve through the sorted sample. */
  lemma PercentileIsCurve(xs: seq<real>, f: real)
    requires xs != []
    ensures Percentile(xs, f) == At(SortBy(xs, Value), Rank(|xs|, f))
  {
    Branches(xs, SortBy(xs, Value), f);
  }

  lemma Branches(xs: seq<real>, s: seq<real>, f: real)
    requires xs != [] && s == SortBy(xs, Value)
    ensures Percentile(xs, f) == At(s, Rank(|xs|, f))
  {
    if f <= 0.0 || f >= 1.0 || |xs| == 1 {
      Scale((|xs| - 1) as real, 0.0, 1.0);
      ZeroTimes(f);
      Ends(xs, s);
      AtRank(s, 0);
      AtRank(s, |xs| - 1);
      assert Rank(|xs|, f) == 0.0 || Rank(|xs|, f) == (|xs| - 1) as real;
    }
  }

  lemma SortedSteps(s: seq<real>, i: nat, j: nat)
    requires Ascending(s, Value) && i <= j < |s|
    ensures s[i] <= s[j]
  {
    assert Value(s[i]) <= Value(s[j]);
  }

  /** Within a segment the curve stays between its ends. */
  lemma CurveInSegment(s: seq<real>, h: real)
    requires s != [] && Ascending(s, Value) && 0.0 <= h <= (|s| - 1) as real
    ensures s[h.Floor] <= At(s, h)
    ensures h.Floor + 1 < |s| ==> At(s, h) <= s[h.Floor + 1]
  {
    var k := h.Floor;
    var c := if k + 1 < |s| then k + 1 else k;
    SortedSteps(s, k, c);
    Scale(h - k as real, 0.0, s[c] - s[k]);
    Scale(s[c] - s[k], h - k as real, 1.0);
  }

  lemma CurveMonotone(s: seq<real>, g: real, h: real)
    requires s != [] && Ascending(s, Value) && 0.0 <= g <= h <= (|s| - 1) as real
    ensures At(s, g) <= At(s, h)
  {
    CurveInSegment(s, g);
    CurveInSegment(s, h);
    var j, k := g.Floor, h.Floor;
    if j < k {
      SortedSteps(s, j + 1, k);
    } else {
      var c := if k + 1 < |s| then k + 1 else k;
      SortedSteps(s, k, c);
      Scale(s[c] - s[k], g - k as real, h - k as real);
    }
  }

  lemma Blend(t: real, a: real, b: real)
    ensures a + Times(t, b - a) == Times(1.0 - t, a) + Times(t, b)
  {
  }

  lemma CurvePointwise(s: seq<real>, t: seq<real>, h: real)
    requires s != [] && |s| == |t| && 0.0 <= h <= (|s| - 1) as real
    requires forall k :: 0 <= k < |s| ==> s[k] <= t[k]
    ensures At(s, h) <= At(t, h)
  {
    var k := h.Floor;
    var c := if k + 1 < |s| then k + 1 else k;
    var f := h - k as real;
    Blend(f, s[k], s[c]);
    Blend(f, t[k], t[c]);
    Scale(f, s[c], t[c]);
    Scale(1.0 - f, s[k], t[k]);
  }

  /** How many members are at most v. */
  ghost function AtMost(s: seq<real>, v: real): nat {
    if s == [] then 0 else AtMost(s[..|s| - 1], v) + if s[|s| - 1] <= v then 1 else 0
  }

  lemma {:induction false} AtMostRemove(s: seq<real>, i: nat, v: real)
    requires i < |s|
    ensures AtMost(s, v) == AtMost(s[..i] + s[i + 1..], v) + if s[i] <= v then 1 else 0
  {
    var last := |s| - 1;
    if i == last {
      assert s[..i] + s[i + 1..] == s[..last];
    } else {
      AtMostRemove(s[..last], i, v);
      var cut := s[..i] + s[i + 1..];
      assert |cut| == |s| - 1 && cut[|cut| - 1] == s[last];
      assert cut[..|cut| - 1] == s[..last][..i] + s[..last][i + 1..];
    }
  }

  lemma {:induction false} AtMostPermutation(s: seq<real>, t: seq<real>, v: real)
    requires multiset(s) == multiset(t)
    ensures AtMost(s, v) == AtMost(t, v)
  {
    SameMembers(s, t);
    if s != [] {
      var last := |s| - 1;
      assert s[last] in s && s[last] in t;
      var i :| 0 <= i < |t| && t[i] == s[last];
      TakeLast(s);
      TakeOut(t, i);
      AtMostRemove(t, i, v);
      AtMostPermutation(s[..last], t[..i] + t[i + 1..], v);
    }
  }

  lemma {:induction false} AtMostPointwise(s: seq<real>, t: seq<real>, v: real)
    requires |s| == |t| && forall k :: 0 <= k < |s| ==> s[k] <= t[k]
    ensures AtMost(t, v) <= AtMost(s, v)
  {
    if s != [] {
      AtMostPointwise(s[..|s| - 1], t[..|s| - 1], v);
    }
  }

  /** In an ascending sample, the k-th member is at most v exactly when more than k members are. */
  lemma {:induction false} RankByCount(s: seq<real>, k: nat, v: real)
    requires Ascending(s, Value) && k < |s|
    ensures s[k] <= v <==> k < AtMost(s, v)
  {
    var last := |s| - 1;
    var front := s[..last];
    assert Ascending(front, Value) by {
      forall i, j | 0 <= i <= j < |front| ensures Value(front[i]) <= Value(front[j]) {
        assert Value(s[i]) <= Value(s[j]);
      }
    }
    if k < last {
      RankByCount(front, k, v);
      if s[last] <= v { SortedSteps(s, k, last); }
    } else {
      if s[last] <= v {
        forall i | 0 <= i < |s| ensures s[i] <= v { SortedSteps(s, i, last); }
      }
      AtMostTotal(front, v);
    }
  }

  lemma {:induction false} AtMostTotal(s: seq<real>, v: real)
    ensures AtMost(s, v) <= |s|
    ensures (forall i :: 0 <= i < |s| ==> s[i] <= v) ==> AtMost(s, v) == |s|
  {
    if s != [] { AtMostTotal(s[..|s| - 1], v); }
  }

  /** Order statistics respect pointwise order of the unsorted samples. */
  lemma OrderStatisticMonotone(xs: seq<real>, ys: seq<real>, k: nat)
    requires |xs| == |ys| && k < |xs|
    requires forall i :: 0 <= i < |xs| ==> xs[i] <= ys[i]
    ensures SortBy(xs, Value)[k] <= SortBy(ys, Value)[k]
  {
    var s, t := SortBy(xs, Value), SortBy(ys, Value);
    var v := t[k];
    RankByCount(t, k, v);
    AtMostPermutation(t, ys, v);
    AtMostPointwise(xs, ys, v);
    AtMostPermutation(s, xs, v);
    RankByCount(s, k, v);
  }

  lemma MonotoneInFraction(xs: seq<real>, f: real, g: real)
    requires f <= g
    ensures Percentile(xs, f) <= Percentile(xs, g)
  {
    if xs != [] {
      PercentileIsCurve(xs, f);
      PercentileIsCurve(xs, g);
      Scale((|xs| - 1) as real, Clamp(f), Clamp(g));
      CurveMonotone(SortBy(xs, Value), Rank(|xs|, f), Rank(|xs|, g));
    }
  }

  lemma MonotoneInData(xs: seq<real>, ys: seq<real>, f: real)
    requires |xs| == |ys| && forall i :: 0 <= i < |xs| ==> xs[i] <= ys[i]
    ensures Percentile(xs, f) <= Percentile(ys, f)
  {
    if xs != [] {
      PercentileIsCurve(xs, f);
      PercentileIsCurve(ys, f);
      forall k: nat | k < |xs| ensures SortBy(xs, Value)[k] <= SortBy(ys, Value)[k] {
        OrderStatisticMonotone(xs, ys, k);
      }
      CurvePointwise(SortBy(xs, Value), SortBy(ys, Value), Rank(|xs|, f));
    }
  }

  lemma OrderIrrelevant(xs: seq<real>, ys: seq<real>, f: real)
    requires multiset(xs) == multiset(ys)
    ensures Percentile(xs, f) == Percentile(ys, f)
  {
    SameMembers(xs, ys);
    AscendingUnique(SortBy(xs, Value), SortBy(ys, Value), Value);
    if xs != [] {
      PercentileIsCurve(xs, f);
      PercentileIsCurve(ys, f);
    }
  }

  lemma WithinSample(xs: seq<real>, f: real)
    requires xs != []
    ensures Minimum(xs) <= Percentile(xs, f) <= Maximum(xs)
  {
    MonotoneInFraction(xs, if f <= 0.0 then f else 0.0, f);
    MonotoneInFraction(xs, f, if f >= 1.0 then f else 1.0);
  }

  /** At an exact rank the percentile is that member of the sorted sample. */
  lemma ExactAtRank(xs: seq<real>, k: nat, f: real)
    requires k < |xs| && 0.0 <= f <= 1.0
    requires Times((|xs| - 1) as real, f) == k as real
    ensures Percentile(xs, f) == SortBy(xs, Value)[k]
  {
    assert Rank(|xs|, f) == k as real by { assert Clamp(f) == f; }
    PercentileIsCurve(xs, f);
    AtRank(SortBy(xs, Value), k);
  }

  lemma FloorOf(k: nat, t: real)
    requires 0.0 <= t < 1.0
    ensures (k as real + t).Floor == k
  {
  }

  lemma CurveBetween(s: seq<real>, k: nat, t: real)
    requires k + 1 < |s| && 0.0 <= t <= 1.0
    ensures At(s, k as real + t) == Times(1.0 - t, s[k]) + Times(t, s[k + 1])
  {
    if t < 1.0 {
      FloorOf(k, t);
      Blend(t, s[k], s[k + 1]);
    } else {
      AtRank(s, k + 1);
      ZeroTimes(s[k]);
      UnitTimes(s[k + 1]);
    }
  }

  lemma UnitTimes(x: real)
    ensures Times(1.0, x) == x
  {
  }

  /**
   * Definition 7 itself, on any ascending arrangement s of the sample: t of the way from rank k to the next, the
   * percentile is t of the way from the one member to the other.
   */
  lemma BetweenRanks(xs: seq<real>, s: seq<real>, k: nat, t: real, f: real)
    requires Ascending(s, Value) && multiset(s) == multiset(xs)
    requires k + 1 < |s| && 0.0 <= t <= 1.0 && Times((|s| - 1) as real, f) == k as real + t
    ensures Percentile(xs, f) == Times(1.0 - t, s[k]) + Times(t, s[k + 1])
  {
    PercentileAt(xs, s, f, k as real + t);
    CurveBetween(s, k, t);
  }

  lemma PercentileAt(xs: seq<real>, s: seq<real>, f: real, h: real)
    requires Ascending(s, Value) && multiset(s) == multiset(xs)
    requires |s| >= 2 && 0.0 <= h <= (|s| - 1) as real && Times((|s| - 1) as real, f) == h
    ensures Percentile(xs, f) == At(s, h)
  {
    SameMembers(xs, s);
    AscendingUnique(s, SortBy(xs, Value), Value);
    PercentileIsCurve(xs, f);
    RankWithin(|s|, f, h);
  }

  lemma RankWithin(n: nat, f: real, h: real)
    requires n >= 2 && 0.0 <= h <= (n - 1) as real && Times((n - 1) as real, f) == h
    ensures Rank(n, f) == h
  {
    InUnit((n - 1) as real, f);
    assert Clamp(f) == f;
  }

  /** At or beyond either end it is the end, and of nothing it is zero. */
  lemma BeyondRanks(xs: seq<real>, s: seq<real>, f: real)
    requires Ascending(s, Value) && multiset(s) == multiset(xs)
    ensures xs == [] ==> Percentile(xs, f) == 0.0
    ensures xs != [] && f <= 0.0 ==> s != [] && Percentile(xs, f) == s[0]
    ensures xs != [] && f >= 1.0 ==> s != [] && Percentile(xs, f) == s[|s| - 1]
    ensures |xs| == 1 ==> Percentile(xs, f) == xs[0]
  {
    if xs != [] { Ends(xs, s); }
    if |xs| == 1 { WithinSample(xs, f); }
  }

  lemma InUnit(n: real, f: real)
    requires n > 0.0 && 0.0 <= Times(n, f) <= n
    ensures 0.0 <= f <= 1.0
  {
    if f < 0.0 { NegativeTimes(n, f); }
    if f > 1.0 { NegativeTimes(n, 1.0 - f); }
  }

  lemma NegativeTimes(n: real, f: real)
    requires n > 0.0 && f < 0.0
    ensures Times(n, f) < 0.0
  {
  }

  lemma ZeroTimes(x: real)
    ensures Times(0.0, x) == 0.0
  {
  }

  function Sum(xs: seq<real>): real {
    if xs == [] then 0.0 else Sum(xs[..|xs| - 1]) + xs[|xs| - 1]
  }

  lemma {:induction false} SumBounds(xs: seq<real>, lo: real, hi: real)
    requires forall i :: 0 <= i < |xs| ==> lo <= xs[i] <= hi
    ensures Times(|xs| as real, lo) <= Sum(xs) <= Times(|xs| as real, hi)
  {
    if xs == [] {
      ZeroTimes(lo);
      ZeroTimes(hi);
    } else {
      SumBounds(xs[..|xs| - 1], lo, hi);
      OneMore(|xs| - 1, lo);
      OneMore(|xs| - 1, hi);
    }
  }

  lemma OneMore(n: nat, x: real)
    ensures Times((n + 1) as real, x) == Times(n as real, x) + x
  {
  }

  lemma DivideBounds(total: real, n: real, lo: real, hi: real)
    requires n > 0.0 && Times(n, lo) <= total <= Times(n, hi)
    ensures lo <= total / n <= hi
    ensures Times(total / n, n) == total
  {
  }

  lemma MeanWithin(xs: seq<real>, lo: real, hi: real)
    requires xs != [] && forall i :: 0 <= i < |xs| ==> lo <= xs[i] <= hi
    ensures lo <= Sum(xs) / |xs| as real <= hi
  {
    SumBounds(xs, lo, hi);
    DivideBounds(Sum(xs), |xs| as real, lo, hi);
  }

  lemma MedianBelowP95(xs: seq<real>)
    ensures Percentile(xs, 0.5) <= Percentile(xs, 0.95)
    ensures xs != [] ==> Minimum(xs) <= Percentile(xs, 0.5) && Percentile(xs, 0.95) <= Maximum(xs)
  {
    MonotoneInFraction(xs, 0.5, 0.95);
    if xs != [] {
      WithinSample(xs, 0.5);
      WithinSample(xs, 0.95);
    }
  }

  /** `meanP50P95`: the summing loop and the two percentiles. */
  method MeanP50P95(xs: seq<real>) returns (mean: real, p50: real, p95: real)
    ensures p50 <= p95
    ensures p50 == Percentile(xs, 0.5) && p95 == Percentile(xs, 0.95)
    ensures xs == [] ==> mean == p50 == p95 == 0.0
    ensures xs != [] ==> mean == Sum(xs) / |xs| as real
    ensures xs != [] ==> Minimum(xs) <= mean <= Maximum(xs)
    ensures xs != [] ==> Minimum(xs) <= p50 && p95 <= Maximum(xs)
  {
    if xs == [] { return 0.0, 0.0, 0.0; }
    var sum := 0.0;
    for i := 0 to |xs|
      invariant sum == Sum(xs[..i])
    {
      assert xs[..i + 1][..i] == xs[..i];
      sum := sum + xs[i];
    }
    assert xs[..|xs|] == xs;
    assert forall i :: 0 <= i < |xs| ==> xs[i] in xs;
    MeanWithin(xs, Minimum(xs), Maximum(xs));
    mean := sum / |xs| as real;
    MedianBelowP95(xs);
    p50, p95 := Percentile(xs, 0.5), Percentile(xs, 0.95);
  }
}
