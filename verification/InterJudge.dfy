/** Agreement of two raters: eval-memory/harness/inter-judge-stats.ts, over exact reals. */
module InterJudge {
  import opened Numbers

  datatype Weighting = Unweighted | Linear | Quadratic

  datatype Failure = LengthMismatch | BadLevels | OutOfRange(rater: Rater, score: int)
  datatype Rater = RaterA | RaterB
  datatype Outcome<+T> = Ok(value: T) | Err(error: Failure)

  /** The scale of a weighted statistic. */
  datatype Scale = Scale(levels: int, weighting: Weighting)

  function Div(x: real, y: real): real
    requires y != 0.0
  {
    x / y
  }

  function Distance(x: int, y: int): nat { if x <= y then y - x else x - y }

  /** How much credit ratings x and y get: 1 on the diagonal, less the further off it. */
  function Weight(s: Scale, x: int, y: int): real
    requires s.levels >= 2
  {
    match s.weighting
    case Unweighted => if x == y then 1.0 else 0.0
    case Linear => 1.0 - Div(Distance(x, y) as real, (s.levels - 1) as real)
    case Quadratic =>
      var d := Div((x - y) as real, (s.levels - 1) as real);
      1.0 - Times(d, d)
  }

  lemma WeightLaws(s: Scale, x: int, y: int)
    requires s.levels >= 2
    ensures Weight(s, x, y) == Weight(s, y, x) <= 1.0
    ensures Weight(s, x, y) == 1.0 <==> x == y
  {
    var top := (s.levels - 1) as real;
    Quotient(Distance(x, y) as real, top);
    Squares((x - y) as real, (y - x) as real, top);
  }

  lemma Quotient(d: real, top: real)
    requires top > 0.0 && d >= 0.0
    ensures Div(d, top) >= 0.0
    ensures Div(d, top) == 0.0 <==> d == 0.0
  {
    assert Div(d, top) * top == d;
  }

  lemma Squares(d: real, e: real, top: real)
    requires top > 0.0 && e == -d
    ensures Times(Div(d, top), Div(d, top)) == Times(Div(e, top), Div(e, top)) >= 0.0
    ensures Times(Div(d, top), Div(d, top)) == 0.0 <==> d == 0.0
  {
    var q := Div(d, top);
    assert q * top == d;
    assert Div(e, top) == -q by { assert Div(e, top) * top == (-q) * top; Cancel(Div(e, top), -q, top); }
  }

  lemma Cancel(x: real, y: real, t: real)
    requires t > 0.0 && x * t == y * t
    ensures x == y
  {
    assert (x - y) * t == 0.0;
  }

  // ----- agreement, item by item -----

  predicate Rated(scores: seq<int>, levels: int) {
    forall k :: 0 <= k < |scores| ==> 1 <= scores[k] <= levels
  }

  /** The credit of the items as the raters paired them. */
  function PairCredit(s: Scale, a: seq<int>, b: seq<int>): real
    requires s.levels >= 2 && |a| == |b|
  {
    if a == [] then 0.0
    else PairCredit(s, a[..|a| - 1], b[..|b| - 1]) + Weight(s, a[|a| - 1], b[|b| - 1])
  }

  /** The credit of one rating against every rating of the other rater. */
  function RowCredit(s: Scale, x: int, b: seq<int>): real
    requires s.levels >= 2
  {
    if b == [] then 0.0 else RowCredit(s, x, b[..|b| - 1]) + Weight(s, x, b[|b| - 1])
  }

  /** The credit of every pairing of the two raters' ratings. */
  function CrossCredit(s: Scale, a: seq<int>, b: seq<int>): real
    requires s.levels >= 2
  {
    if a == [] then 0.0 else CrossCredit(s, a[..|a| - 1], b) + RowCredit(s, a[|a| - 1], b)
  }

  function Observed(s: Scale, a: seq<int>, b: seq<int>): real
    requires s.levels >= 2 && |a| == |b| > 0
  {
    Div(PairCredit(s, a, b), |a| as real)
  }

  /** The agreement of the same ratings paired at random. */
  function Expected(s: Scale, a: seq<int>, b: seq<int>): real
    requires s.levels >= 2 && |a| == |b| > 0
  {
    Div(CrossCredit(s, a, b), Times(|a| as real, |a| as real))
  }

  function FirstBad(a: seq<int>, b: seq<int>, levels: int, from: nat): (bad: Outcome<()>)
    requires |a| == |b| && from <= |a|
    ensures bad.Ok? <==> Rated(a[from..], levels) && Rated(b[from..], levels)
    decreases |a| - from
  {
    if from == |a| then Ok(())
    else if !(1 <= a[from] <= levels) then Err(OutOfRange(RaterA, a[from]))
    else if !(1 <= b[from] <= levels) then Err(OutOfRange(RaterB, b[from]))
    else
      assert a[from..] == [a[from]] + a[from + 1..] && b[from..] == [b[from]] + b[from + 1..];
      FirstBad(a, b, levels, from + 1)
  }

  /** Chance-corrected agreement, by the definition; 0 where it is undefined. */
  function Kappa(s: Scale, a: seq<int>, b: seq<int>): real
    requires s.levels >= 2 && |a| == |b| > 0
  {
    var o, e := Observed(s, a, b), Expected(s, a, b);
    if e == 1.0 then 0.0 else Div(o - e, 1.0 - e)
  }

  function KappaOf(a: seq<int>, b: seq<int>, s: Scale): Outcome<real> {
    if |a| != |b| then Err(LengthMismatch)
    else if |a| == 0 then Ok(0.0)
    else if s.levels < 2 then Err(BadLevels)
    else match FirstBad(a, b, s.levels, 0)
      case Err(e) => Err(e)
      case Ok(_) => Ok(Kappa(s, a, b))
  }

  /** The fault reported is that of the first item with a rating off the scale, rater A's before rater B's. */
  lemma FirstFaultExactly(a: seq<int>, b: seq<int>, s: Scale, k: nat)
    requires |a| == |b| && k < |a| && s.levels >= 2 && Rated(a[..k], s.levels) && Rated(b[..k], s.levels)
    ensures !(1 <= a[k] <= s.levels) ==> KappaOf(a, b, s) == Err(OutOfRange(RaterA, a[k]))
    ensures 1 <= a[k] <= s.levels && !(1 <= b[k] <= s.levels) ==> KappaOf(a, b, s) == Err(OutOfRange(RaterB, b[k]))
  {
    FirstBadFrom(a, b, s.levels, 0, k);
  }

  lemma {:induction false} FirstBadFrom(a: seq<int>, b: seq<int>, levels: int, from: nat, k: nat)
    requires |a| == |b| && from <= k < |a| && Rated(a[..k], levels) && Rated(b[..k], levels)
    ensures FirstBad(a, b, levels, from) == FirstBad(a, b, levels, k)
    decreases k - from
  {
    if from < k {
      assert a[..k][from] == a[from] && b[..k][from] == b[from];
      FirstBadFrom(a, b, levels, from + 1, k);
    }
  }

  // ----- laws -----

  lemma {:induction false} PairSymmetric(s: Scale, a: seq<int>, b: seq<int>)
    requires s.levels >= 2 && |a| == |b|
    ensures PairCredit(s, a, b) == PairCredit(s, b, a)
  {
    if a != [] {
      PairSymmetric(s, a[..|a| - 1], b[..|b| - 1]);
      WeightLaws(s, a[|a| - 1], b[|b| - 1]);
    }
  }

  lemma {:induction false} CrossByColumns(s: Scale, a: seq<int>, b: seq<int>)
    requires s.levels >= 2 && b != []
    ensures CrossCredit(s, a, b) == CrossCredit(s, a, b[..|b| - 1]) + RowCredit(s, b[|b| - 1], a)
  {
    if a != [] {
      CrossByColumns(s, a[..|a| - 1], b);
      WeightLaws(s, a[|a| - 1], b[|b| - 1]);
    }
  }

  lemma {:induction false} CrossWithNone(s: Scale, a: seq<int>)
    requires s.levels >= 2
    ensures CrossCredit(s, a, []) == 0.0
  {
    if a != [] { CrossWithNone(s, a[..|a| - 1]); }
  }

  lemma {:induction false} CrossSymmetric(s: Scale, a: seq<int>, b: seq<int>)
    requires s.levels >= 2
    ensures CrossCredit(s, a, b) == CrossCredit(s, b, a)
  {
    if b == [] {
      CrossWithNone(s, a);
    } else {
      CrossByColumns(s, a, b);
      CrossSymmetric(s, a, b[..|b| - 1]);
    }
  }

  /** Neither rater is privileged, whatever the weighting. */
  lemma KappaSymmetric(s: Scale, a: seq<int>, b: seq<int>)
    requires s.levels >= 2 && |a| == |b| > 0
    ensures Kappa(s, a, b) == Kappa(s, b, a)
  {
    PairSymmetric(s, a, b);
    CrossSymmetric(s, a, b);
  }

  lemma {:induction false} PairBound(s: Scale, a: seq<int>, b: seq<int>)
    requires s.levels >= 2 && |a| == |b|
    ensures PairCredit(s, a, b) <= |a| as real
    ensures PairCredit(s, a, b) == |a| as real <==> a == b
  {
    if a != [] {
      PairBound(s, a[..|a| - 1], b[..|b| - 1]);
      WeightLaws(s, a[|a| - 1], b[|b| - 1]);
      assert a == a[..|a| - 1] + [a[|a| - 1]] && b == b[..|b| - 1] + [b[|b| - 1]];
    }
  }

  predicate AllAre(scores: seq<int>, x: int) { forall k :: 0 <= k < |scores| ==> scores[k] == x }

  lemma {:induction false} RowBound(s: Scale, x: int, b: seq<int>)
    requires s.levels >= 2
    ensures RowCredit(s, x, b) <= |b| as real
    ensures RowCredit(s, x, b) == |b| as real <==> AllAre(b, x)
  {
    if b != [] {
      RowBound(s, x, b[..|b| - 1]);
      WeightLaws(s, x, b[|b| - 1]);
      assert b == b[..|b| - 1] + [b[|b| - 1]];
    }
  }

  lemma {:induction false} CrossBound(s: Scale, a: seq<int>, b: seq<int>)
    requires s.levels >= 2 && b != []
    ensures CrossCredit(s, a, b) <= Times(|a| as real, |b| as real)
    ensures CrossCredit(s, a, b) == Times(|a| as real, |b| as real) <==> forall k :: 0 <= k < |a| ==> AllAre(b, a[k])
  {
    if a != [] {
      CrossBound(s, a[..|a| - 1], b);
      RowBound(s, a[|a| - 1], b);
      OneMoreRow(|a| - 1, |b|);
      assert a == a[..|a| - 1] + [a[|a| - 1]];
    }
  }

  lemma OneMoreRow(n: nat, m: nat)
    ensures Times((n + 1) as real, m as real) == Times(n as real, m as real) + m as real
  {
  }

  lemma AtMostWhole(x: real, n: real)
    requires n > 0.0 && x <= n
    ensures Div(x, n) <= 1.0
    ensures Div(x, n) == 1.0 <==> x == n
  {
    assert Div(x, n) * n == x;
    CancelOrder(Div(x, n), 1.0, n);
  }

  lemma CancelOrder(x: real, y: real, t: real)
    requires t > 0.0 && x * t <= y * t
    ensures x <= y
  {
    assert (x - y) * t <= 0.0;
  }

  lemma Positive(x: real, n: real)
    requires x > 0.0 && n > 0.0
    ensures Times(x, n) > 0.0 && x * n == Times(x, n)
  {
  }

  /** Both raters used one and the same single level. */
  predicate OneLevel(a: seq<int>, b: seq<int>)
    requires a != []
  {
    AllAre(a, a[0]) && AllAre(b, a[0])
  }

  /** Agreement by chance is certain exactly when both raters used one and the same single level. */
  lemma ChanceIsCertain(s: Scale, a: seq<int>, b: seq<int>)
    requires s.levels >= 2 && |a| == |b| > 0
    ensures Expected(s, a, b) <= 1.0
    ensures Expected(s, a, b) == 1.0 <==> OneLevel(a, b)
  {
    var n := |a| as real;
    Positive(n, n);
    CrossBound(s, a, b);
    AtMostWhole(CrossCredit(s, a, b), Times(n, n));
    EveryIsOne(a, b);
  }

  lemma EveryIsOne(a: seq<int>, b: seq<int>)
    requires a != [] && b != []
    ensures OneLevel(a, b) <==> forall k :: 0 <= k < |a| ==> AllAre(b, a[k])
  {
    if forall k :: 0 <= k < |a| ==> AllAre(b, a[k]) {
      forall k | 0 <= k < |a| ensures a[k] == a[0] {
        assert AllAre(b, a[k]) && AllAre(b, a[0]);
        assert a[k] == b[0] == a[0];
      }
    }
  }

  lemma ObservedBound(s: Scale, a: seq<int>, b: seq<int>)
    requires s.levels >= 2 && |a| == |b| > 0
    ensures Observed(s, a, b) <= 1.0
    ensures Observed(s, a, b) == 1.0 <==> a == b
  {
    PairBound(s, a, b);
    AtMostWhole(PairCredit(s, a, b), |a| as real);
  }

  /** Kappa never exceeds 1, and is 1 exactly for identical ratings over at least two levels. */
  lemma KappaAtMostOne(s: Scale, a: seq<int>, b: seq<int>)
    requires s.levels >= 2 && |a| == |b| > 0
    ensures Kappa(s, a, b) <= 1.0
    ensures Kappa(s, a, b) == 1.0 <==> a == b && !OneLevel(a, b)
  {
    ChanceIsCertain(s, a, b);
    ObservedBound(s, a, b);
    var o, e := Observed(s, a, b), Expected(s, a, b);
    if e != 1.0 { AtMostWhole(o - e, 1.0 - e); }
  }

  // ----- the confusion matrix -----

  /** How often A said x while B said y. */
  function PairCount(a: seq<int>, b: seq<int>, x: int, y: int): (c: nat)
    requires |a| == |b|
    ensures c <= |a|
  {
    if a == [] then 0
    else PairCount(a[..|a| - 1], b[..|b| - 1], x, y) + if a[|a| - 1] == x && b[|b| - 1] == y then 1 else 0
  }

  function CountOf(scores: seq<int>, x: int): (c: nat)
    ensures c <= |scores|
  {
    if scores == [] then 0 else CountOf(scores[..|scores| - 1], x) + if scores[|scores| - 1] == x then 1 else 0
  }

  /** The sum of a row's first m cells, and of a column's. */
  function RowCount(a: seq<int>, b: seq<int>, x: int, m: nat): nat
    requires |a| == |b|
  {
    if m == 0 then 0 else RowCount(a, b, x, m - 1) + PairCount(a, b, x, m)
  }

  function ColumnCount(a: seq<int>, b: seq<int>, y: int, m: nat): nat
    requires |a| == |b|
  {
    if m == 0 then 0 else ColumnCount(a, b, y, m - 1) + PairCount(a, b, m, y)
  }

  lemma {:induction false} RowCountStep(a: seq<int>, b: seq<int>, x: int, m: nat)
    requires |a| == |b| > 0 && b[|b| - 1] >= 1
    ensures RowCount(a, b, x, m) == RowCount(a[..|a| - 1], b[..|b| - 1], x, m)
      + if a[|a| - 1] == x && b[|b| - 1] <= m then 1 else 0
  {
    if m > 0 { RowCountStep(a, b, x, m - 1); }
  }

  lemma {:induction false} ColumnCountStep(a: seq<int>, b: seq<int>, y: int, m: nat)
    requires |a| == |b| > 0 && a[|a| - 1] >= 1
    ensures ColumnCount(a, b, y, m) == ColumnCount(a[..|a| - 1], b[..|b| - 1], y, m)
      + if b[|b| - 1] == y && a[|a| - 1] <= m then 1 else 0
  {
    if m > 0 { ColumnCountStep(a, b, y, m - 1); }
  }

  lemma {:induction false} NoPairs(x: int, y: int, m: nat)
    ensures RowCount([], [], x, m) == 0 && ColumnCount([], [], y, m) == 0
  {
    if m > 0 { NoPairs(x, y, m - 1); }
  }

  /** Rows are A's marginals, columns are B's. */
  lemma {:induction false} Marginals(a: seq<int>, b: seq<int>, x: int, levels: nat)
    requires |a| == |b| && Rated(a, levels) && Rated(b, levels)
    ensures RowCount(a, b, x, levels) == CountOf(a, x) && ColumnCount(a, b, x, levels) == CountOf(b, x)
  {
    if a == [] {
      NoPairs(x, x, levels);
    } else {
      RowCountStep(a, b, x, levels);
      ColumnCountStep(a, b, x, levels);
      Marginals(a[..|a| - 1], b[..|b| - 1], x, levels);
    }
  }

  /** The diagonal counts the items both raters scored alike. */
  function Diagonal(a: seq<int>, b: seq<int>, m: nat): nat
    requires |a| == |b|
  {
    if m == 0 then 0 else Diagonal(a, b, m - 1) + PairCount(a, b, m, m)
  }

  function Hits(a: seq<int>, b: seq<int>): nat
    requires |a| == |b|
  {
    if a == [] then 0 else Hits(a[..|a| - 1], b[..|b| - 1]) + if a[|a| - 1] == b[|b| - 1] then 1 else 0
  }

  lemma {:induction false} DiagonalStep(a: seq<int>, b: seq<int>, m: nat)
    requires |a| == |b| > 0 && a[|a| - 1] >= 1
    ensures Diagonal(a, b, m) == Diagonal(a[..|a| - 1], b[..|b| - 1], m)
      + if a[|a| - 1] == b[|b| - 1] <= m then 1 else 0
  {
    if m > 0 { DiagonalStep(a, b, m - 1); }
  }

  lemma {:induction false} NoDiagonal(m: nat)
    ensures Diagonal([], [], m) == 0
  {
    if m > 0 { NoDiagonal(m - 1); }
  }

  lemma {:induction false} DiagonalIsHits(a: seq<int>, b: seq<int>, levels: nat)
    requires |a| == |b| && Rated(a, levels) && Rated(b, levels)
    ensures Diagonal(a, b, levels) == Hits(a, b)
  {
    if a == [] {
      NoDiagonal(levels);
    } else {
      DiagonalStep(a, b, levels);
      DiagonalIsHits(a[..|a| - 1], b[..|b| - 1], levels);
    }
  }

  // ----- what the loops add up -----

  /** The credit of the cells of row x: first by how often they occur, then by how often they would at random. */
  function ObservedRow(s: Scale, a: seq<int>, b: seq<int>, n: real, x: int, m: nat): real
    requires s.levels >= 2 && |a| == |b| && n > 0.0
  {
    if m == 0 then 0.0
    else ObservedRow(s, a, b, n, x, m - 1) + Times(Weight(s, x, m), Div(PairCount(a, b, x, m) as real, n))
  }

  function ObservedGrid(s: Scale, a: seq<int>, b: seq<int>, n: real, m: nat): real
    requires s.levels >= 2 && |a| == |b| && n > 0.0
  {
    if m == 0 then 0.0 else ObservedGrid(s, a, b, n, m - 1) + ObservedRow(s, a, b, n, m, s.levels)
  }

  function ExpectedRow(s: Scale, rows: nat, b: seq<int>, nn: real, x: int, m: nat): real
    requires s.levels >= 2 && nn > 0.0
  {
    if m == 0 then 0.0
    else ExpectedRow(s, rows, b, nn, x, m - 1) + Times(Weight(s, x, m), Div((rows * CountOf(b, m)) as real, nn))
  }

  function ExpectedGrid(s: Scale, a: seq<int>, b: seq<int>, nn: real, m: nat): real
    requires s.levels >= 2 && nn > 0.0
  {
    if m == 0 then 0.0 else ExpectedGrid(s, a, b, nn, m - 1) + ExpectedRow(s, CountOf(a, m), b, nn, m, s.levels)
  }

  lemma OneMoreCount(w: real, c: nat, n: real)
    requires n > 0.0
    ensures Times(w, Div((c + 1) as real, n)) == Times(w, Div(c as real, n)) + Div(w, n)
  {
    Split(c as real, 1.0, n);
    Distribute(w, Div(c as real, n), Div(1.0, n));
    TimesUnit(w, n);
  }

  lemma Split(x: real, y: real, n: real)
    requires n > 0.0
    ensures Div(x + y, n) == Div(x, n) + Div(y, n)
  {
  }

  lemma Distribute(w: real, x: real, y: real)
    ensures Times(w, x + y) == Times(w, x) + Times(w, y)
  {
  }

  lemma TimesUnit(w: real, n: real)
    requires n > 0.0
    ensures Times(w, Div(1.0, n)) == Div(w, n)
  {
  }

  lemma ZeroCells(s: Scale, n: real, x: int, m: nat)
    requires s.levels >= 2 && n > 0.0
    ensures ObservedRow(s, [], [], n, x, m) == 0.0
  {
    if m > 0 { ZeroCells(s, n, x, m - 1); }
  }

  lemma ZeroGrid(s: Scale, n: real, m: nat)
    requires s.levels >= 2 && n > 0.0
    ensures ObservedGrid(s, [], [], n, m) == 0.0
  {
    if m > 0 {
      ZeroGrid(s, n, m - 1);
      ZeroCells(s, n, m, s.levels);
    }
  }

  lemma {:induction false} ObservedRowStep(s: Scale, a: seq<int>, b: seq<int>, n: real, x: int, m: nat)
    requires s.levels >= 2 && |a| == |b| > 0 && n > 0.0 && b[|b| - 1] >= 1
    ensures ObservedRow(s, a, b, n, x, m) == ObservedRow(s, a[..|a| - 1], b[..|b| - 1], n, x, m)
      + if a[|a| - 1] == x && b[|b| - 1] <= m then Div(Weight(s, x, b[|b| - 1]), n) else 0.0
  {
    if m > 0 {
      ObservedRowStep(s, a, b, n, x, m - 1);
      OneMoreCount(Weight(s, x, m), PairCount(a[..|a| - 1], b[..|b| - 1], x, m), n);
    }
  }

  lemma {:induction false} ObservedGridStep(s: Scale, a: seq<int>, b: seq<int>, n: real, m: nat)
    requires s.levels >= 2 && |a| == |b| > 0 && n > 0.0 && a[|a| - 1] >= 1 && 1 <= b[|b| - 1] <= s.levels
    ensures ObservedGrid(s, a, b, n, m) == ObservedGrid(s, a[..|a| - 1], b[..|b| - 1], n, m)
      + if a[|a| - 1] <= m then Div(Weight(s, a[|a| - 1], b[|b| - 1]), n) else 0.0
  {
    if m > 0 {
      ObservedGridStep(s, a, b, n, m - 1);
      ObservedRowStep(s, a, b, n, m, s.levels);
    }
  }

  /** The observed loop adds up the credit of the items as they were paired. */
  lemma {:induction false} ObservedIsPairs(s: Scale, a: seq<int>, b: seq<int>, n: real)
    requires s.levels >= 2 && |a| == |b| && n > 0.0 && Rated(a, s.levels) && Rated(b, s.levels)
    ensures ObservedGrid(s, a, b, n, s.levels) == Div(PairCredit(s, a, b), n)
  {
    if a == [] {
      ZeroGrid(s, n, s.levels);
    } else {
      ObservedIsPairs(s, a[..|a| - 1], b[..|b| - 1], n);
      ObservedGridStep(s, a, b, n, s.levels);
      Split(PairCredit(s, a[..|a| - 1], b[..|b| - 1]), Weight(s, a[|a| - 1], b[|b| - 1]), n);
    }
  }

  // ----- and at random -----

  lemma {:induction false} ExpectedRowNone(s: Scale, rows: nat, nn: real, x: int, m: nat)
    requires s.levels >= 2 && nn > 0.0
    ensures ExpectedRow(s, rows, [], nn, x, m) == 0.0
  {
    if m > 0 { ExpectedRowNone(s, rows, nn, x, m - 1); }
  }

  lemma MoreRows(w: real, rows: nat, c: nat, nn: real)
    requires nn > 0.0
    ensures Times(w, Div((rows * (c + 1)) as real, nn)) ==
      Times(w, Div((rows * c) as real, nn)) + Div(Times(rows as real, w), nn)
  {
    assert (rows * (c + 1)) as real == (rows * c) as real + rows as real;
    Split((rows * c) as real, rows as real, nn);
    Distribute(w, Div((rows * c) as real, nn), Div(rows as real, nn));
    MulDiv(w, rows as real, nn);
  }

  lemma MulDiv(w: real, r: real, n: real)
    requires n > 0.0
    ensures Times(w, Div(r, n)) == Div(Times(r, w), n)
  {
    assert Div(r, n) * n == r;
    assert Div(Times(r, w), n) * n == r * w;
    assert Times(w, Div(r, n)) * n == w * (Div(r, n) * n);
    Cancel(Times(w, Div(r, n)), Div(Times(r, w), n), n);
  }

  lemma {:induction false} ExpectedRowStep(s: Scale, rows: nat, b: seq<int>, nn: real, x: int, m: nat)
    requires s.levels >= 2 && nn > 0.0 && b != [] && b[|b| - 1] >= 1
    ensures ExpectedRow(s, rows, b, nn, x, m) == ExpectedRow(s, rows, b[..|b| - 1], nn, x, m)
      + if b[|b| - 1] <= m then Div(Times(rows as real, Weight(s, x, b[|b| - 1])), nn) else 0.0
  {
    if m > 0 {
      ExpectedRowStep(s, rows, b, nn, x, m - 1);
      MoreRows(Weight(s, x, m), rows, CountOf(b[..|b| - 1], m), nn);
    }
  }

  /** A row of the expected loop: the rating's credit against the other rater, as often as it was given. */
  lemma {:induction false} ExpectedRowIsCredit(s: Scale, rows: nat, b: seq<int>, nn: real, x: int)
    requires s.levels >= 2 && nn > 0.0 && Rated(b, s.levels)
    ensures ExpectedRow(s, rows, b, nn, x, s.levels) == Div(Times(rows as real, RowCredit(s, x, b)), nn)
  {
    if b == [] {
      ExpectedRowNone(s, rows, nn, x, s.levels);
      assert Times(rows as real, 0.0) == 0.0;
    } else {
      ExpectedRowIsCredit(s, rows, b[..|b| - 1], nn, x);
      ExpectedRowStep(s, rows, b, nn, x, s.levels);
      var rest, last := RowCredit(s, x, b[..|b| - 1]), Weight(s, x, b[|b| - 1]);
      Distribute(rows as real, rest, last);
      Split(Times(rows as real, rest), Times(rows as real, last), nn);
    }
  }

  lemma {:induction false} ExpectedGridStep(s: Scale, a: seq<int>, b: seq<int>, nn: real, m: nat)
    requires s.levels >= 2 && nn > 0.0 && a != [] && a[|a| - 1] >= 1 && Rated(b, s.levels)
    ensures ExpectedGrid(s, a, b, nn, m) == ExpectedGrid(s, a[..|a| - 1], b, nn, m)
      + if a[|a| - 1] <= m then Div(RowCredit(s, a[|a| - 1], b), nn) else 0.0
  {
    if m > 0 {
      ExpectedGridStep(s, a, b, nn, m - 1);
      var c, row := CountOf(a[..|a| - 1], m), RowCredit(s, m, b);
      ExpectedRowIsCredit(s, c, b, nn, m);
      ExpectedRowIsCredit(s, c + 1, b, nn, m);
      MoreCredit(c, row, nn);
    }
  }

  lemma MoreCredit(c: nat, row: real, nn: real)
    requires nn > 0.0
    ensures Div(Times((c + 1) as real, row), nn) == Div(Times(c as real, row), nn) + Div(row, nn)
  {
    assert Times((c + 1) as real, row) == Times(c as real, row) + row;
    Split(Times(c as real, row), row, nn);
  }

  lemma {:induction false} ExpectedGridNone(s: Scale, b: seq<int>, nn: real, m: nat)
    requires s.levels >= 2 && nn > 0.0 && Rated(b, s.levels)
    ensures ExpectedGrid(s, [], b, nn, m) == 0.0
  {
    if m > 0 {
      ExpectedGridNone(s, b, nn, m - 1);
      ExpectedRowIsCredit(s, 0, b, nn, m);
      assert Times(0.0, RowCredit(s, m, b)) == 0.0;
    }
  }

  /** The expected loop adds up the credit of every pairing of the two raters' ratings. */
  lemma {:induction false} ExpectedIsCross(s: Scale, a: seq<int>, b: seq<int>, nn: real)
    requires s.levels >= 2 && nn > 0.0 && Rated(a, s.levels) && Rated(b, s.levels)
    ensures ExpectedGrid(s, a, b, nn, s.levels) == Div(CrossCredit(s, a, b), nn)
  {
    if a == [] {
      ExpectedGridNone(s, b, nn, s.levels);
    } else {
      ExpectedIsCross(s, a[..|a| - 1], b, nn);
      ExpectedGridStep(s, a, b, nn, s.levels);
      Split(CrossCredit(s, a[..|a| - 1], b), RowCredit(s, a[|a| - 1], b), nn);
    }
  }

  // ----- the code -----

  /** `exactAgreement`. */
  method ExactAgreement(a: seq<int>, b: seq<int>) returns (r: Outcome<real>)
    ensures r == AgreementOf(a, b)
  {
    if |a| != |b| { return Err(LengthMismatch); }
    if |a| == 0 { return Ok(0.0); }
    var hits := 0;
    for i := 0 to |a|
      invariant hits == Hits(a[..i], b[..i])
    {
      assert a[..i + 1][..i] == a[..i] && b[..i + 1][..i] == b[..i];
      if a[i] == b[i] { hits := hits + 1; }
    }
    assert a[..|a|] == a && b[..|a|] == b;
    r := Ok(Div(hits as real, |a| as real));
  }

  function AgreementOf(a: seq<int>, b: seq<int>): Outcome<real> {
    if |a| != |b| then Err(LengthMismatch)
    else if |a| == 0 then Ok(0.0)
    else Ok(Div(Hits(a, b) as real, |a| as real))
  }

  /** The diagonal of the confusion matrix over n is the exact agreement. */
  lemma DiagonalIsAgreement(a: seq<int>, b: seq<int>, levels: nat)
    requires |a| == |b| > 0 && Rated(a, levels) && Rated(b, levels)
    ensures AgreementOf(a, b) == Ok(Div(Diagonal(a, b, levels) as real, |a| as real))
  {
    DiagonalIsHits(a, b, levels);
  }

  function MatrixFault(a: seq<int>, b: seq<int>, levels: int): Outcome<()> {
    if |a| != |b| then Err(LengthMismatch) else if levels < 2 then Err(BadLevels) else FirstBad(a, b, levels, 0)
  }

  ghost predicate Counts(mat: array2<nat>, a: seq<int>, b: seq<int>, levels: int)
    requires |a| == |b|
    reads mat
  {
    && mat.Length0 == mat.Length1 == levels
    && forall i, j :: 0 <= i < levels && 0 <= j < levels ==> mat[i, j] == PairCount(a, b, i + 1, j + 1)
  }

  /** One more item: its cell goes up by one. */
  method CountItem(mat: array2<nat>, a: seq<int>, b: seq<int>, i: nat, levels: int)
    requires |a| == |b| && i < |a| && 1 <= a[i] <= levels && 1 <= b[i] <= levels
    requires Counts(mat, a[..i], b[..i], levels)
    modifies mat
    ensures Counts(mat, a[..i + 1], b[..i + 1], levels)
  {
    assert a[..i + 1][..i] == a[..i] && b[..i + 1][..i] == b[..i];
    mat[a[i] - 1, b[i] - 1] := mat[a[i] - 1, b[i] - 1] + 1;
  }

  /** `confusionMatrix`: refused as soon as a score is out of range, complete otherwise. */
  method ConfusionMatrix(a: seq<int>, b: seq<int>, levels: int) returns (r: Outcome<()>, mat: array2<nat>)
    ensures r == MatrixFault(a, b, levels)
    ensures fresh(mat) && (r.Ok? ==> Counts(mat, a, b, levels))
  {
    if |a| != |b| {
      mat := new nat[0, 0];
      return Err(LengthMismatch), mat;
    }
    if levels < 2 {
      mat := new nat[0, 0];
      return Err(BadLevels), mat;
    }
    mat := new nat[levels, levels]((_, _) => 0);
    assert a[..0] == [] && b[..0] == [];
    for i := 0 to |a|
      invariant Counts(mat, a[..i], b[..i], levels)
      invariant FirstBad(a, b, levels, 0) == FirstBad(a, b, levels, i)
    {
      if !(1 <= a[i] <= levels) { return Err(OutOfRange(RaterA, a[i])), mat; }
      if !(1 <= b[i] <= levels) { return Err(OutOfRange(RaterB, b[i])), mat; }
      CountItem(mat, a, b, i, levels);
    }
    assert a[..|a|] == a && b[..|a|] == b;
    r := Ok(());
  }

  /** `buildWeightMatrix`. */
  method BuildWeightMatrix(s: Scale) returns (w: array2<real>)
    requires s.levels >= 2
    ensures fresh(w) && w.Length0 == w.Length1 == s.levels
    ensures forall i, j :: 0 <= i < s.levels && 0 <= j < s.levels ==> w[i, j] == Weight(s, i + 1, j + 1)
  {
    w := new real[s.levels, s.levels]((_, _) => 0.0);
    for i := 0 to s.levels
      invariant forall p, q :: 0 <= p < i && 0 <= q < s.levels ==> w[p, q] == Weight(s, p + 1, q + 1)
    {
      for j := 0 to s.levels
        invariant forall p, q :: 0 <= p < i && 0 <= q < s.levels ==> w[p, q] == Weight(s, p + 1, q + 1)
        invariant forall q :: 0 <= q < j ==> w[i, q] == Weight(s, i + 1, q + 1)
      {
        match s.weighting
        case Unweighted => w[i, j] := if i == j then 1.0 else 0.0;
        case Linear => w[i, j] := 1.0 - Div(Distance(i, j) as real, (s.levels - 1) as real);
        case Quadratic =>
          var d := Div((i - j) as real, (s.levels - 1) as real);
          w[i, j] := 1.0 - Times(d, d);
          assert (i - j) as real == ((i + 1) - (j + 1)) as real;
      }
    }
  }

  /** The row and column sums of the matrix. */
  method Sums(mat: array2<nat>, ghost a: seq<int>, ghost b: seq<int>, levels: nat)
    returns (rowSums: seq<nat>, colSums: seq<nat>)
    requires |a| == |b| && Rated(a, levels) && Rated(b, levels) && Counts(mat, a, b, levels)
    ensures |rowSums| == |colSums| == levels
    ensures forall i :: 0 <= i < levels ==> rowSums[i] == CountOf(a, i + 1) && colSums[i] == CountOf(b, i + 1)
  {
    rowSums, colSums := [], [];
    for i := 0 to levels
      invariant |rowSums| == |colSums| == i
      invariant forall k :: 0 <= k < i ==> rowSums[k] == CountOf(a, k + 1) && colSums[k] == CountOf(b, k + 1)
    {
      var row, col := 0, 0;
      for j := 0 to levels
        invariant row == RowCount(a, b, i + 1, j) && col == ColumnCount(a, b, i + 1, j)
      {
        row, col := row + mat[i, j], col + mat[j, i];
      }
      Marginals(a, b, i + 1, levels);
      rowSums, colSums := rowSums + [row], colSums + [col];
    }
  }

  /** The two weighted sums over all cells. */
  method Weigh(s: Scale, mat: array2<nat>, w: array2<real>, rowSums: seq<nat>, colSums: seq<nat>, n: nat,
               ghost a: seq<int>, ghost b: seq<int>)
    returns (observed: real, expected: real)
    requires s.levels >= 2 && n > 0 && |a| == |b| && Counts(mat, a, b, s.levels)
    requires |rowSums| == |colSums| == s.levels && w.Length0 == w.Length1 == s.levels
    requires forall i :: 0 <= i < s.levels ==> rowSums[i] == CountOf(a, i + 1) && colSums[i] == CountOf(b, i + 1)
    requires forall i, j :: 0 <= i < s.levels && 0 <= j < s.levels ==> w[i, j] == Weight(s, i + 1, j + 1)
    ensures observed == ObservedGrid(s, a, b, n as real, s.levels)
    ensures Squared(n) > 0.0 && expected == ExpectedGrid(s, a, b, Squared(n), s.levels)
  {
    observed, expected := 0.0, 0.0;
    SquaredPositive(n);
    for i := 0 to s.levels
      invariant observed == ObservedGrid(s, a, b, n as real, i)
      invariant expected == ExpectedGrid(s, a, b, Squared(n), i)
    {
      for j := 0 to s.levels
        invariant observed == ObservedGrid(s, a, b, n as real, i) + ObservedRow(s, a, b, n as real, i + 1, j)
        invariant expected == ExpectedGrid(s, a, b, Squared(n), i) + ExpectedRow(s, rowSums[i], b, Squared(n), i + 1, j)
      {
        var oij := Div(mat[i, j] as real, n as real);
        var eij := Div((rowSums[i] * colSums[j]) as real, Squared(n));
        observed := observed + Times(w[i, j], oij);
        expected := expected + Times(w[i, j], eij);
      }
    }
  }

  function Squared(n: nat): real { Times(n as real, n as real) }

  lemma SquaredPositive(n: nat)
    requires n > 0
    ensures Squared(n) > 0.0
  {
    Positive(n as real, n as real);
  }

  /** `cohenKappa`: through the matrix and its marginals, it computes the item-level definition. */
  method CohenKappa(a: seq<int>, b: seq<int>, s: Scale) returns (r: Outcome<real>)
    ensures r == KappaOf(a, b, s)
    ensures |a| != |b| ==> r == Err(LengthMismatch)
    ensures |a| == |b| == 0 ==> r == Ok(0.0)
    ensures |a| == |b| > 0 && s.levels < 2 ==> r == Err(BadLevels)
    ensures |a| == |b| > 0 && s.levels >= 2 ==> (r.Ok? <==> Rated(a, s.levels) && Rated(b, s.levels))
  {
    if |a| != |b| { return Err(LengthMismatch); }
    if |a| == 0 { return Ok(0.0); }
    assert a[0..] == a && b[0..] == b;
    var fault, mat := ConfusionMatrix(a, b, s.levels);
    if fault.Err? { return Err(fault.error); }
    var rowSums, colSums := Sums(mat, a, b, s.levels);
    var w := BuildWeightMatrix(s);
    var observed, expected := Weigh(s, mat, w, rowSums, colSums, |a|, a, b);
    ObservedIsPairs(s, a, b, |a| as real);
    ExpectedIsCross(s, a, b, Squared(|a|));
    if expected == 1.0 { return Ok(0.0); }
    r := Ok(Div(observed - expected, 1.0 - expected));
  }

  // ----- quadratic against unweighted kappa -----

  /** How far apart two ratings are counted. */
  type Gap = (int, int) -> nat

  function Missed(x: int, y: int): nat { if x == y then 0 else 1 }

  function SquaredGap(x: int, y: int): nat { Distance(x, y) * Distance(x, y) }

  /** How far apart the raters are: on the items as paired, for one rating, and over every pairing. */
  function PairLoss(gap: Gap, a: seq<int>, b: seq<int>): nat
    requires |a| == |b|
  {
    if a == [] then 0 else PairLoss(gap, a[..|a| - 1], b[..|b| - 1]) + gap(a[|a| - 1], b[|b| - 1])
  }

  function RowLoss(gap: Gap, x: int, b: seq<int>): nat {
    if b == [] then 0 else RowLoss(gap, x, b[..|b| - 1]) + gap(x, b[|b| - 1])
  }

  function CrossLoss(gap: Gap, a: seq<int>, b: seq<int>): nat {
    if a == [] then 0 else CrossLoss(gap, a[..|a| - 1], b) + RowLoss(gap, a[|a| - 1], b)
  }

  function PairMisses(a: seq<int>, b: seq<int>): nat
    requires |a| == |b|
  {
    PairLoss(Missed, a, b)
  }

  function PairGaps(a: seq<int>, b: seq<int>): nat
    requires |a| == |b|
  {
    PairLoss(SquaredGap, a, b)
  }

  function CrossMisses(a: seq<int>, b: seq<int>): nat { CrossLoss(Missed, a, b) }

  function CrossGaps(a: seq<int>, b: seq<int>): nat { CrossLoss(SquaredGap, a, b) }

  function Top(s: Scale): real { Times((s.levels - 1) as real, (s.levels - 1) as real) }

  lemma TopPositive(s: Scale)
    requires s.levels >= 2
    ensures Top(s) > 0.0
  {
    Positive((s.levels - 1) as real, (s.levels - 1) as real);
  }

  /** A quadratic weight falls short of 1 by the squared distance over that of the whole scale. */
  lemma QuadraticLoss(s: Scale, x: int, y: int)
    requires s.levels >= 2 && s.weighting.Quadratic? && Top(s) > 0.0
    ensures Weight(s, x, y) == 1.0 - Div(SquaredGap(x, y) as real, Top(s))
  {
    var d, t := (x - y) as real, (s.levels - 1) as real;
    SquareOfQuotient(d, t);
    assert SquaredGap(x, y) as real == d * d by { RealSquare(x, y); }
  }

  lemma RealSquare(x: int, y: int)
    ensures SquaredGap(x, y) as real == (x - y) as real * (x - y) as real
  {
    assert SquaredGap(x, y) == (x - y) * (x - y);
  }

  lemma SquareOfQuotient(d: real, t: real)
    requires t > 0.0 && Times(t, t) > 0.0
    ensures Times(Div(d, t), Div(d, t)) == Div(d * d, Times(t, t))
  {
    var q := Div(d, t);
    assert q * t == d;
    assert Times(q, q) * Times(t, t) == (q * t) * (q * t);
    assert Div(d * d, Times(t, t)) * Times(t, t) == d * d;
    Cancel(Times(q, q), Div(d * d, Times(t, t)), Times(t, t));
  }

  /** The weights fall short of 1 by the gap, over that of the whole scale. */
  ghost predicate Weighs(s: Scale, gap: Gap, top: real)
    requires s.levels >= 2
  {
    top > 0.0 && forall x, y :: Weight(s, x, y) == 1.0 - Div(gap(x, y) as real, top)
  }

  lemma {:induction false} PairSums(s: Scale, gap: Gap, top: real, a: seq<int>, b: seq<int>)
    requires s.levels >= 2 && Weighs(s, gap, top) && |a| == |b|
    ensures PairCredit(s, a, b) == |a| as real - Div(PairLoss(gap, a, b) as real, top)
  {
    if a != [] {
      PairSums(s, gap, top, a[..|a| - 1], b[..|b| - 1]);
      Split(PairLoss(gap, a[..|a| - 1], b[..|b| - 1]) as real, gap(a[|a| - 1], b[|b| - 1]) as real, top);
    }
  }

  lemma {:induction false} RowSums(s: Scale, gap: Gap, top: real, x: int, b: seq<int>)
    requires s.levels >= 2 && Weighs(s, gap, top)
    ensures RowCredit(s, x, b) == |b| as real - Div(RowLoss(gap, x, b) as real, top)
  {
    if b != [] {
      RowSums(s, gap, top, x, b[..|b| - 1]);
      Split(RowLoss(gap, x, b[..|b| - 1]) as real, gap(x, b[|b| - 1]) as real, top);
    }
  }

  lemma {:induction false} CrossSums(s: Scale, gap: Gap, top: real, a: seq<int>, b: seq<int>)
    requires s.levels >= 2 && Weighs(s, gap, top)
    ensures CrossCredit(s, a, b) == Times(|a| as real, |b| as real) - Div(CrossLoss(gap, a, b) as real, top)
  {
    if a != [] {
      CrossSums(s, gap, top, a[..|a| - 1], b);
      RowSums(s, gap, top, a[|a| - 1], b);
      OneMoreRow(|a| - 1, |b|);
      Split(CrossLoss(gap, a[..|a| - 1], b) as real, RowLoss(gap, a[|a| - 1], b) as real, top);
    }
  }

  /** Chance-corrected agreement in terms of what is lost as paired and at random. */
  lemma LossRatio(x: real, y: real, n: real)
    requires n > 0.0 && y > 0.0 && Times(n, n) > 0.0
    ensures var o, e := Div(n - x, n), Div(Times(n, n) - y, Times(n, n));
      e < 1.0 && Div(o - e, 1.0 - e) == 1.0 - Div(Times(x, n), y)
  {
    var nn := Times(n, n);
    var o, e := Div(n - x, n), Div(nn - y, nn);
    assert o * n == n - x && e * nn == nn - y;
    assert (1.0 - e) * nn == y;
    assert (o - e) * nn == y - Times(x, n) by { assert o * nn == (o * n) * n; }
    Quotients(o - e, 1.0 - e, nn, y - Times(x, n), y);
    Split(y, -Times(x, n), y);
    assert Div(-Times(x, n), y) * y == -Times(x, n);
    Cancel(Div(-Times(x, n), y), -Div(Times(x, n), y), y);
    assert Div(y, y) == 1.0;
  }

  lemma Quotients(p: real, q: real, nn: real, u: real, v: real)
    requires nn > 0.0 && v > 0.0 && p * nn == u && q * nn == v
    ensures q > 0.0 && Div(p, q) == Div(u, v)
  {
    PositiveFactor(q, nn);
    var r := Div(u, v);
    assert r * v == u;
    assert (r * q) * nn == p * nn;
    Cancel(r * q, p, nn);
    assert Div(p, q) * q == p;
    Cancel(Div(p, q), r, q);
  }

  lemma PositiveFactor(q: real, nn: real)
    requires nn > 0.0 && q * nn > 0.0
    ensures q > 0.0
  {
  }

  /** Kappa from what is lost of full credit, as paired (x) and over all pairings (y). */
  lemma KappaFromLoss(s: Scale, a: seq<int>, b: seq<int>, x: real, y: real)
    requires s.levels >= 2 && |a| == |b| > 0 && y > 0.0
    requires PairCredit(s, a, b) == |a| as real - x && CrossCredit(s, a, b) == Times(|a| as real, |b| as real) - y
    ensures Kappa(s, a, b) == 1.0 - Div(Times(x, |a| as real), y)
  {
    var n := |a| as real;
    Positive(n, n);
    LossRatio(x, y, n);
  }

  /** Something is lost over all pairings unless both raters used one and the same single level. */
  lemma SomethingLost(s: Scale, a: seq<int>, b: seq<int>, y: real)
    requires s.levels >= 2 && |a| == |b| > 0 && !OneLevel(a, b) && y >= 0.0
    requires CrossCredit(s, a, b) == Times(|a| as real, |b| as real) - y
    ensures y > 0.0
  {
    CrossBound(s, a, b);
    EveryIsOne(a, b);
  }

  lemma ScaleOut(g: real, c: real, t: real, n: real)
    requires t > 0.0 && c > 0.0
    ensures Div(c, t) > 0.0 && Div(Times(Div(g, t), n), Div(c, t)) == Div(Times(g, n), c)
  {
    var x, y := Div(g, t), Div(c, t);
    assert x * t == g && y * t == c;
    assert Times(x, n) * t == Times(g, n) by { assert (x * n) * t == (x * t) * n; }
    Quotients(Times(x, n), y, t, Times(g, n), c);
  }

  /** Kappa in terms of the gaps alone: as paired, against all pairings. How many levels the scale has cancels out. */
  lemma KappaOfGaps(s: Scale, gap: Gap, top: real, a: seq<int>, b: seq<int>)
    requires s.levels >= 2 && Weighs(s, gap, top) && |a| == |b| > 0 && !OneLevel(a, b)
    ensures CrossLoss(gap, a, b) > 0
    ensures Kappa(s, a, b) == 1.0 - Div(Times(PairLoss(gap, a, b) as real, |a| as real), CrossLoss(gap, a, b) as real)
  {
    PairSums(s, gap, top, a, b);
    CrossSums(s, gap, top, a, b);
    var x, y := Div(PairLoss(gap, a, b) as real, top), Div(CrossLoss(gap, a, b) as real, top);
    Quotient(CrossLoss(gap, a, b) as real, top);
    SomethingLost(s, a, b, y);
    KappaFromLoss(s, a, b, x, y);
    ScaleOut(PairLoss(gap, a, b) as real, CrossLoss(gap, a, b) as real, top, |a| as real);
  }

  /** Unweighted kappa: the share of disagreements, against the share among all pairings. */
  lemma UnweightedKappa(s: Scale, a: seq<int>, b: seq<int>)
    requires s.levels >= 2 && s.weighting.Unweighted? && |a| == |b| > 0 && !OneLevel(a, b)
    ensures CrossMisses(a, b) > 0
    ensures Kappa(s, a, b) == 1.0 - Div(Times(PairMisses(a, b) as real, |a| as real), CrossMisses(a, b) as real)
  {
    assert Div(0.0, 1.0) == 0.0 && Div(1.0, 1.0) == 1.0;
    KappaOfGaps(s, Missed, 1.0, a, b);
  }

  /** Linear kappa: the same with plain distances. */
  lemma LinearKappa(s: Scale, a: seq<int>, b: seq<int>)
    requires s.levels >= 2 && s.weighting.Linear? && |a| == |b| > 0 && !OneLevel(a, b)
    ensures CrossLoss(Distance, a, b) > 0
    ensures Kappa(s, a, b) ==
      1.0 - Div(Times(PairLoss(Distance, a, b) as real, |a| as real), CrossLoss(Distance, a, b) as real)
  {
    KappaOfGaps(s, Distance, (s.levels - 1) as real, a, b);
  }

  /** Quadratic kappa: the same with squared distances. */
  lemma QuadraticKappa(s: Scale, a: seq<int>, b: seq<int>)
    requires s.levels >= 2 && s.weighting.Quadratic? && |a| == |b| > 0 && !OneLevel(a, b)
    ensures CrossGaps(a, b) > 0
    ensures Kappa(s, a, b) == 1.0 - Div(Times(PairGaps(a, b) as real, |a| as real), CrossGaps(a, b) as real)
  {
    TopPositive(s);
    forall x, y ensures Weight(s, x, y) == 1.0 - Div(SquaredGap(x, y) as real, Top(s)) { QuadraticLoss(s, x, y); }
    KappaOfGaps(s, SquaredGap, Top(s), a, b);
  }

  lemma RatioOrder(g: nat, cg: nat, m: nat, cm: nat, n: nat)
    requires cg > 0 && cm > 0 && n > 0
    ensures Div(Times(g as real, n as real), cg as real) <= Div(Times(m as real, n as real), cm as real) <==>
      g * cm <= m * cg
  {
    var x, y := Div(Times(g as real, n as real), cg as real), Div(Times(m as real, n as real), cm as real);
    var d := cg as real * cm as real;
    Positive(cg as real, cm as real);
    assert x * cg as real == g as real * n as real && y * cm as real == m as real * n as real;
    assert x * d == (g * cm) as real * n as real by {
      assert x * d == (x * cg as real) * cm as real;
      assert (g * cm) as real == g as real * cm as real;
    }
    assert y * d == (m * cg) as real * n as real by {
      assert y * d == (y * cm as real) * cg as real;
      assert (m * cg) as real == m as real * cg as real;
    }
    SameOrder(x, y, d);
    SameOrder((g * cm) as real, (m * cg) as real, n as real);
  }

  lemma SameOrder(x: real, y: real, t: real)
    requires t > 0.0
    ensures x <= y <==> x * t <= y * t
  {
    if x * t <= y * t { CancelOrder(x, y, t); }
  }

  lemma OneLevelGaps(a: seq<int>, b: seq<int>, x: int)
    requires |a| == |b| && AllAre(a, x) && AllAre(b, x)
    ensures PairGaps(a, b) == 0 && PairMisses(a, b) == 0
  {
    if a != [] { OneLevelGaps(a[..|a| - 1], b[..|b| - 1], x); }
  }

  /**
   * Quadratic kappa is at least unweighted kappa exactly when the items' disagreements are, on average, no
   * farther apart (by squared distance) than the disagreements of random pairings.
   */
  lemma QuadraticAtLeastUnweighted(levels: int, a: seq<int>, b: seq<int>)
    requires levels >= 2 && |a| == |b| > 0
    ensures Kappa(Scale(levels, Quadratic), a, b) >= Kappa(Scale(levels, Unweighted), a, b) <==>
      PairGaps(a, b) * CrossMisses(a, b) <= PairMisses(a, b) * CrossGaps(a, b)
  {
    if OneLevel(a, b) {
      ChanceIsCertain(Scale(levels, Quadratic), a, b);
      ChanceIsCertain(Scale(levels, Unweighted), a, b);
      OneLevelGaps(a, b, a[0]);
    } else {
      QuadraticKappa(Scale(levels, Quadratic), a, b);
      UnweightedKappa(Scale(levels, Unweighted), a, b);
      RatioOrder(PairGaps(a, b), CrossGaps(a, b), PairMisses(a, b), CrossMisses(a, b), |a|);
    }
  }

  /** Two items suffice for quadratic kappa to be the lower of the two. */
  lemma QuadraticCanBeLower(levels: int)
    requires levels >= 3
    ensures Kappa(Scale(levels, Quadratic), [1, 2], [3, 2]) < Kappa(Scale(levels, Unweighted), [1, 2], [3, 2])
  {
    var a, b := [1, 2], [3, 2];
    assert a[..1] == [1] && b[..1] == [3] && [1][..0] == [] && [3][..0] == [];
    assert PairMisses(a, b) == 1 && PairGaps(a, b) == 4;
    assert RowLoss(Missed, 1, b) == 2 && RowLoss(SquaredGap, 1, b) == 5;
    assert RowLoss(Missed, 2, b) == 1 && RowLoss(SquaredGap, 2, b) == 1;
    assert CrossMisses([1], b) == 2 && CrossGaps([1], b) == 5;
    assert CrossMisses(a, b) == 3 && CrossGaps(a, b) == 6;
    QuadraticAtLeastUnweighted(levels, a, b);
  }
}
