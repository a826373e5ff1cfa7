/** Line-range bookkeeping for file reads, as sets of lines: src/agent/progress/read-coverage.ts. */
module ReadCoverage {

  /** 1-based inclusive line range. */
  datatype Range = Range(start: nat, end: nat)

  ghost predicate Real(r: Range) { 1 <= r.start <= r.end }

  ghost function Interval(a: int, b: int): (r: set<int>)
    ensures forall l :: l in r <==> a <= l <= b
  {
    set l {:trigger Line(l)} | a <= l <= b && Line(l)
  }

  /** Every integer may number a line; this only gives the set above something to match on. */
  ghost predicate Line(l: int) { true }

  lemma {:induction false} IntervalSize(a: int, b: int)
    requires a <= b + 1
    ensures |Interval(a, b)| == b - a + 1
    decreases b - a + 1
  {
    if a <= b {
      IntervalSize(a, b - 1);
      assert Interval(a, b) == Interval(a, b - 1) + {b};
    } else {
      assert Interval(a, b) == {};
    }
  }

  ghost function Lines(r: Range): set<int> {
    Interval(r.start, r.end)
  }

  ghost function LinesOf(rs: seq<Range>): set<int> {
    set i, l | 0 <= i < |rs| && l in Lines(rs[i]) :: l
  }

  /** The shape `mergeRange` maintains: sorted, disjoint, and never merely adjacent. */
  ghost predicate Canonical(rs: seq<Range>) {
    && (forall i :: 0 <= i < |rs| ==> Real(rs[i]))
    && (forall i, j :: 0 <= i < j < |rs| ==> rs[i].end + 1 < rs[j].start)
  }

  lemma LinesOfPush(rs: seq<Range>, r: Range)
    ensures LinesOf(rs + [r]) == LinesOf(rs) + Lines(r)
  {
    var all := rs + [r];
    forall l ensures l in LinesOf(all) <==> l in LinesOf(rs) || l in Lines(r) {
      if l in LinesOf(rs) {
        var i :| 0 <= i < |rs| && l in Lines(rs[i]);
        assert all[i] == rs[i];
      }
      assert all[|rs|] == r;
    }
  }

  /** The number of lines of a span not covered yet. */
  ghost function Fresh(covered: seq<Range>, span: Range): nat {
    |Lines(span) - LinesOf(covered)|
  }

  function Overlap(span: Range, range: Range): int {
    (if range.end <= span.end then range.end else span.end) -
    (if range.start >= span.start then range.start else span.start) + 1
  }

  lemma OverlapSize(span: Range, range: Range)
    requires Real(span) && Real(range) && span.start <= range.end && range.start <= span.end
    ensures |Lines(span) * Lines(range)| == Overlap(span, range)
  {
    var lo := if range.start >= span.start then range.start else span.start;
    var hi := if range.end <= span.end then range.end else span.end;
    assert Lines(span) * Lines(range) == Interval(lo, hi);
    IntervalSize(lo, hi);
  }

  lemma SubtractDisjoint(a: set<int>, seen: set<int>, more: set<int>)
    requires seen !! more
    ensures |a - (seen + more)| == |a - seen| - |a * more|
  {
    assert a - seen == (a - (seen + more)) + a * more;
  }

  lemma EarlierRangesApart(covered: seq<Range>, i: nat)
    requires Canonical(covered) && i < |covered|
    ensures LinesOf(covered[..i]) !! Lines(covered[i])
  {
  }

  lemma LaterRangesApart(covered: seq<Range>, i: nat, span: Range)
    requires Canonical(covered) && i < |covered| && covered[i].start > span.end
    ensures Lines(span) - LinesOf(covered) == Lines(span) - LinesOf(covered[..i])
  {
    forall l | l in Lines(span) ensures l in LinesOf(covered) <==> l in LinesOf(covered[..i]) {
      if l in LinesOf(covered) {
        var k :| 0 <= k < |covered| && l in Lines(covered[k]);
        assert k < i && covered[..i][k] == covered[k];
      }
    }
  }

  lemma CountStep(covered: seq<Range>, i: nat, span: Range)
    requires Canonical(covered) && Real(span) && i < |covered|
    ensures |Lines(span) - LinesOf(covered[..i + 1])| ==
            |Lines(span) - LinesOf(covered[..i])| - |Lines(span) * Lines(covered[i])|
  {
    PrefixLines(covered, i);
    EarlierRangesApart(covered, i);
    SubtractDisjoint(Lines(span), LinesOf(covered[..i]), Lines(covered[i]));
  }

  lemma Apart(a: Range, b: Range)
    requires a.end < b.start || b.end < a.start
    ensures |Lines(a) * Lines(b)| == 0
  {
    assert Lines(a) * Lines(b) == {};
  }

  /** `newlyCoveredCount`: the arithmetic counts exactly the uncovered lines. */
  method NewlyCoveredCount(covered: seq<Range>, span: Range) returns (uncovered: int)
    requires Canonical(covered) && Real(span)
    ensures uncovered == Fresh(covered, span)
  {
    uncovered := span.end - span.start + 1;
    IntervalSize(span.start, span.end);
    assert LinesOf(covered[..0]) == {};
    for i := 0 to |covered|
      invariant uncovered == |Lines(span) - LinesOf(covered[..i])|
    {
      var range := covered[i];
      CountStep(covered, i, span);
      if range.end < span.start {
        Apart(span, range);
        continue;
      }
      if range.start > span.end {
        LaterRangesApart(covered, i, span);
        return;
      }
      OverlapSize(span, range);
      uncovered := uncovered - Overlap(span, range);
    }
    assert covered[..|covered|] == covered;
    if uncovered < 0 { uncovered := 0; }
  }

  function Joined(a: Range, b: Range): Range {
    Range(if a.start <= b.start then a.start else b.start, if a.end >= b.end then a.end else b.end)
  }

  lemma JoinLines(a: Range, b: Range)
    requires Real(a) && Real(b) && a.start <= b.end + 1 && b.start <= a.end + 1
    ensures Real(Joined(a, b)) && Lines(Joined(a, b)) == Lines(a) + Lines(b)
  {
  }

  lemma CanonicalPush(rs: seq<Range>, r: Range)
    requires Canonical(rs) && Real(r) && (rs != [] ==> rs[|rs| - 1].end + 1 < r.start)
    ensures Canonical(rs + [r])
  {
  }

  lemma GrowBoth(m: set<int>, c: set<int>, p: set<int>, s: set<int>, r: set<int>)
    requires m + c == p + s
    ensures m + (c + r) == (p + r) + s && (m + r) + c == (p + r) + s && (m + c) + r == (p + r) + s
  {
  }

  /** The merge under way: what was output, the span grown so far, and whether it was output too. */
  datatype Merge = Merge(output: seq<Range>, current: Range, inserted: bool)

  function Step(m: Merge, range: Range): Merge {
    if range.end + 1 < m.current.start then m.(output := m.output + [range])
    else if range.start > m.current.end + 1 then
      if m.inserted then m.(output := m.output + [range])
      else Merge(m.output + [m.current] + [range], m.current, true)
    else m.(current := Joined(m.current, range))
  }

  /** Before insertion the output is a prefix of the input and the span lies past it. */
  ghost predicate Shape(covered: seq<Range>, i: nat, m: Merge)
    requires i <= |covered|
  {
    && Real(m.current)
    && Canonical(m.output)
    && if m.inserted then
      && i >= 1 && m.output != []
      && m.output[|m.output| - 1] == covered[i - 1]
      && covered[i - 1].start > m.current.end + 1
    else
      && |m.output| <= i && m.output == covered[..|m.output|]
      && (m.output != [] ==> m.output[|m.output| - 1].end + 1 < m.current.start)
      && (|m.output| < i ==> m.current.start <= covered[|m.output|].start)
  }

  lemma StepShape(covered: seq<Range>, i: nat, m: Merge)
    requires Canonical(covered) && i < |covered| && Shape(covered, i, m)
    ensures Shape(covered, i + 1, Step(m, covered[i]))
  {
    var range := covered[i];
    if range.end + 1 < m.current.start {
      CopyShape(covered, i, m);
    } else if range.start > m.current.end + 1 {
      InsertShape(covered, i, m);
    } else {
      AbsorbShape(covered, i, m);
    }
  }

  lemma CopyShape(covered: seq<Range>, i: nat, m: Merge)
    requires Canonical(covered) && i < |covered| && Shape(covered, i, m) && covered[i].end + 1 < m.current.start
    ensures Shape(covered, i + 1, m.(output := m.output + [covered[i]]))
  {
    if !m.inserted {
      CanonicalPush(m.output, covered[i]);
    }
  }

  lemma InsertShape(covered: seq<Range>, i: nat, m: Merge)
    requires Canonical(covered) && i < |covered| && Shape(covered, i, m) && covered[i].start > m.current.end + 1
    ensures var output := if m.inserted then m.output else m.output + [m.current];
      Shape(covered, i + 1, Merge(output + [covered[i]], m.current, true))
  {
    if m.inserted {
      assert covered[i - 1].end + 1 < covered[i].start;
      CanonicalPush(m.output, covered[i]);
    } else {
      CanonicalPush(m.output, m.current);
      CanonicalPush(m.output + [m.current], covered[i]);
    }
  }

  lemma AbsorbShape(covered: seq<Range>, i: nat, m: Merge)
    requires Canonical(covered) && i < |covered| && Shape(covered, i, m)
    requires covered[i].end + 1 >= m.current.start && covered[i].start <= m.current.end + 1
    ensures Shape(covered, i + 1, m.(current := Joined(m.current, covered[i])))
  {
    if !m.inserted && m.output != [] {
      assert covered[|m.output| - 1].end + 1 < covered[i].start;
    }
  }

  ghost function Holds(m: Merge): set<int> {
    LinesOf(m.output) + if m.inserted then {} else Lines(m.current)
  }

  lemma StepLines(m: Merge, range: Range, before: set<int>, span: set<int>)
    requires Real(m.current) && Real(range) && Holds(m) == before + span
    requires m.inserted ==> range.start > m.current.end + 1 || range.end + 1 < m.current.start
    ensures Holds(Step(m, range)) == (before + Lines(range)) + span
  {
    var out, cur := LinesOf(m.output), if m.inserted then {} else Lines(m.current);
    GrowBoth(out, cur, before, span, Lines(range));
    if range.end + 1 < m.current.start {
      LinesOfPush(m.output, range);
    } else if range.start > m.current.end + 1 {
      LinesOfPush(m.output, m.current);
      LinesOfPush(if m.inserted then m.output else m.output + [m.current], range);
      var grown := LinesOf(if m.inserted then m.output else m.output + [m.current]);
      assert grown == out + cur;
      assert Holds(Step(m, range)) == grown + Lines(range);
    } else {
      JoinLines(m.current, range);
    }
  }

  lemma Extend(covered: seq<Range>, i: nat, span: Range, m: Merge)
    requires Canonical(covered) && Real(span) && i < |covered|
    requires Shape(covered, i, m) && Holds(m) == LinesOf(covered[..i]) + Lines(span)
    ensures Shape(covered, i + 1, Step(m, covered[i]))
    ensures Holds(Step(m, covered[i])) == LinesOf(covered[..i + 1]) + Lines(span)
  {
    StepShape(covered, i, m);
    PrefixLines(covered, i);
    StepLines(m, covered[i], LinesOf(covered[..i]), Lines(span));
  }

  lemma PrefixLines(covered: seq<Range>, i: nat)
    requires i < |covered|
    ensures LinesOf(covered[..i + 1]) == LinesOf(covered[..i]) + Lines(covered[i])
  {
    assert covered[..i + 1] == covered[..i] + [covered[i]];
    LinesOfPush(covered[..i], covered[i]);
  }

  lemma Close(covered: seq<Range>, span: Range, m: Merge)
    requires Shape(covered, |covered|, m) && Holds(m) == LinesOf(covered[..|covered|]) + Lines(span)
    ensures var r := if m.inserted then m.output else m.output + [m.current];
      Canonical(r) && LinesOf(r) == LinesOf(covered) + Lines(span)
  {
    assert covered[..|covered|] == covered;
    LinesOfPush(m.output, m.current);
    if !m.inserted { CanonicalPush(m.output, m.current); }
  }

  /**
   * `mergeRange`: the result is canonical again and covers exactly the old lines and the new ones.
   * The list is already sorted, so the source's closing sort by `start` changes nothing.
   */
  method MergeRange(covered: seq<Range>, span: Range) returns (merged: seq<Range>)
    requires Canonical(covered) && Real(span)
    ensures Canonical(merged)
    ensures LinesOf(merged) == LinesOf(covered) + Lines(span)
  {
    merged := [];
    var current := span;
    var inserted := false;
    ghost var m := Merge([], span, false);
    for i := 0 to |covered|
      invariant m == Merge(merged, current, inserted)
      invariant Shape(covered, i, m)
      invariant Holds(m) == LinesOf(covered[..i]) + Lines(span)
    {
      var range := covered[i];
      Extend(covered, i, span, m);
      m := Step(m, range);
      if range.end + 1 < current.start {
        merged := merged + [range];
      } else if range.start > current.end + 1 {
        if !inserted {
          merged := merged + [current];
          inserted := true;
        }
        merged := merged + [range];
      } else {
        current := Joined(current, range);
      }
    }
    Close(covered, span, m);
    if !inserted { merged := merged + [current]; }
  }
}
