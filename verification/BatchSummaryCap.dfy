/** Sharing one step's summary budget between its results: src/agent/batch-summary-cap.ts. */
module BatchSummaryCap {
  import opened Wrappers
  import opened Sorting
  import opened Decimals
  import opened TextLines
  import opened ReadCaps
  import opened Numbers

  const MIN_SHARE_CHARS := 600

  // ----- water-filling -----

  function Total(lengths: seq<nat>): nat {
    if lengths == [] then 0 else Total(lengths[..|lengths| - 1]) + lengths[|lengths| - 1]
  }

  /** What one result takes when none may take more than `share`. */
  function Capped(length: nat, share: int): int { if length <= share then length else share }

  function CappedTotal(lengths: seq<nat>, share: int): int {
    if lengths == [] then 0 else CappedTotal(lengths[..|lengths| - 1], share) + Capped(lengths[|lengths| - 1], share)
  }

  function Longest(lengths: seq<nat>): nat {
    if lengths == [] then 0
    else
      var before, last := Longest(lengths[..|lengths| - 1]), lengths[|lengths| - 1];
      if before >= last then before else last
  }

  lemma {:induction false} CappedTotalConcat(s: seq<nat>, t: seq<nat>, share: int)
    ensures CappedTotal(s + t, share) == CappedTotal(s, share) + CappedTotal(t, share)
  {
    if t == [] {
      assert s + t == s;
    } else {
      CappedTotalConcat(s, t[..|t| - 1], share);
      assert (s + t)[..|s + t| - 1] == s + t[..|t| - 1];
    }
  }

  /** The order of the results does not matter. */
  lemma {:induction false} CappedTotalPermutes(s: seq<nat>, t: seq<nat>, share: int)
    requires multiset(s) == multiset(t)
    ensures CappedTotal(s, share) == CappedTotal(t, share)
  {
    SameMembers(s, t);
    if s != [] {
      var x, front := s[|s| - 1], s[..|s| - 1];
      assert x in s && x in t;
      var i :| 0 <= i < |t| && t[i] == x;
      TakeLast(s);
      TakeOut(t, i);
      CappedTotalPermutes(front, t[..i] + t[i + 1..], share);
      CappedWithout(t, i, share);
    }
  }

  lemma CappedWithout(t: seq<nat>, i: nat, share: int)
    requires i < |t|
    ensures CappedTotal(t, share) == CappedTotal(t[..i] + t[i + 1..], share) + Capped(t[i], share)
  {
    assert t == t[..i] + ([t[i]] + t[i + 1..]);
    CappedTotalConcat(t[..i], [t[i]] + t[i + 1..], share);
    CappedTotalConcat([t[i]], t[i + 1..], share);
    CappedTotalConcat(t[..i], t[i + 1..], share);
    assert [t[i]][..0] == [];
  }

  lemma {:induction false} CappedTotalGrows(lengths: seq<nat>, share: int, more: int)
    requires share <= more
    ensures CappedTotal(lengths, share) <= CappedTotal(lengths, more)
  {
    if lengths != [] { CappedTotalGrows(lengths[..|lengths| - 1], share, more); }
  }

  /** Lengths that all fit a share add up to their plain total. */
  lemma {:induction false} AllFit(lengths: seq<nat>, share: int)
    requires forall k :: 0 <= k < |lengths| ==> lengths[k] <= share
    ensures CappedTotal(lengths, share) == Total(lengths)
  {
    if lengths != [] { AllFit(lengths[..|lengths| - 1], share); }
  }

  lemma {:induction false} NoneFits(lengths: seq<nat>, share: int)
    requires forall k :: 0 <= k < |lengths| ==> share <= lengths[k]
    ensures CappedTotal(lengths, share) == |lengths| * share
  {
    if lengths != [] { NoneFits(lengths[..|lengths| - 1], share); }
  }

  /** The largest allowance whose capped total still fits the budget: t fits exactly up to it. */
  ghost predicate IsWaterLevel(lengths: seq<nat>, capChars: int, level: int) {
    forall t: int :: CappedTotal(lengths, t) <= capChars <==> t <= level
  }

  /** What `fairShare` promises: the water level, or the longest length when all fit, but never below the floor. */
  ghost predicate IsShare(lengths: seq<nat>, capChars: int, share: nat) {
    if lengths == [] || Total(lengths) <= capChars then share == Max(MIN_SHARE_CHARS, Longest(lengths))
    else exists level: int :: IsWaterLevel(lengths, capChars, level) && share == Max(MIN_SHARE_CHARS, level)
  }

  /** One share is right, and it depends only on which lengths there are. */
  lemma ShareIsUnique(s: seq<nat>, t: seq<nat>, capChars: int, a: nat, b: nat)
    requires multiset(s) == multiset(t) && IsShare(s, capChars, a) && IsShare(t, capChars, b)
    ensures a == b
  {
    TotalPermutes(s, t);
    SameMembers(s, t);
    if s != [] && Total(s) > capChars {
      var x :| IsWaterLevel(s, capChars, x) && a == Max(MIN_SHARE_CHARS, x);
      var y :| IsWaterLevel(t, capChars, y) && b == Max(MIN_SHARE_CHARS, y);
      CappedTotalPermutes(s, t, x);
      CappedTotalPermutes(s, t, y);
      assert CappedTotal(t, x) <= capChars && CappedTotal(s, y) <= capChars;
    }
  }

  lemma TotalPermutes(s: seq<nat>, t: seq<nat>)
    requires multiset(s) == multiset(t)
    ensures Total(s) == Total(t) && Longest(s) == Longest(t)
  {
    LongestIsLongest(s);
    LongestIsLongest(t);
    SameMembers(s, t);
    var top := Longest(s);
    CappedTotalPermutes(s, t, top);
    AllFit(s, top);
    AllFit(t, top);
  }

  lemma {:induction false} LongestIsLongest(s: seq<nat>)
    ensures forall k :: 0 <= k < |s| ==> s[k] <= Longest(s)
    ensures if s == [] then Longest(s) == 0 else Longest(s) in s
  {
    if s != [] { LongestIsLongest(s[..|s| - 1]); }
  }

  /** A level at which the budget is met and one above which it is not is the water level. */
  lemma LevelBetween(lengths: seq<nat>, capChars: int, level: int)
    requires CappedTotal(lengths, level) <= capChars < CappedTotal(lengths, level + 1)
    ensures IsWaterLevel(lengths, capChars, level)
  {
    forall t: int ensures CappedTotal(lengths, t) <= capChars <==> t <= level {
      if t <= level { CappedTotalGrows(lengths, t, level); } else { CappedTotalGrows(lengths, level + 1, t); }
    }
  }

  /** Splitting ascending lengths where the even share bites. */
  lemma CappedSplit(sorted: seq<nat>, i: nat, share: int)
    requires i <= |sorted|
    requires forall k :: 0 <= k < i ==> sorted[k] <= share
    requires forall k :: i <= k < |sorted| ==> share <= sorted[k]
    ensures CappedTotal(sorted, share) == Total(sorted[..i]) + (|sorted| - i) * share
  {
    assert sorted == sorted[..i] + sorted[i..];
    CappedTotalConcat(sorted[..i], sorted[i..], share);
    AllFit(sorted[..i], share);
    NoneFits(sorted[i..], share);
  }

  /** What is left divides evenly down: at most `even` each, and one more each would be too much. */
  lemma EvenDivides(remaining: int, rest: nat)
    requires rest >= 1
    ensures rest * (remaining / rest) <= remaining < rest * (remaining / rest + 1)
  {
  }

  /** Taking out a length at most the even share never lowers the even share of the others. */
  lemma EvenGrows(remaining: int, rest: nat, length: nat)
    requires rest >= 2 && length <= remaining / rest
    ensures length <= remaining / rest <= (remaining - length) / (rest - 1)
  {
    var even := remaining / rest;
    EvenDivides(remaining, rest);
    assert (rest - 1) * even <= remaining - length by { assert rest * even == (rest - 1) * even + even; }
    AtLeast(remaining - length, rest - 1, even);
  }

  lemma AtLeast(n: int, d: nat, q: int)
    requires d >= 1 && d * q <= n
    ensures q <= n / d
  {
    EvenDivides(n, d);
    if n / d < q { Ordered(d, n / d + 1, q); }
  }

  lemma Ordered(d: nat, a: int, b: int)
    requires a <= b
    ensures d * a <= d * b
  {
  }

  const AsReal: nat -> real := n => n as real

  /** The loop has stopped at an even share: it is the water level. */
  lemma StoppedAt(sorted: seq<nat>, i: nat, capChars: int, remaining: int)
    requires i < |sorted| && remaining == capChars - Total(sorted[..i])
    requires forall j, k :: 0 <= j <= k < |sorted| ==> sorted[j] <= sorted[k]
    requires forall k :: 0 <= k < i ==> sorted[k] <= remaining / (|sorted| - i)
    requires sorted[i] > remaining / (|sorted| - i)
    ensures IsWaterLevel(sorted, capChars, remaining / (|sorted| - i))
  {
    var even := remaining / (|sorted| - i);
    EvenDivides(remaining, |sorted| - i);
    CappedSplit(sorted, i, even);
    CappedSplit(sorted, i, even + 1);
    LevelBetween(sorted, capChars, even);
  }

  lemma LevelPermutes(s: seq<nat>, t: seq<nat>, capChars: int, level: int)
    requires multiset(s) == multiset(t) && IsWaterLevel(s, capChars, level)
    ensures IsWaterLevel(t, capChars, level)
  {
    forall x: int ensures CappedTotal(t, x) <= capChars <==> x <= level { CappedTotalPermutes(s, t, x); }
  }

  lemma AscendingLengths(sorted: seq<nat>)
    requires Ascending(sorted, AsReal)
    ensures forall j, k :: 0 <= j <= k < |sorted| ==> sorted[j] <= sorted[k]
  {
    forall j, k | 0 <= j <= k < |sorted| ensures sorted[j] <= sorted[k] {
      assert AsReal(sorted[j]) <= AsReal(sorted[k]);
    }
  }

  lemma TakeOne(s: seq<nat>, i: nat)
    requires i < |s|
    ensures Total(s[..i + 1]) == Total(s[..i]) + s[i]
  {
    assert s[..i + 1][..i] == s[..i];
  }

  /** What the loop has found out before index i: everything so far fits the even share of the rest. */
  ghost predicate SoFarFits(sorted: seq<nat>, i: nat, capChars: int, remaining: int)
    requires i <= |sorted|
  {
    && remaining == capChars - Total(sorted[..i])
    && (i < |sorted| ==> forall k :: 0 <= k < i ==> sorted[k] <= remaining / (|sorted| - i))
    && (0 < i == |sorted| ==> remaining >= 0)
  }

  lemma OneMoreFits(sorted: seq<nat>, i: nat, capChars: int, remaining: int)
    requires i < |sorted| && SoFarFits(sorted, i, capChars, remaining)
    requires forall j, k :: 0 <= j <= k < |sorted| ==> sorted[j] <= sorted[k]
    requires sorted[i] <= remaining / (|sorted| - i)
    ensures SoFarFits(sorted, i + 1, capChars, remaining - sorted[i])
  {
    TakeOne(sorted, i);
    if i + 1 < |sorted| { EvenGrows(remaining, |sorted| - i, sorted[i]); }
    else { assert remaining / 1 == remaining; }
  }

  /** The loop's answer, told of the sorted lengths, is right for the lengths as they came. */
  lemma StoppedShare(lengths: seq<nat>, sorted: seq<nat>, i: nat, capChars: int, remaining: int)
    requires i < |sorted| && SoFarFits(sorted, i, capChars, remaining) && multiset(sorted) == multiset(lengths)
    requires forall j, k :: 0 <= j <= k < |sorted| ==> sorted[j] <= sorted[k]
    requires sorted[i] > remaining / (|sorted| - i)
    ensures IsShare(lengths, capChars, Max(MIN_SHARE_CHARS, remaining / (|sorted| - i)))
  {
    var even := remaining / (|sorted| - i);
    StoppedAt(sorted, i, capChars, remaining);
    LevelPermutes(sorted, lengths, capChars, even);
    TotalPermutes(sorted, lengths);
    LongestIsLongest(lengths);
    LongestIsLongest(sorted);
    AllFit(lengths, Longest(lengths));
    assert CappedTotal(lengths, Longest(lengths)) == Total(lengths) && Longest(lengths) > even;
  }

  lemma AllFitShare(lengths: seq<nat>, sorted: seq<nat>, capChars: int)
    requires multiset(sorted) == multiset(lengths) && (sorted != [] ==> Total(sorted) <= capChars)
    requires forall j, k :: 0 <= j <= k < |sorted| ==> sorted[j] <= sorted[k]
    ensures IsShare(lengths, capChars, Max(MIN_SHARE_CHARS, if sorted == [] then 0 else sorted[|sorted| - 1]))
  {
    TotalPermutes(sorted, lengths);
    LongestIsLongest(sorted);
    SameMembers(sorted, lengths);
  }

  method SortedLengths(lengths: seq<nat>) returns (sorted: seq<nat>)
    ensures multiset(sorted) == multiset(lengths)
    ensures forall j, k :: 0 <= j <= k < |sorted| ==> sorted[j] <= sorted[k]
  {
    sorted := SortBy(lengths, AsReal);
    AscendingLengths(sorted);
  }

  /** `fairShare`: walk the lengths upwards, handing what each leaves over to the rest. */
  method FairShare(lengths: seq<nat>, capChars: int) returns (share: nat)
    ensures IsShare(lengths, capChars, share)
  {
    var sorted := SortedLengths(lengths);
    var remaining := capChars;
    for i := 0 to |sorted|
      invariant SoFarFits(sorted, i, capChars, remaining)
    {
      var even := remaining / (|sorted| - i);
      if sorted[i] > even {
        StoppedShare(lengths, sorted, i, capChars, remaining);
        return Max(MIN_SHARE_CHARS, even);
      }
      OneMoreFits(sorted, i, capChars, remaining);
      remaining := remaining - sorted[i];
    }
    assert sorted[..|sorted|] == sorted;
    AllFitShare(lengths, sorted, capChars);
    share := Max(MIN_SHARE_CHARS, if |sorted| > 0 then sorted[|sorted| - 1] else 0);
  }

  /** Whatever the lengths, results held to the share total at most the budget, or the floor for each. */
  lemma ShareHoldsBudget(lengths: seq<nat>, capChars: int, share: nat)
    requires IsShare(lengths, capChars, share)
    ensures share >= MIN_SHARE_CHARS
    ensures CappedTotal(lengths, share) <= Max(capChars, MIN_SHARE_CHARS * |lengths|)
    ensures share > MIN_SHARE_CHARS && lengths != [] ==> CappedTotal(lengths, share) <= capChars
  {
    CappedAtMost(lengths, MIN_SHARE_CHARS);
    if lengths != [] && Total(lengths) <= capChars {
      LongestIsLongest(lengths);
      AllFit(lengths, share);
    } else if lengths != [] {
      var level: int :| IsWaterLevel(lengths, capChars, level) && share == Max(MIN_SHARE_CHARS, level);
      assert CappedTotal(lengths, level) <= capChars;
    }
  }

  lemma {:induction false} CappedAtMost(lengths: seq<nat>, share: nat)
    ensures CappedTotal(lengths, share) <= share * |lengths|
  {
    if lengths != [] { CappedAtMost(lengths[..|lengths| - 1], share); }
  }

  // ----- clipping -----

  const MARKER_OPEN := "\n\U{2026} ["
  const MARKER_SHARED := " more chars not shown: this step's results share a "
  const MARKER_CLOSE := "-char budget. To see more: fewer calls per step, or narrow this call.]"

  function Marker(hidden: nat, capChars: nat): string {
    MARKER_OPEN + Decimal(hidden) + MARKER_SHARED + Decimal(capChars) + MARKER_CLOSE
  }

  lemma MarkerLength(hidden: nat, capChars: nat)
    ensures |Marker(hidden, capChars)| == 125 + |Decimal(hidden)| + |Decimal(capChars)|
  {
    assert |MARKER_OPEN| == 4 && |MARKER_SHARED| == 51 && |MARKER_CLOSE| == 70;
  }

  /**
   * How much of an over-share result is kept: room for the longest marker it could need, and one character at least.
   */
  function Keep(length: nat, share: nat, capChars: nat): (keep: nat)
    ensures keep >= 1
  {
    AtLeastOne(share - |Marker(length, capChars)|)
  }

  /** `clipToShare`. */
  function ClipToShare(summary: string, share: nat, capChars: nat): string {
    var head := Prefix(summary, Keep(|summary|, share, capChars));
    head + Marker(|summary| - |head|, capChars)
  }

  /**
   * A clipped result shows a nonempty head of the summary and then the marker, which names exactly the
   * number of characters left out.
   */
  lemma ClipNamesWhatIsHidden(summary: string, share: nat, capChars: nat) returns (hidden: nat)
    requires 1 <= share < |summary|
    ensures 1 <= hidden < |summary|
    ensures ClipToShare(summary, share, capChars) == summary[..|summary| - hidden] + Marker(hidden, capChars)
    ensures NumberOf(Decimal(hidden)) == hidden
  {
    var keep := Keep(|summary|, share, capChars);
    hidden := |summary| - keep;
    DecimalNames(hidden);
  }

  /** It fits its share whenever the marker for the whole length leaves room for a character. */
  lemma ClipFits(summary: string, share: nat, capChars: nat)
    requires share < |summary| && |Marker(|summary|, capChars)| < share
    ensures |ClipToShare(summary, share, capChars)| <= share
  {
    var keep := share - |Marker(|summary|, capChars)|;
    assert Keep(|summary|, share, capChars) == keep;
    MarkerShrinks(|summary| - keep, |summary|, capChars);
    assert ClipToShare(summary, share, capChars) == summary[..keep] + Marker(|summary| - keep, capChars);
  }

  lemma MarkerShrinks(hidden: nat, whole: nat, capChars: nat)
    requires hidden <= whole
    ensures |Marker(hidden, capChars)| <= |Marker(whole, capChars)|
  {
    MarkerLength(hidden, capChars);
    MarkerLength(whole, capChars);
    DigitsGrow(hidden, whole);
  }

  /** The head kept is the longest that leaves room for the marker of the whole length, and never empty. */
  lemma ClipKeepsMost(summary: string, share: nat, capChars: nat, keep: nat)
    requires 1 <= share < |summary| && 1 <= keep <= |summary|
    requires keep == 1 || keep + |Marker(|summary|, capChars)| <= share
    requires keep + |Marker(|summary|, capChars)| >= share
    ensures ClipToShare(summary, share, capChars) == summary[..keep] + Marker(|summary| - keep, capChars)
  {
    assert Keep(|summary|, share, capChars) == keep;
    assert Prefix(summary, keep) == summary[..keep];
  }

  // ----- a whole batch -----

  datatype ToolResult = ToolResult(tool: string, summary: string)

  function Lengths(texts: seq<string>): (l: seq<nat>)
    ensures |l| == |texts| && forall k :: 0 <= k < |l| ==> l[k] == |texts[k]|
  {
    seq(|texts|, (k: nat) requires k < |texts| => |texts[k]|)
  }

  function Summaries(results: seq<ToolResult>): (s: seq<string>)
    ensures |s| == |results| && forall k :: 0 <= k < |s| ==> s[k] == results[k].summary
  {
    seq(|results|, (k: nat) requires k < |results| => results[k].summary)
  }

  /** The `offset` argument of the k-th call, if there is such a call and it has one. */
  function OffsetOf(offsets: seq<Option<real>>, k: nat): Option<real> {
    if k < |offsets| then offsets[k] else None
  }

  /** One result cut to the share: a read on a line boundary, anything else by characters. */
  function Fitted(r: ToolResult, offset: Option<real>, share: nat, capChars: nat): string {
    if |r.summary| <= share then r.summary
    else if r.tool == "os.fs.read" then CapReadSummary(r.summary, share, ReadStartLineOf(offset))
    else ClipToShare(r.summary, share, capChars)
  }

  ghost predicate CapsTo(results: seq<ToolResult>, offsets: seq<Option<real>>, capChars: nat, share: nat,
                         capped: seq<string>)
  {
    && |capped| == |results|
    && forall k :: 0 <= k < |capped| ==> capped[k] == Fitted(results[k], OffsetOf(offsets, k), share, capChars)
  }

  method SumLengths(results: seq<ToolResult>) returns (total: nat, lengths: seq<nat>)
    ensures lengths == Lengths(Summaries(results)) && total == Total(lengths)
  {
    total, lengths := 0, [];
    for k := 0 to |results|
      invariant lengths == Lengths(Summaries(results))[..k] && total == Total(lengths)
    {
      lengths, total := lengths + [|results[k].summary|], total + |results[k].summary|;
      assert lengths[..k] == Lengths(Summaries(results))[..k];
    }
  }

  /** `capBatchSummaries`: untouched when everything fits, cut to the fair share otherwise. */
  method CapBatchSummaries(results: seq<ToolResult>, offsets: seq<Option<real>>, capChars: nat)
    returns (capped: seq<string>)
    ensures Total(Lengths(Summaries(results))) <= capChars ==> capped == Summaries(results)
    ensures Total(Lengths(Summaries(results))) > capChars ==>
      exists share :: IsShare(Lengths(Summaries(results)), capChars, share)
                      && CapsTo(results, offsets, capChars, share, capped)
  {
    var total, lengths := SumLengths(results);
    if total <= capChars { return Summaries(results); }
    var share := FairShare(lengths, capChars);
    capped := seq(|results|, (k: nat) requires k < |results| =>
      Fitted(results[k], OffsetOf(offsets, k), share, capChars));
    assert CapsTo(results, offsets, capChars, share, capped);
  }

  /** Within what a numeral and a string can hold in the language. */
  ghost predicate Representable(r: ToolResult, offset: Option<real>, capChars: nat) {
    && |r.summary| < 1_000_000_000 && |Decimal(capChars)| <= 21
    && (ReadStartLineOf(offset).Some? ==> |Decimal(ReadStartLineOf(offset).value + |r.summary|)| <= 50)
  }

  /** A result takes at most its share, and one that is within it is untouched. */
  lemma FittedFits(r: ToolResult, offset: Option<real>, share: nat, capChars: nat)
    requires share >= MIN_SHARE_CHARS && Representable(r, offset, capChars)
    ensures |Fitted(r, offset, share, capChars)| <= Capped(|r.summary|, share)
    ensures |r.summary| <= share ==> Fitted(r, offset, share, capChars) == r.summary
  {
    if |r.summary| > share {
      ReadCutFits(r.summary, share, ReadStartLineOf(offset));
      ClippedFits(r.summary, share, capChars);
    }
  }

  /**
   * A read over its share is cut on its last line break, if there is one in the second half of the budget, and tells
   * how to read on from where it was cut.
   */
  lemma ReadFittedExactly(r: ToolResult, offset: Option<real>, share: nat, capChars: nat)
    requires share < |r.summary| && r.tool == "os.fs.read"
    ensures CutAt(r.summary, share).None? ==> Fitted(r, offset, share, capChars) == CapSummary(r.summary, share)
    ensures CutAt(r.summary, share).Some? ==>
      var at := CutAt(r.summary, share).value;
      var shown, rest := r.summary[..at], WithoutFinalBreak(r.summary[at + 1..]);
      Fitted(r, offset, share, capChars) == shown + HintFor(|Lines(shown)|, |Lines(rest)|, ReadStartLineOf(offset))
  {
    ReadCutTells(r.summary, share, ReadStartLineOf(offset));
  }

  /** Anything else keeps the longest head it can. */
  lemma FittedExactly(r: ToolResult, offset: Option<real>, share: nat, capChars: nat, keep: nat)
    requires 1 <= share < |r.summary| && r.tool != "os.fs.read" && 1 <= keep <= |r.summary|
    requires keep == 1 || keep + |Marker(|r.summary|, capChars)| <= share
    requires keep + |Marker(|r.summary|, capChars)| >= share
    ensures Fitted(r, offset, share, capChars) == r.summary[..keep] + Marker(|r.summary| - keep, capChars)
  {
    ClippedWhole(r, offset, share, capChars);
    ClipKeepsMost(r.summary, share, capChars, keep);
  }

  lemma ClippedWhole(r: ToolResult, offset: Option<real>, share: nat, capChars: nat)
    requires share < |r.summary| && r.tool != "os.fs.read"
    ensures Fitted(r, offset, share, capChars) == ClipToShare(r.summary, share, capChars)
  {
  }

  lemma ClippedFits(summary: string, share: nat, capChars: nat)
    requires MIN_SHARE_CHARS <= share < |summary| < 1_000_000_000 && |Decimal(capChars)| <= 21
    ensures |ClipToShare(summary, share, capChars)| <= share
  {
    NineDigits(|summary|);
    MarkerLength(|summary|, capChars);
    ClipFits(summary, share, capChars);
  }

  lemma {:induction false} TotalWithin(lengths: seq<nat>, of: seq<nat>, share: int)
    requires |lengths| == |of| && forall k :: 0 <= k < |of| ==> lengths[k] <= Capped(of[k], share)
    ensures Total(lengths) <= CappedTotal(of, share)
  {
    if of != [] { TotalWithin(lengths[..|of| - 1], of[..|of| - 1], share); }
  }

  /** The whole capped batch holds the budget, or the floor of 600 for each of its results. */
  lemma BatchHoldsBudget(results: seq<ToolResult>, offsets: seq<Option<real>>, capChars: nat, share: nat,
                         capped: seq<string>)
    requires IsShare(Lengths(Summaries(results)), capChars, share) && CapsTo(results, offsets, capChars, share, capped)
    requires forall k :: 0 <= k < |results| ==> Representable(results[k], OffsetOf(offsets, k), capChars)
    ensures Total(Lengths(capped)) <= Max(capChars, MIN_SHARE_CHARS * |results|)
  {
    var lengths := Lengths(Summaries(results));
    ShareHoldsBudget(lengths, capChars, share);
    forall k | 0 <= k < |results| ensures Lengths(capped)[k] <= Capped(lengths[k], share) {
      FittedFits(results[k], OffsetOf(offsets, k), share, capChars);
    }
    TotalWithin(Lengths(capped), lengths, share);
  }
}
