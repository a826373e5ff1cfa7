/** Cutting a file read to a budget: `capReadSummary` of src/session/conversation-turn.ts. */
module ReadCaps {
  import opened Wrappers
  import opened Decimals
  import opened TextLines

  const READ_PAGING_HINT_RESERVE_CHARS := 260

  // ----- where a text can be cut -----

  /** `text.replace(/\r?\n$/, "")`. */
  function WithoutFinalBreak(text: string): (t: string)
    ensures t <= text
  {
    var n := |text|;
    if n == 0 || text[n - 1] != '\n' then text
    else if n >= 2 && text[n - 2] == '\r' then text[..n - 2]
    else text[..n - 1]
  }

  /** `text.lastIndexOf("\n", from)`: the last break at or before `from`, or -1. */
  function LastBreak(text: string, from: nat): (at: int)
    ensures -1 <= at < |text| && at <= from
    ensures at >= 0 ==> text[at] == '\n'
    ensures forall j :: at < j <= from && j < |text| ==> text[j] != '\n'
  {
    if from < |text| && text[from] == '\n' then from
    else if from == 0 then -1
    else LastBreak(text, from - 1)
  }

  // ----- the plain cut -----

  const CUT_OPEN := "\n\U{2026} [rendering-truncated "
  const CUT_CLOSE := " chars]"

  function CutMarker(hidden: nat): string { CUT_OPEN + Decimal(hidden) + CUT_CLOSE }

  function AtLeastOne(n: int): nat { if n >= 1 then n else 1 }

  function Prefix(text: string, keep: nat): string { if keep <= |text| then text[..keep] else text }

  /** `capSummary`. */
  function CapSummary(summary: string, capChars: nat): string {
    if |summary| <= capChars then summary else CutAfter(summary, AtLeastOne(capChars - 40))
  }

  function CutAfter(summary: string, keep: nat): string {
    var head := Prefix(summary, keep);
    head + CutMarker(|summary| - |head|)
  }

  // ----- the cut on a line boundary -----

  /** `readStartLineOf`, of an `offset` that is absent (or not a finite number) or a number. */
  function ReadStartLineOf(offset: Option<real>): (start: Option<nat>)
    ensures start.Some? ==> start.value >= 1
  {
    match offset
    case None => Some(1)
    case Some(r) =>
      var whole := if r >= 0.0 then r.Floor else -((-r).Floor);
      if whole < 0 then None else Some(AtLeastOne(whole))
  }

  const HINT_OPEN := "\n\U{2026} [prompt shows the first "
  const HINT_LINES := " lines of this read; "
  const HINT_MORE := " more lines are not shown, and reading the same range again shows the same cut. "
  const HINT_CALL := "To see them, call os.fs.read with "
  const HINT_LIMIT := " and limit: "
  const NEXT_UNKNOWN := "the line after the last one shown as `offset`"
  const NEXT_AT := "offset: "

  function NextOffset(startLine: Option<nat>, shownLines: nat): string {
    match startLine
    case None => NEXT_UNKNOWN
    case Some(line) => NEXT_AT + Decimal(line + shownLines)
  }

  function PagingHint(shownLines: nat, hiddenLines: nat, startLine: Option<nat>): string {
    HINT_OPEN + Decimal(shownLines) + HINT_LINES + Decimal(hiddenLines) + HINT_MORE
    + HINT_CALL + NextOffset(startLine, shownLines) + HINT_LIMIT + Decimal(shownLines) + "]"
  }

  /** Where the read is cut: on the last break that fits, if that keeps at least half the budget. */
  function CutAt(summary: string, capChars: nat): (at: Option<nat>)
    ensures at.Some? ==> at.value < |summary| && summary[at.value] == '\n'
    ensures at.Some? ==> at.value <= AtLeastOne(capChars - READ_PAGING_HINT_RESERVE_CHARS) <= 2 * at.value
  {
    var budget := AtLeastOne(capChars - READ_PAGING_HINT_RESERVE_CHARS);
    var lastBreak := LastBreak(summary, budget);
    if 2 * lastBreak < budget then None else Some(lastBreak)
  }

  /** `capReadSummary`. */
  function CapReadSummary(summary: string, capChars: nat, startLine: Option<nat>): string {
    if |summary| <= capChars then summary
    else match CutAt(summary, capChars)
      case None => CapSummary(summary, capChars)
      case Some(at) => LineCut(summary, at, startLine)
  }

  /** The lines before the break, and how to ask for those after it. */
  function LineCut(summary: string, at: nat, startLine: Option<nat>): string
    requires at < |summary|
  {
    summary[..at]
    + PagingHint(|Lines(summary[..at])|, |Lines(WithoutFinalBreak(summary[at + 1..]))|, startLine)
  }

  // ----- what the cut promises -----

  lemma CutMarkerLength(hidden: nat)
    ensures |CutMarker(hidden)| == 31 + |Decimal(hidden)|
  {
    assert |CUT_OPEN| == 24 && |CUT_CLOSE| == 7;
  }

  lemma PagingHintLength(shown: nat, hidden: nat, startLine: Option<nat>)
    ensures |PagingHint(shown, hidden, startLine)|
         == 175 + 2 * |Decimal(shown)| + |Decimal(hidden)| + |NextOffset(startLine, shown)|
  {
    assert |HINT_OPEN| == 27 && |HINT_LINES| == 21 && |HINT_MORE| == 80 && |HINT_CALL| == 34 && |HINT_LIMIT| == 12;
  }

  lemma NextOffsetLength(startLine: Option<nat>, shown: nat, digits: nat)
    requires digits >= 37 && (startLine.Some? ==> |Decimal(startLine.value + shown)| <= digits)
    ensures |NextOffset(startLine, shown)| <= 8 + digits
  {
    assert |NEXT_UNKNOWN| == 45 && |NEXT_AT| == 8;
  }

  /**
   * The cut read fits its budget: the reserve of 260 covers the hint for any read below a billion
   * characters and any start line that leaves fifty digits for the next one.
   */
  lemma ReadCutFits(summary: string, capChars: nat, startLine: Option<nat>)
    requires capChars > READ_PAGING_HINT_RESERVE_CHARS && |summary| < 1_000_000_000
    requires startLine.Some? ==> |Decimal(startLine.value + |summary|)| <= 50
    ensures |CapReadSummary(summary, capChars, startLine)| <= capChars
  {
    if |summary| > capChars {
      match CutAt(summary, capChars)
      case None => PlainCutFits(summary, capChars);
      case Some(at) =>
        LineCutFits(summary, at, capChars, startLine);
    }
  }

  lemma LineCutFits(summary: string, at: nat, capChars: nat, startLine: Option<nat>)
    requires at < |summary| < 1_000_000_000 && at + READ_PAGING_HINT_RESERVE_CHARS <= capChars
    requires startLine.Some? ==> |Decimal(startLine.value + |summary|)| <= 50
    ensures |LineCut(summary, at, startLine)| <= capChars
  {
    HintFits(|Lines(summary[..at])|, |Lines(WithoutFinalBreak(summary[at + 1..]))|, |summary|, startLine);
  }

  lemma HintFits(shown: nat, hidden: nat, size: nat, startLine: Option<nat>)
    requires shown <= size < 1_000_000_000 && hidden <= size
    requires startLine.Some? ==> |Decimal(startLine.value + size)| <= 50
    ensures |PagingHint(shown, hidden, startLine)| <= READ_PAGING_HINT_RESERVE_CHARS
  {
    NineDigits(shown);
    NineDigits(hidden);
    if startLine.Some? { DigitsGrow(startLine.value + shown, startLine.value + size); }
    NextOffsetLength(startLine, shown, 50);
    PagingHintLength(shown, hidden, startLine);
  }

  lemma NineDigits(n: nat)
    requires n < 1_000_000_000
    ensures |Decimal(n)| <= 9
  {
    Billion();
    DigitsBelow(n, 9);
  }

  lemma Billion()
    ensures Pow10(9) == 1_000_000_000
  {
    assert Pow10(3) == 1000 by { assert Pow10(1) == 10 * Pow10(0); assert Pow10(2) == 10 * Pow10(1); }
    assert Pow10(4) == 10_000;
    assert Pow10(5) == 100_000;
    assert Pow10(6) == 1_000_000;
    assert Pow10(7) == 10_000_000;
    assert Pow10(8) == 100_000_000;
  }

  lemma CutAfterLength(summary: string, keep: nat)
    requires keep <= |summary|
    ensures |CutAfter(summary, keep)| == keep + 31 + |Decimal(|summary| - keep)|
  {
    var head := Prefix(summary, keep);
    assert |head| == keep;
    CutMarkerLength(|summary| - keep);
    assert CutAfter(summary, keep) == head + CutMarker(|summary| - keep);
  }

  /** So does the plain cut: its reserve of 40 covers the marker exactly up to nine digits. */
  lemma PlainCutFits(summary: string, capChars: nat)
    requires capChars > 40 && |summary| > capChars
    ensures |CapSummary(summary, capChars)| <= capChars <==> |Decimal(|summary| - (capChars - 40))| <= 9
    ensures |summary| < 1_000_000_000 ==> |CapSummary(summary, capChars)| <= capChars
  {
    var hidden := |summary| - (capChars - 40);
    CutAfterLength(summary, capChars - 40);
    assert CapSummary(summary, capChars) == CutAfter(summary, capChars - 40);
    if |summary| < 1_000_000_000 { NineDigits(hidden); }
  }

  /** An offset names the line a read starts at: its whole part, the first line below that, none if it is negative. */
  lemma StartLineExactly(r: real, n: nat)
    ensures ReadStartLineOf(None) == Some(1)
    ensures r <= -1.0 ==> ReadStartLineOf(Some(r)) == None
    ensures -1.0 < r < 1.0 ==> ReadStartLineOf(Some(r)) == Some(1)
    ensures n >= 1 && n as real <= r < (n + 1) as real ==> ReadStartLineOf(Some(r)) == Some(n)
  {
  }

  /** The read is cut on the last break within the budget, unless there is none in its second half. */
  lemma CutAtLastBreak(summary: string, capChars: nat, at: nat)
    ensures var budget := if capChars > 260 then capChars - 260 else 1;
      CutAt(summary, capChars) == Some(at) <==>
        && at < |summary| && summary[at] == '\n' && at <= budget <= 2 * at
        && forall j :: at < j <= budget && j < |summary| ==> summary[j] != '\n'
  {
  }

  /** Without such a break the head is kept that leaves 40 characters for the marker, and the marker counts the rest. */
  lemma PlainCutKeeps(summary: string, capChars: nat, keep: nat)
    requires keep == if capChars > 41 then capChars - 40 else 1
    ensures |summary| <= capChars ==> CapSummary(summary, capChars) == summary
    ensures |summary| > capChars ==>
      CapSummary(summary, capChars) == summary[..keep] + (CUT_OPEN + Decimal(|summary| - keep) + CUT_CLOSE)
  {
    if |summary| > capChars {
      assert Prefix(summary, keep) == summary[..keep];
      assert CapSummary(summary, capChars) == CutAfter(summary, keep);
    }
  }

  lemma FinalBreakIsAfter(summary: string, at: nat)
    requires at + 1 < |summary| && summary[at] == '\n'
    ensures WithoutFinalBreak(summary) == summary[..at + 1] + WithoutFinalBreak(summary[at + 1..])
  {
  }

  /** The hint counts the lines shown and hidden and asks for as many again, from the first one hidden. */
  ghost function HintFor(shown: nat, hidden: nat, startLine: Option<nat>): string {
    var next := if startLine.Some? then NEXT_AT + Decimal(startLine.value + shown) else NEXT_UNKNOWN;
    HINT_OPEN + Decimal(shown) + HINT_LINES + Decimal(hidden) + HINT_MORE + HINT_CALL + next + HINT_LIMIT
    + Decimal(shown) + "]"
  }

  lemma HintIs(shown: nat, hidden: nat, startLine: Option<nat>)
    ensures PagingHint(shown, hidden, startLine) == HintFor(shown, hidden, startLine)
  {
    assert NextOffset(startLine, shown)
        == if startLine.Some? then NEXT_AT + Decimal(startLine.value + shown) else NEXT_UNKNOWN;
  }

  /** What a read over its budget is cut to: its lines up to the break and the hint, or else its plain head. */
  lemma ReadCutTells(summary: string, capChars: nat, startLine: Option<nat>)
    requires |summary| > capChars
    ensures CutAt(summary, capChars).None? ==>
      CapReadSummary(summary, capChars, startLine) == CapSummary(summary, capChars)
    ensures CutAt(summary, capChars).Some? ==>
      var at := CutAt(summary, capChars).value;
      var shown, rest := summary[..at], WithoutFinalBreak(summary[at + 1..]);
      CapReadSummary(summary, capChars, startLine) == shown + HintFor(|Lines(shown)|, |Lines(rest)|, startLine)
  {
    if CutAt(summary, capChars).Some? {
      var at := CutAt(summary, capChars).value;
      HintIs(|Lines(summary[..at])|, |Lines(WithoutFinalBreak(summary[at + 1..]))|, startLine);
    }
  }

  /**
   * A cut read shows its first lines whole and counts the rest exactly: the shown lines and the hidden
   * ones are the lines of the read, with nothing in between, so the line asked for next, `shownLines`
   * after the first, is the first one not shown.
   */
  lemma ReadCutContinues(summary: string, capChars: nat, at: nat)
    requires capChars > READ_PAGING_HINT_RESERVE_CHARS && |summary| > capChars && CutAt(summary, capChars) == Some(at)
    ensures var shown, rest := summary[..at], WithoutFinalBreak(summary[at + 1..]);
      && Lines(WithoutFinalBreak(summary)) == Lines(shown) + Lines(rest)
      && Lines(WithoutFinalBreak(summary))[|Lines(shown)|] == Lines(rest)[0]
      && 2 * |shown| >= capChars - READ_PAGING_HINT_RESERVE_CHARS
  {
    SplitsAtBreak(summary, at);
  }

  lemma SplitsAtBreak(summary: string, at: nat)
    requires at + 1 < |summary| && summary[at] == '\n'
    ensures Lines(WithoutFinalBreak(summary)) == Lines(summary[..at]) + Lines(WithoutFinalBreak(summary[at + 1..]))
  {
    FinalBreakIsAfter(summary, at);
    assert summary[..at + 1] == summary[..at] + ['\n'];
    LinesJoin(summary[..at], WithoutFinalBreak(summary[at + 1..]));
  }
}
