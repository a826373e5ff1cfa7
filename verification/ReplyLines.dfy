/** The line hand-off of eval-memory/harness/multi-turn-driver.ts: chunks of output in, one line per prompt out. */
module ReplyLines {
  import opened Wrappers
  import opened TextLines

  // ----- `split(/\r?\n/)` -----

  function WithoutReturn(line: string): string {
    if line != [] && line[|line| - 1] == '\r' then line[..|line| - 1] else line
  }

  function Trimmed(raw: seq<string>): (lines: seq<string>)
    ensures |lines| == |raw| && forall k :: 0 <= k < |raw| ==> lines[k] == WithoutReturn(raw[k])
  {
    seq(|raw|, (k: nat) requires k < |raw| => WithoutReturn(raw[k]))
  }

  function Last(pieces: seq<string>): string
    requires pieces != []
  {
    pieces[|pieces| - 1]
  }

  function Front(pieces: seq<string>): seq<string>
    requires pieces != []
  {
    pieces[..|pieces| - 1]
  }

  /** The complete lines of a text: every piece that a break ends, without its carriage return. */
  function Complete(text: string): seq<string> { Trimmed(Front(Lines(text))) }

  /** What follows the last break. */
  function Rest(text: string): string { Last(Lines(text)) }

  /** A text that arrives in two parts splits like the whole, wherever the cut falls. */
  lemma {:induction false} LinesInParts(a: string, b: string)
    ensures Lines(a + b) == Front(Lines(a)) + Lines(Rest(a) + b)
  {
    if b == [] {
      assert a + b == a && Rest(a) + b == Rest(a);
      RestIsOneLine(a);
      assert Lines(a) == Front(Lines(a)) + [Rest(a)];
    } else {
      var c, front := b[|b| - 1], b[..|b| - 1];
      LinesInParts(a, front);
      assert (a + b)[..|a + b| - 1] == a + front && (a + b)[|a + b| - 1] == c;
      assert (Rest(a) + b)[..|Rest(a) + b| - 1] == Rest(a) + front && (Rest(a) + b)[|Rest(a) + b| - 1] == c;
      ExtendsLast(Front(Lines(a)), Lines(Rest(a) + front), c);
    }
  }

  lemma {:induction false} RestIsOneLine(text: string)
    ensures Lines(Rest(text)) == [Rest(text)]
  {
    if text != [] {
      var front, c := text[..|text| - 1], text[|text| - 1];
      RestIsOneLine(front);
      if c != '\n' {
        assert Rest(text) == Rest(front) + [c];
        assert Rest(text)[..|Rest(text)| - 1] == Rest(front);
      }
    }
  }

  /** In particular a break cut in two, or a line spread over any number of chunks, makes no difference. */
  lemma ChunkMakesNoDifference(a: string, b: string)
    ensures Complete(a + b) == Complete(a) + Complete(Rest(a) + b)
    ensures Rest(a + b) == Rest(Rest(a) + b)
  {
    LinesInParts(a, b);
  }

  /** Lines as a child writes them, each ended by LF or, where `crs` says so, by CR and LF. */
  ghost function Written(lines: seq<string>, crs: seq<bool>): string
    requires |lines| == |crs|
  {
    if lines == [] then ""
    else
      var n := |lines| - 1;
      Written(lines[..n], crs[..n]) + Ended(lines[n], crs[n])
  }

  ghost function Ended(line: string, cr: bool): string { line + if cr then "\r\n" else "\n" }

  /** A line has no break in it, and no CR just before a bare LF. */
  ghost predicate IsLine(line: string, cr: bool) {
    '\n' !in line && (!cr && line != [] ==> line[|line| - 1] != '\r')
  }

  /** Whatever lines are written, with either ending, are split back as they were, and the rest is left over. */
  lemma {:induction false} SplitsBack(lines: seq<string>, crs: seq<bool>, rest: string)
    requires |lines| == |crs| && '\n' !in rest
    requires forall k :: 0 <= k < |lines| ==> IsLine(lines[k], crs[k])
    ensures Complete(Written(lines, crs) + rest) == lines && Rest(Written(lines, crs) + rest) == rest
  {
    if lines == [] {
      NoBreaks(rest);
      assert "" + rest == rest;
    } else {
      var n := |lines| - 1;
      var before, end := Written(lines[..n], crs[..n]), Ended(lines[n], crs[n]);
      SplitsBack(lines[..n], crs[..n], []);
      assert before + [] == before;
      OneLine(lines[n], crs[n], rest);
      AddsLine(before, end + rest, lines[..n], lines[n], rest);
      assert (before + end) + rest == before + (end + rest);
      assert lines == lines[..n] + [lines[n]];
    }
  }

  lemma AddsLine(before: string, more: string, lines: seq<string>, line: string, rest: string)
    requires Complete(before) == lines && Rest(before) == "" && Complete(more) == [line] && Rest(more) == rest
    ensures Complete(before + more) == lines + [line] && Rest(before + more) == rest
  {
    ChunkMakesNoDifference(before, more);
    assert Rest(before) + more == more;
  }

  lemma OneLine(line: string, cr: bool, rest: string)
    requires IsLine(line, cr) && '\n' !in rest
    ensures Complete(Ended(line, cr) + rest) == [line] && Rest(Ended(line, cr) + rest) == rest
  {
    var head := line + if cr then ['\r'] else [];
    NoBreaks(head);
    NoBreaks(rest);
    LinesJoin(head, rest);
    assert Ended(line, cr) == head + ['\n'];
    assert Front([head] + [rest]) == [head];
    assert WithoutReturn(head) == line;
  }

  // ----- the hand-off -----

  /** How a wait ended: with a line, overtaken by a later wait, or by the child's exit. */
  datatype Answer = Line(wait: nat, text: string) | Stale(wait: nat) | Exited(wait: nat)

  datatype Event = Data(chunk: string) | Wait | Close

  datatype State = State(buffer: string, backlog: seq<string>, pending: Option<nat>, waits: nat, answers: seq<Answer>)

  const START := State("", [], None, 0, [])

  function Delivered(s: State, line: string): State {
    match s.pending
    case Some(wait) => s.(pending := None, answers := s.answers + [Line(wait, line)])
    case None => s.(backlog := s.backlog + [line])
  }

  function DeliveredAll(s: State, lines: seq<string>): State {
    if lines == [] then s else Delivered(DeliveredAll(s, lines[..|lines| - 1]), lines[|lines| - 1])
  }

  function Waited(s: State): State {
    var wait, m := s.waits, s.(waits := s.waits + 1);
    if s.backlog != [] then m.(backlog := s.backlog[1..], answers := s.answers + [Line(wait, s.backlog[0])])
    else
      m.(pending := Some(wait), answers := s.answers + if s.pending.Some? then [Stale(s.pending.value)] else [])
  }

  function Closed(s: State): State {
    if s.pending.Some? then s.(pending := None, answers := s.answers + [Exited(s.pending.value)]) else s
  }

  function Applied(s: State, e: Event): State {
    match e
    case Data(chunk) =>
      var text := s.buffer + chunk;
      DeliveredAll(s, Complete(text)).(buffer := Rest(text))
    case Wait => Waited(s)
    case Close => Closed(s)
  }

  function After(events: seq<Event>): State {
    if events == [] then START else Applied(After(events[..|events| - 1]), events[|events| - 1])
  }

  /** Everything the child has written. */
  function Stream(events: seq<Event>): string {
    if events == [] then ""
    else
      var last := events[|events| - 1];
      Stream(events[..|events| - 1]) + if last.Data? then last.chunk else ""
  }

  // ----- nothing lost, nothing twice -----

  /** The lines handed to waits, in order. */
  function Handed(answers: seq<Answer>): seq<string> {
    if answers == [] then []
    else
      var last := answers[|answers| - 1];
      Handed(answers[..|answers| - 1]) + if last.Line? then [last.text] else []
  }

  lemma HandedAppend(answers: seq<Answer>, a: Answer)
    ensures Handed(answers + [a]) == Handed(answers) + if a.Line? then [a.text] else []
  {
    assert (answers + [a])[..|answers|] == answers;
  }

  /** A backlog and a waiting resolver never coexist. */
  ghost predicate Exclusive(s: State) { s.pending.Some? ==> s.backlog == [] }

  lemma DeliveredKeeps(s: State, line: string)
    requires Exclusive(s)
    ensures var t := Delivered(s, line);
      && Exclusive(t) && t.waits == s.waits && t.buffer == s.buffer
      && Handed(t.answers) + t.backlog == (Handed(s.answers) + s.backlog) + [line]
  {
    if s.pending.Some? { HandedAppend(s.answers, Line(s.pending.value, line)); }
  }

  lemma {:induction false} DeliveredAllKeeps(s: State, lines: seq<string>)
    requires Exclusive(s)
    ensures var t := DeliveredAll(s, lines);
      && Exclusive(t) && t.waits == s.waits && t.buffer == s.buffer
      && Handed(t.answers) + t.backlog == (Handed(s.answers) + s.backlog) + lines
  {
    if lines == [] {
      assert (Handed(s.answers) + s.backlog) + [] == Handed(s.answers) + s.backlog;
    } else {
      DeliveredAllKeeps(s, lines[..|lines| - 1]);
      DeliveredKeeps(DeliveredAll(s, lines[..|lines| - 1]), lines[|lines| - 1]);
      assert lines == lines[..|lines| - 1] + [lines[|lines| - 1]];
    }
  }

  lemma WaitedKeeps(s: State)
    requires Exclusive(s)
    ensures var t := Waited(s);
      Exclusive(t) && t.buffer == s.buffer && Handed(t.answers) + t.backlog == Handed(s.answers) + s.backlog
  {
    if s.backlog != [] {
      HandedAppend(s.answers, Line(s.waits, s.backlog[0]));
      assert s.backlog == [s.backlog[0]] + s.backlog[1..];
    } else if s.pending.Some? {
      HandedAppend(s.answers, Stale(s.pending.value));
    } else {
      assert s.answers + [] == s.answers;
    }
  }

  lemma ClosedKeeps(s: State)
    requires Exclusive(s)
    ensures var t := Closed(s);
      Exclusive(t) && t.buffer == s.buffer && Handed(t.answers) + t.backlog == Handed(s.answers) + s.backlog
  {
    if s.pending.Some? { HandedAppend(s.answers, Exited(s.pending.value)); }
  }

  /**
   * For every chunking and every interleaving with waits, even overlapping ones: the lines handed out so
   * far followed by the backlog are the complete lines of the whole stream split at once.
   */
  lemma {:induction false} LinesConserved(events: seq<Event>)
    ensures var s := After(events);
      && Exclusive(s)
      && s.buffer == Rest(Stream(events))
      && Handed(s.answers) + s.backlog == Complete(Stream(events))
  {
    if events != [] {
      var before, last := events[..|events| - 1], events[|events| - 1];
      LinesConserved(before);
      assert !last.Data? ==> Stream(events) == Stream(before);
      match last
      case Data(chunk) =>
        ChunkMakesNoDifference(Stream(before), chunk);
        DeliveredAllKeeps(After(before), Complete(After(before).buffer + chunk));
      case Wait => WaitedKeeps(After(before));
      case Close => ClosedKeeps(After(before));
    }
  }

  // ----- the k-th wait gets the k-th line -----

  /** The prompt loop awaits each reply before it waits again, and the child has not exited. */
  ghost predicate Orderly(events: seq<Event>) {
    forall k :: 0 <= k < |events| ==> !events[k].Close? && (events[k].Wait? ==> After(events[..k]).pending.None?)
  }

  /** Every wait so far has been answered by its line, except possibly the latest. */
  ghost predicate InTurn(s: State) {
    && s.waits == |s.answers| + (if s.pending.Some? then 1 else 0)
    && (s.pending.Some? ==> s.pending.value == s.waits - 1)
    && forall k :: 0 <= k < |s.answers| ==> s.answers[k].Line? && s.answers[k].wait == k
  }

  lemma DeliveredInTurn(s: State, line: string)
    requires InTurn(s)
    ensures InTurn(Delivered(s, line))
  {
  }

  lemma {:induction false} DeliveredAllInTurn(s: State, lines: seq<string>)
    requires InTurn(s)
    ensures InTurn(DeliveredAll(s, lines))
  {
    if lines != [] {
      DeliveredAllInTurn(s, lines[..|lines| - 1]);
      DeliveredInTurn(DeliveredAll(s, lines[..|lines| - 1]), lines[|lines| - 1]);
    }
  }

  lemma WaitedInTurn(s: State)
    requires InTurn(s) && s.pending.None?
    ensures InTurn(Waited(s))
  {
    assert s.answers + [] == s.answers;
  }

  lemma {:induction false} AlwaysInTurn(events: seq<Event>)
    requires Orderly(events)
    ensures InTurn(After(events))
  {
    if events != [] {
      var before, last := events[..|events| - 1], events[|events| - 1];
      assert forall k :: 0 <= k < |before| ==> before[..k] == events[..k];
      AlwaysInTurn(before);
      if last.Data? { DeliveredAllInTurn(After(before), Complete(After(before).buffer + last.chunk)); }
      else { WaitedInTurn(After(before)); }
    }
  }

  lemma {:induction false} HandedIsTexts(answers: seq<Answer>)
    requires forall k :: 0 <= k < |answers| ==> answers[k].Line?
    ensures |Handed(answers)| == |answers| && forall k :: 0 <= k < |answers| ==> Handed(answers)[k] == answers[k].text
  {
    if answers != [] { HandedIsTexts(answers[..|answers| - 1]); }
  }

  /**
   * For every chunking of the output and every interleaving, the k-th prompt is paired with the k-th line
   * of the whole stream split at once; the wait is open exactly while that line has not come.
   */
  lemma PairedInOrder(events: seq<Event>, k: nat)
    requires Orderly(events) && k < After(events).waits
    ensures var s, lines := After(events), Complete(Stream(events));
      if k < |lines| then k < |s.answers| && s.answers[k] == Line(k, lines[k])
      else s.pending == Some(k)
  {
    AlwaysInTurn(events);
    LinesConserved(events);
    Pairs(After(events), Complete(Stream(events)), k);
  }

  lemma Pairs(s: State, lines: seq<string>, k: nat)
    requires InTurn(s) && Exclusive(s) && Handed(s.answers) + s.backlog == lines && k < s.waits
    ensures if k < |lines| then k < |s.answers| && s.answers[k] == Line(k, lines[k]) else s.pending == Some(k)
  {
    HandedIsTexts(s.answers);
    if k < |s.answers| { assert lines[k] == Handed(s.answers)[k] == s.answers[k].text; }
  }

  /** Lines delivered together: the waiting resolver gets the first, and the backlog all that nobody waits for. */
  lemma {:induction false} DeliveredTogether(s: State, lines: seq<string>)
    ensures s.pending.Some? && lines != [] ==>
      var first := Line(s.pending.value, lines[0]);
      DeliveredAll(s, lines) == s.(pending := None, answers := s.answers + [first], backlog := s.backlog + lines[1..])
    ensures s.pending.None? || lines == [] ==> DeliveredAll(s, lines) == s.(backlog := s.backlog + lines)
  {
    if lines == [] {
      assert s.backlog + [] == s.backlog;
    } else {
      var n := |lines| - 1;
      DeliveredTogether(s, lines[..n]);
      assert lines == lines[..n] + [lines[n]];
      if n == 0 { assert s.backlog + [] == s.backlog; } else { assert lines[1..] == lines[..n][1..] + [lines[n]]; }
      assert s.backlog + lines == (s.backlog + lines[..n]) + [lines[n]];
    }
  }

  // ----- the driver -----

  class Driver {
    var stdoutBuffer: string
    var stdoutBacklog: seq<string>
    var pendingReply: Option<nat>
    var waits: nat
    var answers: seq<Answer>
    ghost var events: seq<Event>

    ghost function Contents(): State
      reads this
    {
      State(stdoutBuffer, stdoutBacklog, pendingReply, waits, answers)
    }

    /** The fields are what the events so far make them. */
    ghost predicate Valid()
      reads this
    {
      Contents() == After(events)
    }

    constructor ()
      ensures Valid() && events == []
    {
      stdoutBuffer, stdoutBacklog, pendingReply, waits, answers, events := "", [], None, 0, [], [];
    }

    /** Hand one line over. */
    method Deliver(line: string)
      modifies this`pendingReply, this`answers, this`stdoutBacklog
      ensures Contents() == Delivered(old(Contents()), line)
    {
      if pendingReply.Some? {
        answers := answers + [Line(pendingReply.value, line)];
        pendingReply := None;
      } else {
        stdoutBacklog := stdoutBacklog + [line];
      }
    }

    /** The stdout handler. */
    method OnData(chunk: string)
      requires Valid()
      modifies this
      ensures Valid() && events == old(events) + [Data(chunk)]
      ensures waits == old(waits) && stdoutBuffer == Rest(old(stdoutBuffer) + chunk)
      ensures var lines, open := Complete(old(stdoutBuffer) + chunk), old(pendingReply);
        if open.Some? && lines != [] then
          && pendingReply.None? && answers == old(answers) + [Line(open.value, lines[0])]
          && stdoutBacklog == old(stdoutBacklog) + lines[1..]
        else pendingReply == open && answers == old(answers) && stdoutBacklog == old(stdoutBacklog) + lines
    {
      ghost var before := Contents();
      stdoutBuffer := stdoutBuffer + chunk;
      var pieces := Lines(stdoutBuffer);
      var lines := Trimmed(Front(pieces));
      stdoutBuffer := Last(pieces);
      ghost var start := Contents();
      assert lines[..0] == [];
      for i := 0 to |lines|
        invariant Contents() == DeliveredAll(start, lines[..i]) && events == old(events)
      {
        assert lines[..i + 1][..i] == lines[..i];
        Deliver(lines[i]);
      }
      assert lines[..|lines|] == lines;
      BufferApart(before, start.buffer, lines);
      DeliveredTogether(start, lines);
      events := events + [Data(chunk)];
      assert events[..|events| - 1] == old(events);
    }

    /** `waitForNextReplyLine`: from the backlog if there is one, else by leaving a resolver. */
    method WaitForNextReplyLine()
      requires Valid()
      modifies this
      ensures Valid() && events == old(events) + [Wait]
      ensures waits == old(waits) + 1 && stdoutBuffer == old(stdoutBuffer)
      ensures old(stdoutBacklog) != [] ==>
        && old(stdoutBacklog) == [old(stdoutBacklog)[0]] + stdoutBacklog && pendingReply == old(pendingReply)
        && answers == old(answers) + [Line(old(waits), old(stdoutBacklog)[0])]
      ensures old(stdoutBacklog) == [] ==>
        && stdoutBacklog == [] && pendingReply == Some(old(waits))
        && answers == old(answers) + if old(pendingReply).Some? then [Stale(old(pendingReply).value)] else []
    {
      var wait := waits;
      waits := waits + 1;
      if |stdoutBacklog| > 0 {
        answers := answers + [Line(wait, stdoutBacklog[0])];
        stdoutBacklog := stdoutBacklog[1..];
      } else {
        if pendingReply.Some? {
          answers := answers + [Stale(pendingReply.value)];
        } else {
          assert answers + [] == answers;
        }
        pendingReply := Some(wait);
      }
      events := events + [Wait];
      assert events[..|events| - 1] == old(events);
    }

    /** The child's `close` event. */
    method OnClose()
      requires Valid()
      modifies this
      ensures Valid() && events == old(events) + [Close]
      ensures stdoutBuffer == old(stdoutBuffer) && stdoutBacklog == old(stdoutBacklog) && waits == old(waits)
      ensures pendingReply.None?
      ensures answers == old(answers) + if old(pendingReply).Some? then [Exited(old(pendingReply).value)] else []
    {
      if pendingReply.Some? {
        answers := answers + [Exited(pendingReply.value)];
        pendingReply := None;
      }
      events := events + [Close];
      assert events[..|events| - 1] == old(events);
    }
  }

  /** Delivering lines does not look at the buffer. */
  lemma {:induction false} BufferApart(s: State, buffer: string, lines: seq<string>)
    ensures DeliveredAll(s.(buffer := buffer), lines) == DeliveredAll(s, lines).(buffer := buffer)
  {
    if lines != [] { BufferApart(s, buffer, lines[..|lines| - 1]); }
  }

  // ----- the prompt loop -----

  lemma Append(events: seq<Event>, e: Event)
    requires Orderly(events) && !e.Close? && (e.Wait? ==> After(events).pending.None?)
    ensures Orderly(events + [e])
    ensures Complete(Stream(events)) <= Complete(Stream(events + [e]))
  {
    var more := events + [e];
    assert more[..|events|] == events;
    assert forall k :: 0 <= k < |events| ==> more[..k] == events[..k];
    if e.Data? { ChunkMakesNoDifference(Stream(events), e.chunk); }
    else { assert Stream(events) + "" == Stream(events); }
  }

  /** What the prompts have been answered so far. */
  ghost predicate Replied(replies: seq<Option<string>>, lines: seq<string>) {
    |replies| <= |lines| && forall k :: 0 <= k < |replies| ==> replies[k] == Some(lines[k])
  }

  /** All chunks in one text. */
  ghost function Joined(chunks: seq<string>): string {
    if chunks == [] then "" else Joined(chunks[..|chunks| - 1]) + chunks[|chunks| - 1]
  }

  lemma JoinedStep(chunks: seq<string>, n: nat)
    requires n < |chunks|
    ensures Joined(chunks[..n + 1]) == Joined(chunks[..n]) + chunks[n]
  {
    assert chunks[..n + 1][..n] == chunks[..n];
  }

  /** Later chunks add lines and change none. */
  lemma {:induction false} LinesGrow(chunks: seq<string>, n: nat)
    requires n <= |chunks|
    ensures Complete(Joined(chunks[..n])) <= Complete(Joined(chunks))
    decreases |chunks| - n
  {
    if n < |chunks| {
      JoinedStep(chunks, n);
      ChunkMakesNoDifference(Joined(chunks[..n]), chunks[n]);
      LinesGrow(chunks, n + 1);
    } else {
      assert chunks[..n] == chunks;
    }
  }

  /** The first n chunks have been read, in order, with every wait so far answered in turn. */
  ghost predicate UpTo(events: seq<Event>, chunks: seq<string>, n: nat) {
    n <= |chunks| && Orderly(events) && Stream(events) == Joined(chunks[..n])
  }

  lemma StreamAppend(events: seq<Event>, e: Event)
    ensures Stream(events + [e]) == Stream(events) + if e.Data? then e.chunk else ""
    ensures After(events + [e]) == Applied(After(events), e)
  {
    assert (events + [e])[..|events|] == events;
  }

  /** The child's next chunk. */
  lemma Wrote(events: seq<Event>, chunks: seq<string>, n: nat)
    requires UpTo(events, chunks, n) && n < |chunks|
    ensures var more := events + [Data(chunks[n])];
      && UpTo(more, chunks, n + 1) && After(more).waits == After(events).waits
      && (After(events).pending.None? ==> After(more).pending.None?)
  {
    Append(events, Data(chunks[n]));
    StreamAppend(events, Data(chunks[n]));
    JoinedStep(chunks, n);
    WaitsKept(After(events), Complete(After(events).buffer + chunks[n]));
  }

  lemma {:induction false} WaitsKept(s: State, lines: seq<string>)
    ensures DeliveredAll(s, lines).waits == s.waits
    ensures s.pending.None? ==> DeliveredAll(s, lines).pending.None?
  {
    if lines != [] { WaitsKept(s, lines[..|lines| - 1]); }
  }

  /** The next prompt's wait. */
  lemma Asked(events: seq<Event>, chunks: seq<string>, n: nat)
    requires UpTo(events, chunks, n) && After(events).pending.None?
    ensures UpTo(events + [Wait], chunks, n) && After(events + [Wait]).waits == After(events).waits + 1
  {
    Append(events, Wait);
    StreamAppend(events, Wait);
    assert Stream(events) + "" == Stream(events);
  }

  /** What the latest wait has come to, in terms of everything the child ever writes. */
  lemma CameTo(events: seq<Event>, chunks: seq<string>, n: nat, k: nat)
    requires UpTo(events, chunks, n) && After(events).waits == k + 1
    ensures var s, lines := After(events), Complete(Joined(chunks));
      && (s.pending.None? ==> |s.answers| == k + 1 && k < |lines| && s.answers[k] == Line(k, lines[k]))
      && (s.pending.Some? && n == |chunks| ==> |lines| <= k)
  {
    PairedInOrder(events, k);
    AlwaysInTurn(events);
    LinesGrow(chunks, n);
    if n == |chunks| { assert chunks[..n] == chunks; }
  }

  /** The child's next chunk arrives. */
  method Arrive(driver: Driver, chunks: seq<string>, n: nat)
    requires driver.Valid() && UpTo(driver.events, chunks, n) && n < |chunks|
    modifies driver
    ensures driver.Valid() && UpTo(driver.events, chunks, n + 1) && driver.waits == old(driver.waits)
    ensures old(driver.pendingReply).None? ==> driver.pendingReply.None?
  {
    Wrote(driver.events, chunks, n);
    driver.OnData(chunks[n]);
  }

  /** Let the child write until the wait is answered or it has nothing more to say. */
  method ReadUntilAnswered(driver: Driver, chunks: seq<string>, from: nat) returns (next: nat)
    requires driver.Valid() && UpTo(driver.events, chunks, from)
    modifies driver
    ensures driver.Valid() && from <= next && UpTo(driver.events, chunks, next) && driver.waits == old(driver.waits)
    ensures driver.pendingReply.Some? ==> next == |chunks|
  {
    next := from;
    while driver.pendingReply.Some? && next < |chunks|
      invariant driver.Valid() && UpTo(driver.events, chunks, next)
      invariant from <= next && driver.waits == old(driver.waits)
      decreases |chunks| - next
    {
      Arrive(driver, chunks, next);
      next := next + 1;
    }
  }

  /** The wait of the next prompt. */
  method Ask(driver: Driver, chunks: seq<string>, from: nat)
    requires driver.Valid() && UpTo(driver.events, chunks, from) && driver.pendingReply.None?
    modifies driver
    ensures driver.Valid() && UpTo(driver.events, chunks, from) && driver.waits == old(driver.waits) + 1
  {
    Asked(driver.events, chunks, from);
    driver.WaitForNextReplyLine();
  }

  /** One prompt: wait for its reply. */
  method AwaitReply(driver: Driver, chunks: seq<string>, from: nat) returns (reply: Option<string>, next: nat)
    requires driver.Valid() && UpTo(driver.events, chunks, from) && driver.pendingReply.None?
    modifies driver
    ensures driver.Valid() && from <= next && UpTo(driver.events, chunks, next) && driver.waits == old(driver.waits) + 1
    ensures var k, lines := old(driver.waits), Complete(Joined(chunks));
      if reply.Some? then driver.pendingReply.None? && k < |lines| && reply == Some(lines[k])
      else |lines| <= k
  {
    Ask(driver, chunks, from);
    next := ReadUntilAnswered(driver, chunks, from);
    CameTo(driver.events, chunks, next, driver.waits - 1);
    if driver.pendingReply.Some? { return None, next; }
    reply := Some(driver.answers[driver.waits - 1].text);
  }

  /** Chunks that arrive between a reply and the next prompt. */
  method Drain(driver: Driver, chunks: seq<string>, from: nat, count: nat) returns (next: nat)
    requires driver.Valid() && UpTo(driver.events, chunks, from) && driver.pendingReply.None?
    modifies driver
    ensures driver.Valid() && from <= next && UpTo(driver.events, chunks, next)
    ensures driver.pendingReply.None? && driver.waits == old(driver.waits)
  {
    next := from;
    while next < |chunks| && next < from + count
      invariant driver.Valid() && UpTo(driver.events, chunks, next)
      invariant from <= next && driver.pendingReply.None? && driver.waits == old(driver.waits)
      decreases |chunks| - next
    {
      Arrive(driver, chunks, next);
      next := next + 1;
    }
  }

  /** What becomes of a prompt's write to the child's standard input. */
  datatype Write = Sent | NotWritable | Throws

  datatype StopReason = LoopComplete | StdinNotWritable | WriteThrew | ChildExited

  /** Why the loop stopped: every prompt answered, the last one sent not, or the next write failed. */
  ghost predicate StopsFor(stop: StopReason, replies: seq<Option<string>>, writes: nat -> Write, prompts: nat) {
    var n := |replies|;
    match stop
    case ChildExited => n > 0 && replies[n - 1].None?
    case LoopComplete => n == prompts && Answered(replies, n)
    case StdinNotWritable => n < prompts && Answered(replies, n) && writes(n).NotWritable?
    case WriteThrew => n < prompts && Answered(replies, n) && writes(n).Throws?
  }

  ghost predicate SentFirst(writes: nat -> Write, n: nat) {
    forall k :: 0 <= k < n ==> writes(k).Sent?
  }

  lemma SentOneMore(writes: nat -> Write, n: nat)
    requires SentFirst(writes, n) && writes(n).Sent?
    ensures SentFirst(writes, n + 1)
  {
  }

  /** The k-th reply is the k-th line, and nothing where there is none. */
  ghost predicate LineByLine(replies: seq<Option<string>>, lines: seq<string>) {
    forall k :: 0 <= k < |replies| ==> replies[k] == if k < |lines| then Some(lines[k]) else None
  }

  lemma OneMoreReply(replies: seq<Option<string>>, lines: seq<string>, reply: Option<string>)
    requires Replied(replies, lines)
    requires if reply.Some? then |replies| < |lines| && reply == Some(lines[|replies|]) else |lines| <= |replies|
    ensures LineByLine(replies, lines) && LineByLine(replies + [reply], lines) && Answered(replies, |replies|)
    ensures reply.Some? ==> Replied(replies + [reply], lines)
  {
  }

  ghost predicate Answered(replies: seq<Option<string>>, n: nat)
    requires n <= |replies|
  {
    forall k :: 0 <= k < n ==> replies[k].Some?
  }

  /**
   * The loop that sends the prompts, whatever the chunks and whenever they arrive: the k-th reply is the
   * k-th line of all the child ever writes, the first sent prompt without one ends the loop with `null`, and
   * a write that fails ends it with nothing pushed for its prompt.
   */
  method DrivePrompts(prompts: nat, writes: nat -> Write, chunks: seq<string>, drains: nat -> nat)
    returns (replies: seq<Option<string>>, promptsSent: nat, stop: StopReason)
    ensures promptsSent == |replies| <= prompts && SentFirst(writes, |replies|)
    ensures LineByLine(replies, Complete(Joined(chunks)))
    ensures |replies| > 0 ==> Answered(replies, |replies| - 1)
    ensures StopsFor(stop, replies, writes, prompts)
  {
    var driver := new Driver();
    ghost var lines := Complete(Joined(chunks));
    var next := 0;
    replies, promptsSent := [], 0;
    assert chunks[..0] == [];
    for i := 0 to prompts
      invariant fresh(driver) && driver.Valid() && UpTo(driver.events, chunks, next) && driver.pendingReply.None?
      invariant driver.waits == |replies| == promptsSent == i && Replied(replies, lines)
      invariant SentFirst(writes, i)
    {
      if writes(i).NotWritable? { return replies, promptsSent, StdinNotWritable; }
      if writes(i).Throws? { return replies, promptsSent, WriteThrew; }
      SentOneMore(writes, i);
      promptsSent := promptsSent + 1;
      var reply;
      reply, next := AwaitReply(driver, chunks, next);
      OneMoreReply(replies, lines, reply);
      replies := replies + [reply];
      if reply.None? {
        driver.OnClose();
        return replies, promptsSent, ChildExited;
      }
      next := Drain(driver, chunks, next, drains(i));
    }
    stop := LoopComplete;
  }
}
