/** Messages sent while a turn runs: src/runtime/steering-inbox.ts, and the turn's use of it in agent-loop.ts. */
module Steering {

  type Session = string

  const MAX_PENDING_STEERS := 16

  // ----- `String.prototype.trim` -----

  /** The white space and line terminators of ECMAScript. */
  predicate IsSpace(c: char) {
    var u := c as int;
    || 0x9 <= u <= 0xD || u == 0x20 || u == 0xA0 || u == 0x1680 || 0x2000 <= u <= 0x200A
    || u == 0x2028 || u == 0x2029 || u == 0x202F || u == 0x205F || u == 0x3000 || u == 0xFEFF
  }

  predicate Blank(text: string) { forall i :: 0 <= i < |text| ==> IsSpace(text[i]) }

  function TrimStart(text: string): string {
    if text != [] && IsSpace(text[0]) then TrimStart(text[1..]) else text
  }

  function TrimEnd(text: string): string {
    if text != [] && IsSpace(text[|text| - 1]) then TrimEnd(text[..|text| - 1]) else text
  }

  function Trim(text: string): string { TrimEnd(TrimStart(text)) }

  /** Only white space is cut off, at either end, and none is left there. */
  lemma TrimCuts(text: string) returns (lead: string, trail: string)
    ensures text == lead + Trim(text) + trail && Blank(lead) && Blank(trail)
    ensures Trim(text) != [] ==> !IsSpace(Trim(text)[0]) && !IsSpace(Trim(text)[|Trim(text)| - 1])
    ensures Trim(text) == [] <==> Blank(text)
  {
    lead := TrimStartCuts(text);
    trail := TrimEndCuts(TrimStart(text));
    if Trim(text) == [] {
      assert text == lead + trail;
    } else {
      assert text[|lead|] == TrimStart(text)[0] == Trim(text)[0];
    }
  }

  lemma {:induction false} TrimStartCuts(text: string) returns (lead: string)
    ensures text == lead + TrimStart(text) && Blank(lead)
    ensures TrimStart(text) != [] ==> !IsSpace(TrimStart(text)[0])
  {
    if text != [] && IsSpace(text[0]) {
      var rest := TrimStartCuts(text[1..]);
      lead := [text[0]] + rest;
      assert text == [text[0]] + text[1..];
    } else {
      lead := [];
    }
  }

  lemma {:induction false} TrimEndCuts(text: string) returns (trail: string)
    ensures text == TrimEnd(text) + trail && Blank(trail)
    ensures TrimEnd(text) != [] ==> !IsSpace(TrimEnd(text)[|TrimEnd(text)| - 1])
  {
    if text != [] && IsSpace(text[|text| - 1]) {
      var rest := TrimEndCuts(text[..|text| - 1]);
      trail := rest + [text[|text| - 1]];
      assert text == text[..|text| - 1] + [text[|text| - 1]];
    } else {
      trail := [];
    }
  }

  // ----- the inbox as a value -----

  datatype Box = Box(accepting: set<Session>, bySession: map<Session, seq<string>>)

  datatype Op =
    | Open(session: Session)
    | Push(session: Session, text: string)
    | Drain(session: Session)
    | CloseAndDrain(session: Session)

  function Pending(b: Box, s: Session): seq<string> {
    if s in b.bySession then b.bySession[s] else []
  }

  /** A slot holds between one and sixteen messages, none of them empty, and only while its turn is open. */
  ghost predicate Sound(b: Box) {
    forall s :: s in b.bySession ==>
      s in b.accepting && 1 <= |b.bySession[s]| <= MAX_PENDING_STEERS && forall t :: t in b.bySession[s] ==> t != []
  }

  predicate Accepts(b: Box, s: Session, text: string) {
    s in b.accepting && Trim(text) != [] && |Pending(b, s)| < MAX_PENDING_STEERS
  }

  function Emptied(b: Box, s: Session): Box { b.(bySession := b.bySession - {s}) }

  function Applied(b: Box, op: Op): Box {
    match op
    case Open(s) => b.(accepting := b.accepting + {s})
    case Push(s, text) =>
      if Accepts(b, s, text) then b.(bySession := b.bySession[s := Pending(b, s) + [Trim(text)]]) else b
    case Drain(s) => Emptied(b, s)
    case CloseAndDrain(s) => Emptied(b, s).(accepting := b.accepting - {s})
  }

  /** What one operation accepts for session s, and what it hands out of the inbox. */
  function Taken(b: Box, op: Op, s: Session): seq<string> {
    if op.Push? && op.session == s && Accepts(b, s, op.text) then [Trim(op.text)] else []
  }

  function Handed(b: Box, op: Op, s: Session): seq<string> {
    if (op.Drain? || op.CloseAndDrain?) && op.session == s then Pending(b, s) else []
  }

  // ----- runs: any interleaving of any sessions -----

  function After(b: Box, ops: seq<Op>): Box {
    if ops == [] then b else Applied(After(b, ops[..|ops| - 1]), ops[|ops| - 1])
  }

  /** Every message accepted for s, in order. */
  function Accepted(b: Box, ops: seq<Op>, s: Session): seq<string> {
    if ops == [] then []
    else Accepted(b, ops[..|ops| - 1], s) + Taken(After(b, ops[..|ops| - 1]), ops[|ops| - 1], s)
  }

  /** Every message handed out for s, in order. */
  function Delivered(b: Box, ops: seq<Op>, s: Session): seq<string> {
    if ops == [] then []
    else Delivered(b, ops[..|ops| - 1], s) + Handed(After(b, ops[..|ops| - 1]), ops[|ops| - 1], s)
  }

  lemma {:induction false} SoundAfter(b: Box, ops: seq<Op>)
    requires Sound(b)
    ensures Sound(After(b, ops))
  {
    if ops != [] {
      SoundAfter(b, ops[..|ops| - 1]);
      SoundApplied(After(b, ops[..|ops| - 1]), ops[|ops| - 1]);
    }
  }

  lemma SoundApplied(b: Box, op: Op)
    requires Sound(b)
    ensures Sound(Applied(b, op))
  {
  }

  /** No message is lost, repeated or reordered, whatever the interleaving. */
  lemma {:induction false} Conserved(b: Box, ops: seq<Op>, s: Session)
    ensures Pending(b, s) + Accepted(b, ops, s) == Delivered(b, ops, s) + Pending(After(b, ops), s)
  {
    if ops == [] {
      assert Pending(b, s) + [] == [] + Pending(b, s);
    } else {
      var front, last := ops[..|ops| - 1], ops[|ops| - 1];
      var mid := After(b, front);
      Conserved(b, front, s);
      OneConserves(mid, last, s);
      Chain(Pending(b, s), Accepted(b, front, s), Delivered(b, front, s), Pending(mid, s),
            Taken(mid, last, s), Handed(mid, last, s), Pending(Applied(mid, last), s));
    }
  }

  lemma OneConserves(b: Box, op: Op, s: Session)
    ensures Pending(b, s) + Taken(b, op, s) == Handed(b, op, s) + Pending(Applied(b, op), s)
  {
  }

  lemma Chain(p: seq<string>, a: seq<string>, d: seq<string>, q: seq<string>, t: seq<string>, h: seq<string>,
              r: seq<string>)
    requires p + a == d + q && q + t == h + r
    ensures p + (a + t) == (d + h) + r
  {
    assert p + (a + t) == (p + a) + t == d + (q + t);
  }

  /** One turn's own use of the inbox between its opening and its close, among anything else. */
  ghost predicate MidTurn(ops: seq<Op>, s: Session) {
    forall k :: 0 <= k < |ops| && ops[k].session == s ==> ops[k].Push? || ops[k].Drain?
  }

  lemma {:induction false} StaysOpen(b: Box, ops: seq<Op>, s: Session)
    requires MidTurn(ops, s)
    ensures s in After(b, ops).accepting <==> s in b.accepting
  {
    if ops != [] { StaysOpen(b, ops[..|ops| - 1], s); }
  }

  /**
   * A turn that opens a closed session and ends by closing it: what was accepted meanwhile is what the
   * step and compaction drains recorded, followed by what the close returns as undelivered.
   */
  lemma TurnConserves(b: Box, ops: seq<Op>, s: Session)
    requires Sound(b) && s !in b.accepting && MidTurn(ops, s)
    ensures var open := Applied(b, Open(s));
      && Accepted(open, ops, s) == Delivered(open, ops, s) + Handed(After(open, ops), CloseAndDrain(s), s)
      && s in After(open, ops).accepting
      && s !in Applied(After(open, ops), CloseAndDrain(s)).accepting
  {
    var open := Applied(b, Open(s));
    Conserved(open, ops, s);
    StaysOpen(open, ops, s);
    assert Pending(open, s) == [];
    assert Pending(open, s) + Accepted(open, ops, s) == Accepted(open, ops, s);
  }

  /** Once closed, nothing is accepted for a session or handed out for it until it is opened again. */
  lemma {:induction false} NothingAfterClose(b: Box, ops: seq<Op>, s: Session)
    requires Sound(b) && s !in b.accepting
    requires forall k :: 0 <= k < |ops| ==> ops[k] != Open(s)
    ensures Accepted(b, ops, s) == [] && Delivered(b, ops, s) == []
    ensures s !in After(b, ops).accepting
  {
    if ops != [] {
      var front := ops[..|ops| - 1];
      NothingAfterClose(b, front, s);
      SoundAfter(b, front);
    }
  }

  function Only(ops: seq<Op>, s: Session): seq<Op> {
    if ops == [] then []
    else Only(ops[..|ops| - 1], s) + if ops[|ops| - 1].session == s then [ops[|ops| - 1]] else []
  }

  /** Sessions are isolated: what happens to one is decided by its own operations alone. */
  lemma {:induction false} Isolated(b: Box, ops: seq<Op>, s: Session)
    ensures var own := Only(ops, s);
      && Accepted(b, ops, s) == Accepted(b, own, s)
      && Delivered(b, ops, s) == Delivered(b, own, s)
      && Pending(After(b, ops), s) == Pending(After(b, own), s)
      && (s in After(b, ops).accepting <==> s in After(b, own).accepting)
  {
    if ops != [] {
      var front, last := ops[..|ops| - 1], ops[|ops| - 1];
      Isolated(b, front, s);
      var own := Only(front, s);
      if last.session == s {
        assert Only(ops, s) == own + [last] && (own + [last])[..|own|] == own;
        SameView(After(b, front), After(b, own), last, s);
      } else {
        Foreign(After(b, front), last, s);
        assert Only(ops, s) == own;
      }
    }
  }

  lemma SameView(b: Box, c: Box, op: Op, s: Session)
    requires op.session == s && Pending(b, s) == Pending(c, s) && (s in b.accepting <==> s in c.accepting)
    ensures Taken(b, op, s) == Taken(c, op, s) && Handed(b, op, s) == Handed(c, op, s)
    ensures Pending(Applied(b, op), s) == Pending(Applied(c, op), s)
    ensures s in Applied(b, op).accepting <==> s in Applied(c, op).accepting
  {
  }

  lemma Foreign(b: Box, op: Op, s: Session)
    requires op.session != s
    ensures Taken(b, op, s) == [] && Handed(b, op, s) == [] && Pending(Applied(b, op), s) == Pending(b, s)
    ensures s in Applied(b, op).accepting <==> s in b.accepting
  {
  }

  /** Whether the session was last opened or last closed. */
  ghost predicate IsOpen(ops: seq<Op>, s: Session) {
    ops != [] &&
    var last := ops[|ops| - 1];
    if last == Open(s) then true else if last == CloseAndDrain(s) then false else IsOpen(ops[..|ops| - 1], s)
  }

  lemma {:induction false} OpenExactly(ops: seq<Op>, s: Session)
    ensures s in After(Box({}, map[]), ops).accepting <==> IsOpen(ops, s)
  {
    if ops != [] { OpenExactly(ops[..|ops| - 1], s); }
  }

  /**
   * In any interleaving from the start, a message is accepted exactly if the session was last opened, the message is
   * not blank, and fewer than sixteen of those accepted before are still to be handed out; it is accepted trimmed.
   */
  lemma AcceptedExactly(ops: seq<Op>, s: Session, text: string)
    ensures var empty := Box({}, map[]); var before := |Accepted(empty, ops, s)|;
      Accepted(empty, ops + [Push(s, text)], s) == Accepted(empty, ops, s) +
        if IsOpen(ops, s) && !Blank(text) && before - |Delivered(empty, ops, s)| < 16 then [Trim(text)] else []
  {
    var empty, trimmed := Box({}, map[]), Trim(text);
    OpenExactly(ops, s);
    Conserved(empty, ops, s);
    assert Pending(empty, s) + Accepted(empty, ops, s) == Accepted(empty, ops, s);
    var lead, trail := TrimCuts(text);
    assert (ops + [Push(s, text)])[..|ops|] == ops;
  }

  // ----- the inbox as an object -----

  class SteeringInbox {
    var bySession: map<Session, seq<string>>
    var accepting: set<Session>

    ghost function Contents(): Box
      reads this
    {
      Box(accepting, bySession)
    }

    constructor ()
      ensures Contents() == Box({}, map[]) && Sound(Contents())
    {
      bySession, accepting := map[], {};
    }

    method Open(session: Session)
      modifies this
      ensures Contents() == Applied(old(Contents()), Op.Open(session))
    {
      accepting := accepting + {session};
    }

    /** True exactly when the message was taken in, trimmed. */
    method Push(session: Session, text: string) returns (ok: bool)
      modifies this
      ensures Contents() == Applied(old(Contents()), Op.Push(session, text))
      ensures ok <==> session in old(accepting) && !Blank(text) && |old(Pending(Contents(), session))| < 16
      ensures Taken(old(Contents()), Op.Push(session, text), session) == if ok then [Trim(text)] else []
    {
      ghost var lead, trail := TrimCuts(text);
      if session !in accepting { return false; }
      var trimmed := Trim(text);
      if |trimmed| == 0 { return false; }
      if session !in bySession {
        bySession := bySession[session := [trimmed]];
        assert [] + [trimmed] == [trimmed];
        return true;
      }
      if |bySession[session]| >= MAX_PENDING_STEERS { return false; }
      bySession := bySession[session := bySession[session] + [trimmed]];
      ok := true;
    }

    method Drain(session: Session) returns (pending: seq<string>)
      requires Sound(Contents())
      modifies this`bySession
      ensures Contents() == Applied(old(Contents()), Op.Drain(session)) && Sound(Contents())
      ensures pending == Handed(old(Contents()), Op.Drain(session), session)
    {
      if session !in bySession || |bySession[session]| == 0 {
        assert bySession - {session} == bySession;
        return [];
      }
      pending := bySession[session];
      bySession := bySession - {session};
    }

    /** The turn's last act: close the window and take what is left, with nothing in between. */
    method CloseAndDrain(session: Session) returns (pending: seq<string>)
      requires Sound(Contents())
      modifies this
      ensures Contents() == Applied(old(Contents()), Op.CloseAndDrain(session)) && Sound(Contents())
      ensures pending == Handed(old(Contents()), Op.CloseAndDrain(session), session)
    {
      pending := Drain(session);
      accepting := accepting - {session};
    }
  }

  // ----- a whole turn -----

  /** What happens while a turn runs: a user sends something, to any session, or the turn drains its own inbox. */
  datatype Moment = UserSends(to: Session, text: string) | StepDrains

  function OpOf(m: Moment, s: Session): Op {
    match m
    case UserSends(to, text) => Push(to, text)
    case StepDrains => Op.Drain(s)
  }

  function OpsOf(moments: seq<Moment>, s: Session): (ops: seq<Op>)
    ensures |ops| == |moments| && forall k :: 0 <= k < |ops| ==> ops[k] == OpOf(moments[k], s)
  {
    seq(|moments|, (k: nat) requires k < |moments| => OpOf(moments[k], s))
  }

  lemma OneMore(b: Box, ops: seq<Op>, k: nat, s: Session)
    requires k < |ops|
    ensures After(b, ops[..k + 1]) == Applied(After(b, ops[..k]), ops[k])
    ensures Delivered(b, ops[..k + 1], s) == Delivered(b, ops[..k], s) + Handed(After(b, ops[..k]), ops[k], s)
  {
    assert ops[..k + 1][..k] == ops[..k];
  }

  /** One moment of the turn; what it drained, if it did. */
  method Happens(inbox: SteeringInbox, session: Session, m: Moment) returns (drained: seq<string>)
    requires Sound(inbox.Contents())
    modifies inbox
    ensures inbox.Contents() == Applied(old(inbox.Contents()), OpOf(m, session))
    ensures drained == Handed(old(inbox.Contents()), OpOf(m, session), session)
  {
    match m
    case UserSends(to, text) =>
      var ok := inbox.Push(to, text);
      drained := [];
    case StepDrains => drained := inbox.Drain(session);
  }

  /** The open part of the turn: everything drained is recorded as a steered user turn. */
  method StepLoop(inbox: SteeringInbox, session: Session, moments: seq<Moment>) returns (steered: seq<string>)
    requires Sound(inbox.Contents())
    modifies inbox
    ensures inbox.Contents() == After(old(inbox.Contents()), OpsOf(moments, session)) && Sound(inbox.Contents())
    ensures steered == Delivered(old(inbox.Contents()), OpsOf(moments, session), session)
  {
    ghost var open, ops := inbox.Contents(), OpsOf(moments, session);
    steered := [];
    for k := 0 to |moments|
      invariant inbox.Contents() == After(open, ops[..k]) && Sound(inbox.Contents())
      invariant steered == Delivered(open, ops[..k], session)
    {
      OneMore(open, ops, k, session);
      SoundApplied(inbox.Contents(), ops[k]);
      var drained := Happens(inbox, session, moments[k]);
      steered := steered + drained;
    }
    assert ops[..|moments|] == ops;
  }

  /** The way out: the loop's own close, skipped by a throw, and then the wrapper's. */
  method WayOut(inbox: SteeringInbox, session: Session, throws: bool)
    returns (undelivered: seq<string>, stranded: seq<string>)
    requires Sound(inbox.Contents())
    modifies inbox
    ensures undelivered + stranded == old(Pending(inbox.Contents(), session))
    ensures if throws then undelivered == [] else stranded == []
    ensures inbox.Contents() == Applied(old(inbox.Contents()), CloseAndDrain(session)) && Sound(inbox.Contents())
  {
    if throws {
      undelivered := [];
      stranded := inbox.CloseAndDrain(session);
      assert [] + stranded == stranded;
    } else {
      undelivered := inbox.CloseAndDrain(session);
      stranded := inbox.CloseAndDrain(session);
      assert stranded == [] && undelivered + [] == undelivered;
    }
  }

  /**
   * `runTurn` as the inbox sees it: open, drain at each step boundary and after each compaction, and
   * close on the way out. Everything accepted meanwhile was steered, handed back or logged as stranded.
   */
  method RunTurn(inbox: SteeringInbox, session: Session, moments: seq<Moment>, throws: bool)
    returns (steered: seq<string>, undelivered: seq<string>, stranded: seq<string>)
    requires Sound(inbox.Contents()) && session !in inbox.accepting
    modifies inbox
    ensures steered + (undelivered + stranded) ==
      Accepted(Applied(old(inbox.Contents()), Open(session)), OpsOf(moments, session), session)
    ensures if throws then undelivered == [] else stranded == []
    ensures Sound(inbox.Contents()) && session !in inbox.accepting
  {
    TurnConserves(inbox.Contents(), OpsOf(moments, session), session);
    SoundApplied(inbox.Contents(), Open(session));
    inbox.Open(session);
    steered := StepLoop(inbox, session, moments);
    undelivered, stranded := WayOut(inbox, session, throws);
  }
}
