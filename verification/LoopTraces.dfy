/** What the tracker's window and veto counter remember of the past: src/agent/loop-detector.ts:634-693, 782-812. */
module LoopTraces {
  import opened Wrappers
  import opened LoopLimits
  import opened LoopHistory
  import opened LoopRuns

  // ----- the window is the end of the past -----

  /** What each event left, were there no bound. */
  ghost function AllLeft(events: seq<Event>): (all: seq<Entry>)
    ensures |all| == |events| && forall i :: 0 <= i < |all| ==> all[i] == Left(events[i])
  {
    seq(|events|, i requires 0 <= i < |events| => Left(events[i]))
  }

  lemma TrimTwice(all: seq<Entry>, e: Entry, size: nat)
    ensures Trim(Trim(all, size) + [e], size) == Trim(all + [e], size)
  {
  }

  /** The window holds what the latest events left, as many as it has room for. */
  lemma {:induction false} WindowIsTail(events: seq<Event>, size: nat)
    ensures Window(events, size) == Trim(AllLeft(events), size)
  {
    if events != [] {
      var before, last := events[..|events| - 1], events[|events| - 1];
      WindowIsTail(before, size);
      TrimTwice(AllLeft(before), Left(last), size);
      assert AllLeft(events) == AllLeft(before) + [Left(last)];
    }
  }

  lemma TrimUpdate(all: seq<Entry>, i: nat, e: Entry, size: nat)
    requires i < |Trim(all, size)|
    ensures Trim(all[|all| - |Trim(all, size)| + i := e], size) == Trim(all, size)[i := e]
  {
  }

  /** An event that left a pending entry, once its outcome is in. */
  function Answer(e: Event, patch: Patch): Event
    requires e.Abandoned?
  {
    match patch
    case Finished(result) => Ran(e.call, e.epoch, e.round, result)
    case Vetoed => Refused(e.call, e.epoch, e.round)
  }

  lemma AnswerLeft(e: Event, patch: Patch)
    requires e.Abandoned?
    ensures Left(Answer(e, patch)) == Patched(Left(e), patch)
  {
  }

  lemma EntryOfEvent(events: seq<Event>, window: seq<Entry>, i: nat, size: nat)
    requires window == Window(events, size) && i < |window|
    ensures |window| <= |events| && window[i] == Left(events[|events| - |window| + i])
  {
    assert window == Trim(AllLeft(events), size) by { WindowIsTail(events, size); }
  }

  /** Where in the past the latest pending entry of the call was recorded, if the window still holds it. */
  ghost function AnsweredAt(events: seq<Event>, call: Call, size: nat): (k: int)
    ensures k == -1 || (0 <= k < |events| && events[k].Abandoned?)
    ensures k == -1 <==> PendingIndex(Window(events, size), call) == -1
    ensures k >= 0 ==> k == |events| - |Window(events, size)| + PendingIndex(Window(events, size), call)
  {
    var window := Window(events, size);
    var i := PendingIndex(window, call);
    if i == -1 then -1
    else
      EntryOfEvent(events, window, i, size);
      |events| - |window| + i
  }

  /** The past once an outcome of the call has landed. */
  ghost function Answered(events: seq<Event>, call: Call, epoch: Option<nat>, round: Option<nat>, patch: Patch,
                          size: nat)
    : seq<Event>
  {
    var k := AnsweredAt(events, call, size);
    if k >= 0 then events[k := Answer(events[k], patch)]
    else events + [Answer(Abandoned(call, epoch, round), patch)]
  }

  lemma ChangedLeft(events: seq<Event>, k: nat, e: Event)
    requires k < |events|
    ensures AllLeft(events[k := e]) == AllLeft(events)[k := Left(e)]
  {
  }

  /** Changing an event the window still holds changes its entry and nothing else. */
  lemma ChangedWindow(events: seq<Event>, window: seq<Entry>, i: nat, k: nat, e: Event, size: nat)
    requires window == Window(events, size) && i < |window| && |window| <= |events| && k == |events| - |window| + i
    ensures Window(events[k := e], size) == window[i := Left(e)]
  {
    var all := AllLeft(events);
    assert window == Trim(all, size) by { WindowIsTail(events, size); }
    assert Window(events[k := e], size) == Trim(all[k := Left(e)], size) by {
      WindowIsTail(events[k := e], size);
      ChangedLeft(events, k, e);
    }
    TrimUpdate(all, i, Left(e), size);
  }

  lemma OneMoreWindow(events: seq<Event>, e: Event, size: nat)
    ensures Window(events + [e], size) == AfterEvent(Window(events, size), e, size)
  {
    assert (events + [e])[..|events|] == events;
  }

  lemma AnsweredWindow(events: seq<Event>, call: Call, epoch: Option<nat>, round: Option<nat>, patch: Patch, size: nat)
    ensures Window(Answered(events, call, epoch, round, patch, size), size) ==
      AfterOutcome(Window(events, size), call, epoch, round, patch, size)
  {
    var k := AnsweredAt(events, call, size);
    if k >= 0 {
      var window := Window(events, size);
      var i := PendingIndex(window, call);
      EntryOfEvent(events, window, i, size);
      AnswerLeft(events[k], patch);
      ChangedWindow(events, window, i, k, Answer(events[k], patch), size);
    } else {
      AnswerLeft(Abandoned(call, epoch, round), patch);
      OneMoreWindow(events, Answer(Abandoned(call, epoch, round), patch), size);
    }
  }

  /** A call recorded and then answered is one event. */
  lemma OneEvent(events: seq<Event>, call: Call, epoch: Option<nat>, round: Option<nat>, late: Option<nat>,
                 patch: Patch, size: nat)
    requires size >= 1
    ensures Answered(events + [Abandoned(call, epoch, round)], call, late, round, patch, size) ==
      events + [Answer(Abandoned(call, epoch, round), patch)]
  {
    var open := events + [Abandoned(call, epoch, round)];
    WindowIsTail(open, size);
    var window := Window(open, size);
    assert Pending(window[|window| - 1], call);
    assert PendingIndex(window, call) == |window| - 1;
  }

  lemma GatedMore(events: seq<Event>, e: Event, l: Limits)
    requires Gated(events, l)
    requires e.Ran? ==>
      e.call.tool != BATCH_LOOP_LABEL && Streak(Window(events, l.historySize), Key(e.call, e.epoch)) < l.critical
    ensures Gated(events + [e], l)
  {
    var more := events + [e];
    forall i | 0 <= i < |more| && more[i].Ran?
      ensures more[i].call.tool != BATCH_LOOP_LABEL
           && Streak(Window(more[..i], l.historySize), Key(more[i].call, more[i].epoch)) < l.critical
    {
      assert more[..i] == events[..i];
      assert events[..|events|] == events;
    }
  }

  // ----- the gate's two answers -----

  /** A call that may go on is left pending; a refused one is recorded and vetoed at once. */
  function AfterGate(g: Gate, call: Call, epoch: Option<nat>, round: Option<nat>, proceed: bool, size: nat): Gate {
    if proceed then g.(history := AfterCall(g.history, call, epoch, round, size))
    else NoteVeto(g.(history := AfterEvent(g.history, Refused(call, epoch, round), size)), call)
  }

  /** What it adds to the past. */
  function GateEvent(call: Call, epoch: Option<nat>, round: Option<nat>, proceed: bool): Event {
    if proceed then Abandoned(call, epoch, round) else Refused(call, epoch, round)
  }

  // ----- the veto counter is the past's -----

  /** An outcome that landed: a veto of the call, or its result. */
  datatype Landing = Landing(call: Call, veto: bool)

  /** Vetoes of the call since an outcome of another call last landed. */
  function VetoRun(trace: seq<Landing>, call: Call): nat {
    if trace == [] || trace[|trace| - 1].call != call then 0
    else VetoRun(trace[..|trace| - 1], call) + if trace[|trace| - 1].veto then 1 else 0
  }

  /** The counter stands for the past of every call at once. */
  ghost predicate Counts(vetoed: Option<Call>, vetoes: nat, trace: seq<Landing>) {
    forall call :: VetoRun(trace, call) == if vetoed == Some(call) then vetoes else 0
  }

  lemma LandedMore(trace: seq<Landing>, x: Landing, call: Call)
    ensures VetoRun(trace + [x], call) == if x.call != call then 0 else VetoRun(trace, call) + if x.veto then 1 else 0
  {
    assert (trace + [x])[..|trace|] == trace;
  }

  lemma VetoCounts(g: Gate, trace: seq<Landing>, call: Call)
    requires Counts(g.vetoed, g.vetoes, trace)
    ensures var after := NoteVeto(g, call); Counts(after.vetoed, after.vetoes, trace + [Landing(call, true)])
  {
    var after := NoteVeto(g, call);
    forall c ensures VetoRun(trace + [Landing(call, true)], c) == if after.vetoed == Some(c) then after.vetoes else 0 {
      LandedMore(trace, Landing(call, true), c);
    }
  }

  lemma RunCounts(g: Gate, trace: seq<Landing>, call: Call)
    requires Counts(g.vetoed, g.vetoes, trace)
    ensures var after := NoteRun(g, call); Counts(after.vetoed, after.vetoes, trace + [Landing(call, false)])
  {
    var after := NoteRun(g, call);
    forall c ensures VetoRun(trace + [Landing(call, false)], c) == if after.vetoed == Some(c) then after.vetoes else 0 {
      LandedMore(trace, Landing(call, false), c);
    }
  }

  /** `VetoRun` counts the vetoes in the part of the past that is all the call's own. */
  lemma {:induction false} VetoRunIsOfTheEnd(before: seq<Landing>, own: seq<Landing>, call: Call)
    requires before == [] || before[|before| - 1].call != call
    requires forall i :: 0 <= i < |own| ==> own[i].call == call
    ensures VetoRun(before + own, call) == multiset(own)[Landing(call, true)]
  {
    if own == [] {
      assert before + own == before;
    } else {
      var front, last := own[..|own| - 1], own[|own| - 1];
      VetoRunIsOfTheEnd(before, front, call);
      LandedMore(before + front, last, call);
      assert before + own == before + front + [last] && own == front + [last];
    }
  }
}
