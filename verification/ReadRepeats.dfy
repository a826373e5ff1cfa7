/** The bounded read-coverage table against an unbounded memory: src/agent/loop-detector.ts:122-136, 574-632. */
module ReadRepeats {
  import opened Wrappers
  import opened DistinctLists
  import opened OrderedMaps
  import opened Recency

  const MAX_TRACKED_READ_FILES := 200

  /** What a read looked at: the bytes and how they were rendered. */
  datatype Version = Version(contentHash: string, numbered: bool)

  /** One successful read; no lines at all is the empty set. */
  datatype Observation = Observation(path: string, version: Version, lines: set<int>)

  /** What is known of one file: the lines seen of its current version and the no-progress reads in a row. */
  datatype Coverage = Coverage(version: Version, lines: set<int>, noProgress: nat)

  type Table = m: OrderedMap<string, Coverage> | m.Valid() witness OrderedMap([], map[])

  const EMPTY_TABLE: Table := OrderedMap([], map[])

  datatype Verdict = NewText | Repeat(count: nat)

  function Verdicted(prev: Option<Coverage>, o: Observation): Verdict {
    match prev
    case None => NewText
    case Some(c) => if c.version == o.version && o.lines <= c.lines then Repeat(c.noProgress + 1) else NewText
  }

  function Folded(prev: Option<Coverage>, o: Observation): Coverage {
    if prev.Some? && prev.value.version == o.version then
      Coverage(o.version, prev.value.lines + o.lines,
               if o.lines <= prev.value.lines then prev.value.noProgress + 1 else 0)
    else Coverage(o.version, o.lines, 0)
  }

  /** `recordRead`. */
  function Recorded(t: Table, o: Observation): Table {
    t.Reinsert(o.path, Folded(t.Get(o.path), o)).Evict(MAX_TRACKED_READ_FILES)
  }

  /** `noteMutationAttempt`: an attempt on a path forgets its no-progress count and keeps its lines. */
  function Forgotten(t: Table, touched: set<string>): Table {
    OrderedMap(t.keys, map p | p in t.vals :: if p in touched then t.vals[p].(noProgress := 0) else t.vals[p])
  }

  datatype Event = Read(seen: Observation) | Attempted(touched: set<string>)

  function TableAfter(t: Table, e: Event): Table {
    match e
    case Read(o) => Recorded(t, o)
    case Attempted(touched) => Forgotten(t, touched)
  }

  function AfterEvents(trace: seq<Event>): Table {
    if trace == [] then EMPTY_TABLE
    else TableAfter(AfterEvents(trace[..|trace| - 1]), trace[|trace| - 1])
  }

  lemma EventsStep(trace: seq<Event>, e: Event)
    ensures AfterEvents(trace + [e]) == TableAfter(AfterEvents(trace), e)
  {
    assert (trace + [e])[..|trace|] == trace;
  }

  /** The memory of one path with no bound and no forgetting. */
  ghost function Unbounded(trace: seq<Event>, path: string): Option<Coverage> {
    if trace == [] then None
    else
      var before := Unbounded(trace[..|trace| - 1], path);
      match trace[|trace| - 1]
      case Read(o) => if o.path == path then Some(Folded(before, o)) else before
      case Attempted(_) => before
  }

  /** What the table knows of a path is no more than the unbounded memory knows. */
  ghost predicate Below(known: Option<Coverage>, memory: Option<Coverage>) {
    known.Some? ==>
      && memory.Some?
      && known.value.version == memory.value.version
      && known.value.lines <= memory.value.lines
      && known.value.noProgress <= memory.value.noProgress
  }

  lemma FoldBelow(known: Option<Coverage>, memory: Option<Coverage>, o: Observation)
    requires Below(known, memory)
    ensures Below(Some(Folded(known, o)), Some(Folded(memory, o)))
  {
  }

  /** Eviction and mutation resets only lose knowledge. */
  lemma {:induction false} Simulates(trace: seq<Event>, path: string)
    ensures Below(AfterEvents(trace).Get(path), Unbounded(trace, path))
  {
    if trace != [] {
      var before := trace[..|trace| - 1];
      Simulates(before, path);
      match trace[|trace| - 1]
      case Read(o) => FoldBelow(AfterEvents(before).Get(path), Unbounded(before, path), o);
      case Attempted(_) =>
    }
  }

  /** Some earlier read of this path, at this version, returned this line. */
  ghost predicate ReturnedBefore(trace: seq<Event>, path: string, version: Version, line: int) {
    exists i :: 0 <= i < |trace| && trace[i].Read? && trace[i].seen.path == path
                && trace[i].seen.version == version && line in trace[i].seen.lines
  }

  lemma ReturnedStill(trace: seq<Event>, e: Event, path: string, version: Version, line: int)
    requires ReturnedBefore(trace, path, version, line)
    ensures ReturnedBefore(trace + [e], path, version, line)
  {
    var i :| 0 <= i < |trace| && trace[i].Read? && trace[i].seen.path == path
      && trace[i].seen.version == version && line in trace[i].seen.lines;
    assert (trace + [e])[i] == trace[i];
  }

  lemma {:induction false} MemoryIsOfThePast(trace: seq<Event>, path: string, line: int)
    requires Unbounded(trace, path).Some? && line in Unbounded(trace, path).value.lines
    ensures ReturnedBefore(trace, path, Unbounded(trace, path).value.version, line)
  {
    var before, last := trace[..|trace| - 1], trace[|trace| - 1];
    assert trace == before + [last];
    var version := Unbounded(trace, path).value.version;
    if last.Read? && last.seen.path == path && line in last.seen.lines {
      assert trace[|trace| - 1] == last;
    } else {
      MemoryIsOfThePast(before, path, line);
      ReturnedStill(before, last, path, version, line);
    }
  }

  /** A reported repeat is real: the unbounded memory agrees, and every line was returned before. */
  lemma RepeatIsReal(trace: seq<Event>, o: Observation)
    requires Verdicted(AfterEvents(trace).Get(o.path), o).Repeat?
    ensures Verdicted(Unbounded(trace, o.path), o).Repeat?
    ensures Verdicted(AfterEvents(trace).Get(o.path), o).count <= Verdicted(Unbounded(trace, o.path), o).count
    ensures forall line :: line in o.lines ==> ReturnedBefore(trace, o.path, o.version, line)
  {
    Simulates(trace, o.path);
    forall line | line in o.lines ensures ReturnedBefore(trace, o.path, o.version, line) {
      MemoryIsOfThePast(trace, o.path, line);
    }
  }

  ghost function PathsRead(trace: seq<Event>): set<string> {
    set i | 0 <= i < |trace| && trace[i].Read? :: trace[i].seen.path
  }

  /** Nothing forgotten: at most 200 files read and no mutation attempted. */
  ghost predicate Undisturbed(trace: seq<Event>) {
    |PathsRead(trace)| <= MAX_TRACKED_READ_FILES && forall i :: 0 <= i < |trace| ==> trace[i].Read?
  }

  lemma UndisturbedBefore(trace: seq<Event>)
    requires trace != [] && Undisturbed(trace)
    ensures Undisturbed(trace[..|trace| - 1])
    ensures PathsRead(trace) == PathsRead(trace[..|trace| - 1]) + {trace[|trace| - 1].seen.path}
  {
    var before, last := trace[..|trace| - 1], trace[|trace| - 1];
    assert forall i :: 0 <= i < |before| ==> before[i] == trace[i];
    forall p ensures p in PathsRead(trace) <==> p in PathsRead(before) || p == last.seen.path {
      if p in PathsRead(before) {
        var i :| 0 <= i < |before| && before[i].Read? && before[i].seen.path == p;
        assert trace[i].seen.path == p;
      }
    }
    assert PathsRead(before) <= PathsRead(trace);
    SubsetSize(PathsRead(before), PathsRead(trace));
  }

  /** Undisturbed, the table and the unbounded memory are the same, so no repeat is missed. */
  lemma {:induction false} ExactWhenUndisturbed(trace: seq<Event>, path: string)
    requires Undisturbed(trace)
    ensures AfterEvents(trace).Get(path) == Unbounded(trace, path)
    ensures AfterEvents(trace).vals.Keys == PathsRead(trace)
  {
    if trace != [] {
      var before, o := trace[..|trace| - 1], trace[|trace| - 1].seen;
      UndisturbedBefore(trace);
      ExactWhenUndisturbed(before, path);
      assert PathsRead(trace) == PathsRead(before) + {o.path};
      NoneEvicted(AfterEvents(before), o);
    } else {
      assert PathsRead(trace) == {};
    }
  }

  lemma NoneEvicted(t: Table, o: Observation)
    requires |t.vals.Keys + {o.path}| <= MAX_TRACKED_READ_FILES
    ensures Recorded(t, o) == t.Reinsert(o.path, Folded(t.Get(o.path), o))
    ensures Recorded(t, o).vals.Keys == t.vals.Keys + {o.path}
  {
    var grown := t.Reinsert(o.path, Folded(t.Get(o.path), o));
    MembersOnce(grown.keys);
    assert grown.vals.Keys == Members(grown.keys);
  }

  // ----- exactly, however files are evicted and mutations attempted -----

  /** The files read, oldest first. */
  function PathsIn(trace: seq<Event>): seq<string> {
    if trace == [] then []
    else
      var e := trace[|trace| - 1];
      PathsIn(trace[..|trace| - 1]) + if e.Read? then [e.seen.path] else []
  }

  /** The file is among the 200 most recently read. */
  ghost predicate Remembered(trace: seq<Event>, path: string) {
    path in Last(ByRecency(PathsIn(trace)), MAX_TRACKED_READ_FILES)
  }

  ghost predicate ReadOf(trace: seq<Event>, i: int, path: string) {
    0 <= i < |trace| && trace[i].Read? && trace[i].seen.path == path
  }

  /** A read of the file since when it was neither forgotten nor seen in another version. */
  ghost predicate Counts(trace: seq<Event>, i: int, path: string) {
    && ReadOf(trace, i, path) && Remembered(trace, path)
    && forall j :: i < j && ReadOf(trace, j, path) ==>
         trace[j].seen.version == trace[i].seen.version && Remembered(trace[..j], path)
  }

  /** All lines of the read have been returned at its version since then, by one read or another. */
  ghost predicate NothingNew(trace: seq<Event>, o: Observation) {
    && (exists i :: Counts(trace, i, o.path) && trace[i].seen.version == o.version)
    && forall line :: line in o.lines ==>
         exists i :: Counts(trace, i, o.path) && trace[i].seen.version == o.version && line in trace[i].seen.lines
  }

  /** The reads of the file in a row, up to now and since it was last mutated, that returned nothing new. */
  ghost function InARow(trace: seq<Event>, path: string): nat {
    if trace == [] then 0
    else
      var before := trace[..|trace| - 1];
      match trace[|trace| - 1]
      case Attempted(touched) => if path in touched then 0 else InARow(before, path)
      case Read(o) =>
        if o.path != path then InARow(before, path)
        else if NothingNew(before, o) then InARow(before, path) + 1
        else 0
  }

  /** The table holds the most recently read files. */
  lemma {:induction false} HoldsRemembered(trace: seq<Event>)
    ensures AfterEvents(trace).keys == Last(ByRecency(PathsIn(trace)), MAX_TRACKED_READ_FILES)
  {
    if trace != [] {
      var before, e := trace[..|trace| - 1], trace[|trace| - 1];
      HoldsRemembered(before);
      assert PathsIn(before) + [] == PathsIn(before);
      if e.Read? {
        var recent := ByRecency(PathsIn(before));
        RecencyDistinct(PathsIn(before));
        RecencyAppend(PathsIn(before), e.seen.path);
        WindowStep(recent, e.seen.path, MAX_TRACKED_READ_FILES);
        LastDistinct(recent, MAX_TRACKED_READ_FILES);
        WithoutLength(Last(recent, MAX_TRACKED_READ_FILES), e.seen.path);
      }
    }
  }

  lemma KnownIsRemembered(trace: seq<Event>, path: string)
    ensures AfterEvents(trace).Get(path).Some? <==> Remembered(trace, path)
  {
    HoldsRemembered(trace);
    assert path in AfterEvents(trace).vals.Keys <==> path in AfterEvents(trace).keys;
  }

  /** What one event does to the table's entry of a file. */
  lemma EntryStep(t: Table, e: Event, path: string)
    ensures e.Read? && e.seen.path == path ==>
      TableAfter(t, e).Get(path) == Some(Folded(t.Get(path), e.seen))
    ensures e.Read? && e.seen.path != path ==> TableAfter(t, e).Get(path) in {t.Get(path), None}
    ensures e.Attempted? ==>
      TableAfter(t, e).Get(path) ==
      if t.Get(path).Some? && path in e.touched then Some(t.Get(path).value.(noProgress := 0)) else t.Get(path)
  {
    if e.Read? {
      var grown := t.Reinsert(e.seen.path, Folded(t.Get(e.seen.path), e.seen));
      assert grown.keys[|grown.keys| - 1] == e.seen.path;
      if |grown.keys| > MAX_TRACKED_READ_FILES { assert grown.keys[0] != e.seen.path; }
    }
  }

  lemma StaysRemembered(trace: seq<Event>, e: Event, path: string)
    ensures e.Read? && e.seen.path == path ==> Remembered(trace + [e], path)
    ensures !(e.Read? && e.seen.path == path) && Remembered(trace + [e], path) ==> Remembered(trace, path)
  {
    EventsStep(trace, e);
    EntryStep(AfterEvents(trace), e, path);
    KnownIsRemembered(trace, path);
    KnownIsRemembered(trace + [e], path);
  }

  lemma ReadOfMore(trace: seq<Event>, e: Event, i: int, path: string)
    ensures ReadOf(trace + [e], i, path) <==>
      ReadOf(trace, i, path) || (i == |trace| && e.Read? && e.seen.path == path)
    ensures 0 <= i < |trace| ==> (trace + [e])[i] == trace[i] && (trace + [e])[..i] == trace[..i]
    ensures (trace + [e])[..|trace|] == trace
  {
  }

  /** Another read of the file keeps those of its own version; anything else keeps them while it is remembered. */
  lemma CountsMore(trace: seq<Event>, e: Event, i: int, path: string)
    requires 0 <= i < |trace|
    ensures Counts(trace + [e], i, path) <==>
      && Counts(trace, i, path) && Remembered(trace + [e], path)
      && (e.Read? && e.seen.path == path ==> e.seen.version == trace[i].seen.version)
  {
    var more := trace + [e];
    StaysRemembered(trace, e, path);
    ReadOfMore(trace, e, i, path);
    if Counts(more, i, path) {
      forall j | i < j && ReadOf(trace, j, path)
        ensures trace[j].seen.version == trace[i].seen.version && Remembered(trace[..j], path)
      {
        ReadOfMore(trace, e, j, path);
        assert ReadOf(more, j, path);
      }
      if e.Read? && e.seen.path == path {
        ReadOfMore(trace, e, |trace|, path);
        assert ReadOf(more, |trace|, path);
      }
    }
    if Counts(trace, i, path) && Remembered(more, path)
       && (e.Read? && e.seen.path == path ==> e.seen.version == trace[i].seen.version) {
      forall j | i < j && ReadOf(more, j, path)
        ensures more[j].seen.version == more[i].seen.version && Remembered(more[..j], path)
      {
        ReadOfMore(trace, e, j, path);
        if j < |trace| { assert ReadOf(trace, j, path); }
      }
    }
  }

  lemma LastCounts(trace: seq<Event>, o: Observation)
    ensures Counts(trace + [Read(o)], |trace|, o.path)
  {
    StaysRemembered(trace, Read(o), o.path);
  }

  /** The entry of a file is exactly what the reads that count have seen. */
  ghost predicate Says(known: Option<Coverage>, trace: seq<Event>, path: string) {
    known.Some? ==>
      && (exists i :: Counts(trace, i, path))
      && (forall i :: Counts(trace, i, path) ==> trace[i].seen.version == known.value.version)
      && (forall line ::
            line in known.value.lines <==> exists i :: Counts(trace, i, path) && line in trace[i].seen.lines)
      && known.value.noProgress == InARow(trace, path)
  }

  /** So the fold asks just what the trace answers. */
  lemma AsksTheTrace(known: Option<Coverage>, trace: seq<Event>, o: Observation)
    requires Says(known, trace, o.path) && (known.Some? <==> Remembered(trace, o.path))
    ensures NothingNew(trace, o) <==>
      known.Some? && known.value.version == o.version && o.lines <= known.value.lines
  {
    if NothingNew(trace, o) {
      var i :| Counts(trace, i, o.path) && trace[i].seen.version == o.version;
      forall line | line in o.lines ensures line in known.value.lines {
        var j :| Counts(trace, j, o.path) && trace[j].seen.version == o.version && line in trace[j].seen.lines;
      }
    }
    if known.Some? && known.value.version == o.version && o.lines <= known.value.lines {
      var i :| Counts(trace, i, o.path);
      forall line | line in o.lines
        ensures exists j ::
          Counts(trace, j, o.path) && trace[j].seen.version == o.version && line in trace[j].seen.lines
      {
        assert line in known.value.lines;
        var j :| Counts(trace, j, o.path) && line in trace[j].seen.lines;
      }
    }
  }

  lemma InARowMore(trace: seq<Event>, e: Event, path: string)
    ensures InARow(trace + [e], path) ==
      if e.Attempted? then (if path in e.touched then 0 else InARow(trace, path))
      else if e.seen.path != path then InARow(trace, path)
      else if NothingNew(trace, e.seen) then InARow(trace, path) + 1
      else 0
  {
    assert (trace + [e])[..|trace|] == trace;
  }

  /** Which reads count after a read of the file itself. */
  lemma CountsAfterRead(trace: seq<Event>, o: Observation, known: Option<Coverage>)
    requires Says(known, trace, o.path) && (known.Some? <==> Remembered(trace, o.path))
    ensures var more, same := trace + [Read(o)], known.Some? && known.value.version == o.version;
      forall i :: Counts(more, i, o.path) <==> i == |trace| || (same && Counts(trace, i, o.path))
  {
    var more := trace + [Read(o)];
    LastCounts(trace, o);
    StaysRemembered(trace, Read(o), o.path);
    forall i ensures Counts(more, i, o.path) <==>
      i == |trace| || (known.Some? && known.value.version == o.version && Counts(trace, i, o.path))
    {
      if 0 <= i < |trace| { CountsMore(trace, Read(o), i, o.path); }
    }
  }

  lemma SaysAfterRead(trace: seq<Event>, o: Observation, known: Option<Coverage>)
    requires Says(known, trace, o.path) && (known.Some? <==> Remembered(trace, o.path))
    ensures Says(Some(Folded(known, o)), trace + [Read(o)], o.path)
  {
    var more, after := trace + [Read(o)], Folded(known, o);
    CountsAfterRead(trace, o, known);
    AsksTheTrace(known, trace, o);
    InARowMore(trace, Read(o), o.path);
    assert more[|trace|] == Read(o) && forall i :: 0 <= i < |trace| ==> more[i] == trace[i];
    assert Counts(more, |trace|, o.path);
    forall line ensures line in after.lines <==> exists i :: Counts(more, i, o.path) && line in more[i].seen.lines {
      if line in o.lines { assert line in more[|trace|].seen.lines; }
      if known.Some? && known.value.version == o.version && line in known.value.lines {
        var i :| Counts(trace, i, o.path) && line in trace[i].seen.lines;
        assert Counts(more, i, o.path);
      }
    }
  }

  lemma SaysAfterOther(trace: seq<Event>, e: Event, path: string, known: Option<Coverage>, after: Option<Coverage>)
    requires Says(known, trace, path) && !(e.Read? && e.seen.path == path)
    requires after.Some? ==> known.Some? && Remembered(trace + [e], path)
    requires after.Some? ==>
      after.value.version == known.value.version && after.value.lines == known.value.lines
    requires after.Some? ==>
      after.value.noProgress == if e.Attempted? && path in e.touched then 0 else known.value.noProgress
    ensures Says(after, trace + [e], path)
  {
    if after.Some? {
      var more := trace + [e];
      forall i ensures Counts(more, i, path) <==> Counts(trace, i, path) {
        if 0 <= i < |trace| { CountsMore(trace, e, i, path); }
      }
      forall i | Counts(trace, i, path) ensures more[i] == trace[i] {}
      InARowMore(trace, e, path);
      var i :| Counts(trace, i, path);
      assert Counts(more, i, path);
      forall line
        ensures line in after.value.lines <==> exists i :: Counts(more, i, path) && line in more[i].seen.lines
      {
        if line in known.value.lines {
          var j :| Counts(trace, j, path) && line in trace[j].seen.lines;
          assert Counts(more, j, path);
        }
      }
    }
  }

  lemma {:induction false} TableSays(trace: seq<Event>, path: string)
    ensures Says(AfterEvents(trace).Get(path), trace, path)
  {
    if trace != [] {
      var before, e := trace[..|trace| - 1], trace[|trace| - 1];
      assert trace == before + [e];
      TableSays(before, path);
      KnownIsRemembered(before, path);
      KnownIsRemembered(trace, path);
      EntryStep(AfterEvents(before), e, path);
      if e.Read? && e.seen.path == path {
        SaysAfterRead(before, e.seen, AfterEvents(before).Get(path));
      } else {
        SaysAfterOther(before, e, path, AfterEvents(before).Get(path), AfterEvents(trace).Get(path));
      }
    }
  }

  lemma VerdictOf(known: Option<Coverage>, trace: seq<Event>, o: Observation)
    requires Says(known, trace, o.path) && (known.Some? <==> Remembered(trace, o.path))
    ensures Verdicted(known, o) == if NothingNew(trace, o) then Repeat(InARow(trace, o.path) + 1) else NewText
  {
    AsksTheTrace(known, trace, o);
  }

  /**
   * Whatever was read and attempted before: a repeat is reported exactly if all the read's lines have been returned
   * at its version since the file was last forgotten or changed, and its count is that of the reads in a row, this
   * one included, that returned nothing new.
   */
  lemma VerdictExactly(trace: seq<Event>, o: Observation)
    ensures Verdicted(AfterEvents(trace).Get(o.path), o) ==
      if NothingNew(trace, o) then Repeat(InARow(trace, o.path) + 1) else NewText
  {
    TableSays(trace, o.path);
    KnownIsRemembered(trace, o.path);
    VerdictOf(AfterEvents(trace).Get(o.path), trace, o);
  }

  /** With at most 200 files read nothing is ever forgotten. */
  lemma AllRemembered(trace: seq<Event>, path: string)
    requires |PathsRead(trace)| <= MAX_TRACKED_READ_FILES
    ensures Remembered(trace, path) <==> path in PathsRead(trace)
  {
    PathsAreRead(trace);
    RecencySize(PathsIn(trace));
    assert Members(PathsIn(trace)) == PathsRead(trace);
  }

  lemma {:induction false} PathsAreRead(trace: seq<Event>)
    ensures forall p :: p in PathsIn(trace) <==> p in PathsRead(trace)
  {
    if trace != [] {
      var before, e := trace[..|trace| - 1], trace[|trace| - 1];
      PathsAreRead(before);
      assert trace == before + [e];
      forall p ensures p in PathsRead(trace) <==> p in PathsRead(before) || (e.Read? && p == e.seen.path) {
        if p in PathsRead(before) {
          var i :| 0 <= i < |before| && before[i].Read? && before[i].seen.path == p;
          assert trace[i].Read? && trace[i].seen.path == p;
        }
        if e.Read? { assert trace[|before|].seen.path == e.seen.path; }
      }
    }
  }

  /** A read of the file since when it has not been seen in another version. */
  ghost predicate SameSince(trace: seq<Event>, i: int, path: string) {
    && ReadOf(trace, i, path)
    && forall j :: i < j && ReadOf(trace, j, path) ==> trace[j].seen.version == trace[i].seen.version
  }

  lemma CountsIfSame(trace: seq<Event>, i: int, path: string)
    requires |PathsRead(trace)| <= MAX_TRACKED_READ_FILES
    ensures Counts(trace, i, path) <==> SameSince(trace, i, path)
  {
    if SameSince(trace, i, path) {
      AllRemembered(trace, path);
      forall j | i < j && ReadOf(trace, j, path) ensures Remembered(trace[..j], path) {
        forall k | 0 <= k < j ensures trace[..j][k] == trace[k] {}
        assert PathsRead(trace[..j]) <= PathsRead(trace);
        SubsetSize(PathsRead(trace[..j]), PathsRead(trace));
        AllRemembered(trace[..j], path);
        assert trace[..j][i].Read?;
      }
    }
  }

  /** So with at most 200 files read, a repeat is of lines all returned since the version came. */
  lemma RepeatsExactly(trace: seq<Event>, o: Observation)
    requires |PathsRead(trace)| <= MAX_TRACKED_READ_FILES
    ensures Verdicted(AfterEvents(trace).Get(o.path), o).Repeat? <==>
      (exists i :: SameSince(trace, i, o.path) && trace[i].seen.version == o.version)
      && forall line :: line in o.lines ==>
           exists i :: SameSince(trace, i, o.path) && trace[i].seen.version == o.version && line in trace[i].seen.lines
  {
    VerdictExactly(trace, o);
    forall i ensures Counts(trace, i, o.path) <==> SameSince(trace, i, o.path) { CountsIfSame(trace, i, o.path); }
  }
}
