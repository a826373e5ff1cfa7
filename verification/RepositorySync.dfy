/** Publishing the package repository to its bucket: scripts/linux-packaging.ts and scripts/linux-repo.ts. */
module RepositorySync {
  import opened Sorting
  import opened DistinctLists

  type Path = string

  /** A file's contents, as far as a client cares: the paths they name, and a digest of the rest. */
  datatype File = File(refs: set<Path>, digest: int)

  type Bucket = map<Path, File>

  datatype SyncStep = Put(path: Path) | Delete(path: Path)

  /**
   * `rank` is 0 for packages, 1 for the indexes that list them, 2 for what points at those. The two
   * string orders are given by a position below 1: `localeCompare` for uploads, code units for deletes.
   */
  datatype Naming = Naming(rank: Path -> nat, locale: Path -> real, codeUnits: Path -> real)

  ghost predicate Lawful(names: Naming) {
    && (forall p :: names.rank(p) <= 2)
    && (forall p :: 0.0 <= names.locale(p) < 1.0)
  }

  function Filter(s: seq<Path>, keep: Path -> bool): (r: seq<Path>)
    ensures forall p :: p in r <==> p in s && keep(p)
  {
    if s == [] then []
    else
      assert s == s[..|s| - 1] + [s[|s| - 1]];
      Filter(s[..|s| - 1], keep) + if keep(s[|s| - 1]) then [s[|s| - 1]] else []
  }

  /** Where a path stands in the upload order: rank first, then the locale's order. */
  function Place(names: Naming, p: Path): real { names.rank(p) as real + names.locale(p) }

  function UploadKey(names: Naming): Path -> real { p => Place(names, p) }

  function Puts(local: seq<Path>, remote: seq<Path>, names: Naming): seq<Path> {
    SortBy(Filter(local, p => names.rank(p) > 0 || p !in remote), UploadKey(names))
  }

  function Deletes(local: seq<Path>, remote: seq<Path>, names: Naming): seq<Path> {
    SortBy(Filter(remote, p => p !in local), names.codeUnits)
  }

  function Steps(puts: seq<Path>, deletes: seq<Path>): (plan: seq<SyncStep>)
    ensures |plan| == |puts| + |deletes|
    ensures forall k :: 0 <= k < |puts| ==> plan[k] == Put(puts[k])
    ensures forall k :: |puts| <= k < |plan| ==> plan[k] == Delete(deletes[k - |puts|])
  {
    seq(|puts|, (k: nat) requires k < |puts| => Put(puts[k]))
    + seq(|deletes|, (k: nat) requires k < |deletes| => Delete(deletes[k]))
  }

  function SyncPlan(local: seq<Path>, remote: seq<Path>, names: Naming): seq<SyncStep> {
    Steps(Puts(local, remote, names), Deletes(local, remote, names))
  }

  // ----- carrying a plan out -----

  function Applied(b: Bucket, step: SyncStep, site: Bucket): Bucket
    requires step.Put? ==> step.path in site
  {
    if step.Put? then b[step.path := site[step.path]] else b - {step.path}
  }

  ghost predicate Uploads(steps: seq<SyncStep>, site: Bucket) {
    forall k :: 0 <= k < |steps| && steps[k].Put? ==> steps[k].path in site
  }

  function After(b: Bucket, steps: seq<SyncStep>, site: Bucket): Bucket
    requires Uploads(steps, site)
  {
    if steps == [] then b else Applied(After(b, steps[..|steps| - 1], site), steps[|steps| - 1], site)
  }

  /** The listing a run starts from: the bucket's paths in some order. */
  ghost predicate Lists(listing: seq<Path>, b: Bucket) {
    forall p :: p in listing <==> p in b
  }

  // ----- what clients need -----

  /** A client that holds f follows references through the bucket along w. */
  ghost predicate Follows(b: Bucket, f: File, w: seq<Path>) {
    && w != [] && w[0] in f.refs
    && forall k :: 0 <= k < |w| - 1 ==> w[k] in b && w[k + 1] in b[w[k]].refs
  }

  /** Whatever a client that holds f follows leads to something that is there. */
  ghost predicate Served(b: Bucket, f: File) {
    forall w :: Follows(b, f, w) ==> w[|w| - 1] in b
  }

  ghost predicate Serves(b: Bucket, names: Naming) {
    forall p :: p in b && names.rank(p) == 2 ==> Served(b, b[p])
  }

  /** A file names only files that are uploaded before it, and a package names none. */
  ghost predicate NamesEarlier(p: Path, f: File, names: Naming) {
    forall q :: q in f.refs ==> names.rank(p) > 0 && Place(names, q) < Place(names, p)
  }

  ghost predicate Descending(b: Bucket, names: Naming) {
    forall p :: p in b ==> NamesEarlier(p, b[p], names)
  }

  /** A freshly built site: everything it names it contains. */
  ghost predicate Built(site: Bucket, names: Naming) {
    Descending(site, names) && forall p, q :: p in site && q in site[p].refs ==> q in site
  }

  ghost predicate EntriesKept(b: Bucket, site: Bucket, names: Naming) {
    forall p :: p in b && names.rank(p) == 2 ==> p in site
  }

  ghost predicate Closed(b: Bucket, g: set<Path>) {
    g <= b.Keys && forall p :: p in g ==> b[p].refs <= g
  }

  /** A closed set that holds all f names serves f. */
  lemma {:induction false} ClosedServes(b: Bucket, f: File, g: set<Path>, w: seq<Path>)
    requires Closed(b, g) && f.refs <= g && Follows(b, f, w)
    ensures w[|w| - 1] in g
  {
    if |w| > 1 {
      var v := w[..|w| - 1];
      assert forall k :: 0 <= k < |v| - 1 ==> v[k] in b && v[k + 1] in b[v[k]].refs by {
        assert forall k :: 0 <= k < |v| ==> v[k] == w[k];
      }
      ClosedServes(b, f, g, v);
    }
  }

  lemma ServedByClosed(b: Bucket, f: File, g: set<Path>)
    requires Closed(b, g) && f.refs <= g
    ensures Served(b, f)
  {
    forall w | Follows(b, f, w) ensures w[|w| - 1] in b { ClosedServes(b, f, g, w); }
  }

  /** Everything reachable from the entry points. */
  ghost function Reached(b: Bucket, names: Naming): set<Path> {
    set q | q in b && ReachedFrom(b, names, q)
  }

  ghost predicate ReachedFrom(b: Bucket, names: Naming, q: Path) {
    exists p, w :: p in b && names.rank(p) == 2 && Follows(b, b[p], w) && w[|w| - 1] == q
  }

  lemma FirstStep(b: Bucket, f: File, q: Path)
    requires q in f.refs
    ensures Follows(b, f, [q])
  {
  }

  lemma NextStep(b: Bucket, f: File, w: seq<Path>, r: Path)
    requires Follows(b, f, w) && w[|w| - 1] in b && r in b[w[|w| - 1]].refs
    ensures Follows(b, f, w + [r])
  {
  }

  lemma ReachedIsClosed(b: Bucket, names: Naming)
    requires Serves(b, names)
    ensures Closed(b, Reached(b, names))
    ensures forall p :: p in b && names.rank(p) == 2 ==> b[p].refs <= Reached(b, names)
  {
    forall p, q | p in b && names.rank(p) == 2 && q in b[p].refs ensures q in Reached(b, names) {
      FirstStep(b, b[p], q);
      ReachedBy(b, names, p, [q]);
    }
    forall q, r | q in Reached(b, names) && r in b[q].refs ensures r in Reached(b, names) {
      var p, w :| p in b && names.rank(p) == 2 && Follows(b, b[p], w) && w[|w| - 1] == q;
      NextStep(b, b[p], w, r);
      ReachedBy(b, names, p, w + [r]);
    }
  }

  lemma ReachedBy(b: Bucket, names: Naming, p: Path, w: seq<Path>)
    requires p in b && names.rank(p) == 2 && Follows(b, b[p], w) && Served(b, b[p])
    ensures w[|w| - 1] in Reached(b, names)
  {
    assert ReachedFrom(b, names, w[|w| - 1]);
  }

  // ----- the plan -----

  lemma PutsContain(local: seq<Path>, remote: seq<Path>, names: Naming)
    ensures forall p :: p in Puts(local, remote, names) <==> p in local && (names.rank(p) > 0 || p !in remote)
    ensures forall p :: p in Deletes(local, remote, names) <==> p in remote && p !in local
  {
    var puts, deletes := Filter(local, p => names.rank(p) > 0 || p !in remote), Filter(remote, p => p !in local);
    SameMembers(SortBy(puts, UploadKey(names)), puts);
    SameMembers(SortBy(deletes, names.codeUnits), deletes);
  }

  /** Uploads go in rank order, and by name within a rank. */
  lemma PutsOrdered(local: seq<Path>, remote: seq<Path>, names: Naming, i: nat, j: nat)
    requires Lawful(names) && i <= j < |Puts(local, remote, names)|
    ensures var puts := Puts(local, remote, names);
      names.rank(puts[i]) < names.rank(puts[j])
      || (names.rank(puts[i]) == names.rank(puts[j]) && names.locale(puts[i]) <= names.locale(puts[j]))
  {
    var puts := Puts(local, remote, names);
    assert UploadKey(names)(puts[i]) <= UploadKey(names)(puts[j]);
  }

  function Only(site: Bucket, done: set<Path>): (m: Bucket)
    ensures done <= site.Keys ==> m.Keys == done
  {
    map p | p in done && p in site :: site[p]
  }

  lemma OneMore(b: Bucket, steps: seq<SyncStep>, k: nat, site: Bucket)
    requires Uploads(steps, site) && k < |steps|
    ensures After(b, steps[..k + 1], site) == Applied(After(b, steps[..k], site), steps[k], site)
  {
    assert steps[..k + 1][..k] == steps[..k];
  }

  /** During the uploads the bucket is what it was, overlaid with what has been uploaded. */
  lemma {:induction false} AfterPuts(b: Bucket, puts: seq<Path>, deletes: seq<Path>, k: nat, site: Bucket)
    requires k <= |puts| && forall p :: p in puts ==> p in site
    ensures Uploads(Steps(puts, deletes), site)
    ensures After(b, Steps(puts, deletes)[..k], site) == b + Only(site, Members(puts[..k]))
  {
    if k > 0 {
      AfterPuts(b, puts, deletes, k - 1, site);
      PutOne(b, Steps(puts, deletes), k - 1, site, Members(puts[..k - 1]));
      MembersStep(puts, k - 1);
    }
  }

  lemma PutOne(b: Bucket, steps: seq<SyncStep>, n: nat, site: Bucket, done: set<Path>)
    requires Uploads(steps, site) && n < |steps| && steps[n].Put? && done <= site.Keys
    requires After(b, steps[..n], site) == b + Only(site, done)
    ensures After(b, steps[..n + 1], site) == b + Only(site, done + {steps[n].path})
  {
    OneMore(b, steps, n, site);
    OverlayPut(b, done, steps[n].path, site);
  }

  lemma OverlayPut(b: Bucket, done: set<Path>, p: Path, site: Bucket)
    requires p in site && done <= site.Keys
    ensures (b + Only(site, done))[p := site[p]] == b + Only(site, done + {p})
  {
  }

  lemma AfterAllPuts(b: Bucket, puts: seq<Path>, deletes: seq<Path>, site: Bucket)
    requires forall p :: p in puts ==> p in site
    ensures Uploads(Steps(puts, deletes), site)
    ensures After(b, Steps(puts, deletes)[..|puts|], site) == (b + Only(site, Members(puts))) - Members(deletes[..0])
  {
    AfterPuts(b, puts, deletes, |puts|, site);
    assert puts[..|puts|] == puts;
  }

  /** During the deletes it is the uploaded bucket without what has been deleted. */
  lemma {:induction false} AfterDeletes(b: Bucket, puts: seq<Path>, deletes: seq<Path>, k: nat, site: Bucket)
    requires k <= |deletes| && forall p :: p in puts ==> p in site
    ensures Uploads(Steps(puts, deletes), site)
    ensures After(b, Steps(puts, deletes)[..|puts| + k], site) ==
      (b + Only(site, Members(puts))) - Members(deletes[..k])
  {
    if k == 0 {
      AfterAllPuts(b, puts, deletes, site);
    } else {
      AfterDeletes(b, puts, deletes, k - 1, site);
      OneDelete(b, puts, deletes, k - 1, site, b + Only(site, Members(puts)));
    }
  }

  lemma OneDelete(b: Bucket, puts: seq<Path>, deletes: seq<Path>, k: nat, site: Bucket, full: Bucket)
    requires k < |deletes| && Uploads(Steps(puts, deletes), site)
    requires After(b, Steps(puts, deletes)[..|puts| + k], site) == full - Members(deletes[..k])
    ensures After(b, Steps(puts, deletes)[..|puts| + (k + 1)], site) == full - Members(deletes[..k + 1])
  {
    DeleteOne(b, Steps(puts, deletes), |puts| + k, site, full, Members(deletes[..k]));
    MembersStep(deletes, k);
  }

  lemma DeleteOne(b: Bucket, steps: seq<SyncStep>, n: nat, site: Bucket, full: Bucket, gone: set<Path>)
    requires Uploads(steps, site) && n < |steps| && steps[n].Delete?
    requires After(b, steps[..n], site) == full - gone
    ensures After(b, steps[..n + 1], site) == full - (gone + {steps[n].path})
  {
    OneMore(b, steps, n, site);
    assert (full - gone) - {steps[n].path} == full - (gone + {steps[n].path});
  }

  // ----- every moment of a run -----

  /** A run: the bucket it starts from, the site it publishes, the listings it read and what it will do. */
  datatype Run = Run(before: Bucket, site: Bucket, local: seq<Path>, remote: seq<Path>,
                     puts: seq<Path>, deletes: seq<Path>)

  ghost predicate Planned(r: Run, names: Naming) {
    && Lists(r.local, r.site) && Lists(r.remote, r.before)
    && r.puts == Puts(r.local, r.remote, names) && r.deletes == Deletes(r.local, r.remote, names)
  }

  /** What matters of a plan: which files it uploads, in which order, and which it deletes. */
  ghost predicate Orders(r: Run, names: Naming) {
    && (forall p :: p in r.puts <==> p in r.site && (names.rank(p) > 0 || p !in r.before))
    && (forall i, j :: 0 <= i <= j < |r.puts| ==> Place(names, r.puts[i]) <= Place(names, r.puts[j]))
    && (forall p :: p in r.deletes <==> p in r.before && p !in r.site)
  }

  lemma PlacesAscend(puts: seq<Path>, names: Naming)
    requires Ascending(puts, UploadKey(names))
    ensures forall i, j :: 0 <= i <= j < |puts| ==> Place(names, puts[i]) <= Place(names, puts[j])
  {
    forall i, j | 0 <= i <= j < |puts| ensures Place(names, puts[i]) <= Place(names, puts[j]) {
      assert UploadKey(names)(puts[i]) <= UploadKey(names)(puts[j]);
    }
  }

  lemma PlanOrders(r: Run, names: Naming)
    requires Planned(r, names) && Lawful(names)
    ensures Orders(r, names)
    ensures SyncPlan(r.local, r.remote, names) == Steps(r.puts, r.deletes)
  {
    PutsContain(r.local, r.remote, names);
    PlacesAscend(r.puts, names);
  }

  /** The bucket once k steps of the plan have been carried out. */
  ghost function At(r: Run, k: nat): Bucket
    requires (forall p :: p in r.puts ==> p in r.site) && k <= |r.puts| + |r.deletes|
  {
    AfterPuts(r.before, r.puts, r.deletes, 0, r.site);
    After(r.before, Steps(r.puts, r.deletes)[..k], r.site)
  }

  /** What a client can rely on in bucket b. */
  ghost predicate Held(b: Bucket, names: Naming) {
    Serves(b, names) && Descending(b, names)
  }

  ghost predicate Publishable(r: Run, names: Naming) {
    Lawful(names) && Orders(r, names) && Built(r.site, names) && Held(r.before, names)
  }

  /** Uploads so far: nothing above the level, everything of the site below it. */
  ghost predicate Levelled(r: Run, names: Naming, done: set<Path>, level: real) {
    && done <= r.site.Keys
    && (forall p :: p in done ==> Place(names, p) <= level)
    && (forall p :: p in r.site && Place(names, p) < level ==> p in done || (names.rank(p) == 0 && p in r.before))
  }

  ghost function Level(r: Run, k: nat, names: Naming): real
    requires k <= |r.puts|
  {
    if k == 0 then 0.0 else Place(names, r.puts[k - 1])
  }

  lemma DoneIsLevelled(r: Run, names: Naming, k: nat)
    requires Lawful(names) && Orders(r, names) && k <= |r.puts|
    ensures Levelled(r, names, Members(r.puts[..k]), Level(r, k, names))
  {
    if k > 0 {
      forall p | p in r.puts && Place(names, p) < Place(names, r.puts[k - 1]) ensures p in r.puts[..k] {
        var i :| 0 <= i < |r.puts| && r.puts[i] == p;
        assert i < k;
      }
    }
  }

  /** The part of the overlaid bucket that clients may be led to. */
  ghost function Safe(r: Run, names: Naming, level: real): set<Path> {
    Reached(r.before, names) + set p | p in r.site && Place(names, p) < level
  }

  lemma OverlayClosed(r: Run, names: Naming, done: set<Path>, level: real)
    requires Publishable(r, names) && Levelled(r, names, done, level)
    ensures Closed(r.before + Only(r.site, done), Safe(r, names, level))
  {
    var b, g := r.before + Only(r.site, done), Safe(r, names, level);
    ReachedIsClosed(r.before, names);
    forall p | p in g ensures p in b && b[p].refs <= g {
      if p in done { SafeSite(r, names, level, p); }
      else if p !in Reached(r.before, names) { NoRefs(r.before, names, p); }
    }
  }

  /** What a site file up to the level names lies below the level. */
  lemma SafeSite(r: Run, names: Naming, level: real, p: Path)
    requires Built(r.site, names) && p in r.site && Place(names, p) <= level
    ensures r.site[p].refs <= Safe(r, names, level)
  {
  }

  lemma NoRefs(b: Bucket, names: Naming, p: Path)
    requires Descending(b, names) && p in b && names.rank(p) == 0
    ensures b[p].refs == {}
  {
    forall q ensures q !in b[p].refs {}
  }

  lemma OverlayServes(r: Run, names: Naming, done: set<Path>, level: real)
    requires Publishable(r, names) && Levelled(r, names, done, level)
    ensures Held(r.before + Only(r.site, done), names)
  {
    var b, g := r.before + Only(r.site, done), Safe(r, names, level);
    OverlayClosed(r, names, done, level);
    ReachedIsClosed(r.before, names);
    forall p | p in b && names.rank(p) == 2 ensures Served(b, b[p]) {
      if p in done { SafeSite(r, names, level, p); }
      ServedByClosed(b, b[p], g);
    }
  }

  /** While uploading: everything uploaded so far, and everything of lower rank than the latest, is the site's. */
  lemma PutMoment(r: Run, names: Naming, k: nat)
    requires Publishable(r, names) && k <= |r.puts|
    ensures Held(At(r, k), names)
  {
    AfterPuts(r.before, r.puts, r.deletes, k, r.site);
    DoneIsLevelled(r, names, k);
    OverlayServes(r, names, Members(r.puts[..k]), Level(r, k, names));
  }

  /** The whole site is in place. */
  ghost predicate Uploaded(r: Run, names: Naming, done: set<Path>) {
    && done <= r.site.Keys
    && forall p :: p in r.site ==> p in done || (names.rank(p) == 0 && p in r.before)
  }

  lemma RemainderClosed(r: Run, names: Naming, done: set<Path>, gone: set<Path>)
    requires Publishable(r, names) && Uploaded(r, names, done) && gone !! r.site.Keys
    ensures Closed((r.before + Only(r.site, done)) - gone, r.site.Keys)
  {
    var b := (r.before + Only(r.site, done)) - gone;
    forall p | p in r.site ensures p in b && b[p].refs <= r.site.Keys {
      if p !in done { NoRefs(r.before, names, p); }
    }
  }

  // ----- the deletes -----

  /** The bucket once everything is uploaded and nothing deleted. */
  ghost function Full(r: Run): Bucket
    requires forall p :: p in r.puts ==> p in r.site
  {
    At(r, |r.puts|)
  }

  /** An entry point the new site no longer has. */
  ghost predicate Dropped(r: Run, names: Naming, p: Path) {
    p in r.before && names.rank(p) == 2 && p !in r.site
  }

  /** Everything a client that holds f can be led to in b. */
  ghost predicate Leads(b: Bucket, f: File, q: Path) {
    exists w :: Follows(b, f, w) && w[|w| - 1] == q
  }

  ghost function LedTo(b: Bucket, f: File): set<Path> {
    set q | q in b && Leads(b, f, q)
  }

  lemma LedToIsClosed(b: Bucket, f: File)
    requires Served(b, f)
    ensures Closed(b, LedTo(b, f)) && f.refs <= LedTo(b, f)
  {
    forall q | q in f.refs ensures q in LedTo(b, f) {
      FirstStep(b, f, q);
      LedBy(b, f, [q]);
    }
    forall q, r | q in LedTo(b, f) && r in b[q].refs ensures r in LedTo(b, f) {
      var w :| Follows(b, f, w) && w[|w| - 1] == q;
      NextStep(b, f, w, r);
      LedBy(b, f, w + [r]);
    }
  }

  lemma LedBy(b: Bucket, f: File, w: seq<Path>)
    requires Follows(b, f, w) && Served(b, f)
    ensures w[|w| - 1] in LedTo(b, f)
  {
    assert Leads(b, f, w[|w| - 1]);
  }

  /** A client led to something that has been deleted is not served. */
  lemma {:induction false} NotLedToGone(b: Bucket, f: File, gone: set<Path>, w: seq<Path>)
    requires Served(b - gone, f) && Follows(b, f, w)
    ensures w[|w| - 1] !in gone && Follows(b - gone, f, w)
  {
    if |w| > 1 {
      var v := w[..|w| - 1];
      assert forall k :: 0 <= k < |v| ==> v[k] == w[k];
      NotLedToGone(b, f, gone, v);
    }
    assert w[|w| - 1] in b - gone;
  }

  /** With some paths gone, a client is served exactly if nothing it is led to is among them. */
  lemma DroppedServedExactly(b: Bucket, f: File, gone: set<Path>)
    requires Served(b, f)
    ensures Served(b - gone, f) <==> LedTo(b, f) !! gone
  {
    if LedTo(b, f) !! gone {
      LedToIsClosed(b, f);
      ServedByClosed(b - gone, f, LedTo(b, f));
    }
    if Served(b - gone, f) {
      forall q | q in LedTo(b, f) ensures q !in gone {
        var w :| Follows(b, f, w) && w[|w| - 1] == q;
        NotLedToGone(b, f, gone, w);
      }
    }
  }

  lemma FullBucket(r: Run, names: Naming)
    requires Publishable(r, names)
    ensures Full(r) == r.before + Only(r.site, Members(r.puts))
    ensures Uploaded(r, names, Members(r.puts)) && Held(Full(r), names)
  {
    FullIsOverlay(r);
    assert Held(Full(r), names) by { PutMoment(r, names, |r.puts|); }
  }

  lemma FullIsOverlay(r: Run)
    requires forall p :: p in r.puts ==> p in r.site
    ensures Full(r) == r.before + Only(r.site, Members(r.puts))
  {
    AfterPuts(r.before, r.puts, r.deletes, |r.puts|, r.site);
    assert r.puts[..|r.puts|] == r.puts;
  }

  /** The uploads leave a dropped entry point alone. */
  lemma DroppedStays(r: Run, names: Naming, p: Path)
    requires Publishable(r, names) && Dropped(r, names, p)
    ensures p in Full(r) && Full(r)[p] == r.before[p] && Served(Full(r), r.before[p])
  {
    FullBucket(r, names);
  }

  lemma AfterKDeletes(r: Run, names: Naming, k: nat)
    requires Publishable(r, names) && k <= |r.deletes|
    ensures At(r, |r.puts| + k) == Full(r) - Members(r.deletes[..k])
    ensures Members(r.deletes[..k]) !! r.site.Keys
  {
    AfterDeletes(r.before, r.puts, r.deletes, k, r.site);
    FullBucket(r, names);
  }

  /** After k deletes, p is gone too or is no dropped entry point, or it leads to nothing that is gone. */
  ghost predicate Intact(r: Run, names: Naming, k: nat, p: Path)
    requires (forall q :: q in r.puts ==> q in r.site) && k <= |r.deletes|
  {
    Dropped(r, names, p) && p !in r.deletes[..k] ==> LedTo(Full(r), r.before[p]) !! Members(r.deletes[..k])
  }

  /**
   * At every moment of the deletes, exactly: the bucket serves its clients if and only if every dropped entry
   * point still there leads to nothing that is already gone.
   */
  lemma DeleteMomentExactly(r: Run, names: Naming, k: nat)
    requires Publishable(r, names) && k <= |r.deletes|
    ensures Serves(At(r, |r.puts| + k), names) <==> forall p :: Intact(r, names, k, p)
  {
    AfterKDeletes(r, names, k);
    FullBucket(r, names);
    var gone := Members(r.deletes[..k]);
    var b := Full(r) - gone;
    forall p | p in b && names.rank(p) == 2 && p in r.site ensures Served(b, b[p]) {
      KeptEntryServed(r, names, gone, p);
    }
    forall p | Dropped(r, names, p) && p !in gone ensures p in b && (Served(b, b[p]) <==> Intact(r, names, k, p)) {
      DroppedStays(r, names, p);
      DroppedServedExactly(Full(r), r.before[p], gone);
    }
  }

  /** An entry point of the site is served throughout the deletes. */
  lemma KeptEntryServed(r: Run, names: Naming, gone: set<Path>, p: Path)
    requires Publishable(r, names) && Uploaded(r, names, Members(r.puts)) && gone !! r.site.Keys
    requires p in r.site && names.rank(p) == 2
    ensures var b := (r.before + Only(r.site, Members(r.puts))) - gone; p in b && Served(b, b[p])
  {
    var b := (r.before + Only(r.site, Members(r.puts))) - gone;
    RemainderClosed(r, names, Members(r.puts), gone);
    assert p in Members(r.puts) && b[p] == r.site[p];
    ServedByClosed(b, b[p], r.site.Keys);
  }

  /** Every dropped entry point is deleted before anything it leads to, which a publisher can read off the plan. */
  ghost predicate EntriesGoFirst(r: Run, names: Naming)
    requires forall p :: p in r.puts ==> p in r.site
  {
    forall p, i :: Dropped(r, names, p) && 0 <= i < |r.deletes| && r.deletes[i] in LedTo(Full(r), r.before[p]) ==>
      p in r.deletes[..i]
  }

  /** An entry point never leads to itself. */
  lemma NeverToItself(b: Bucket, names: Naming, p: Path)
    requires Descending(b, names) && p in b && names.rank(p) == 2
    ensures p !in LedTo(b, b[p])
  {
    forall w | Follows(b, b[p], w) ensures w[|w| - 1] != p { Descends(b, names, p, w); }
  }

  lemma {:induction false} Descends(b: Bucket, names: Naming, p: Path, w: seq<Path>)
    requires Descending(b, names) && p in b && Follows(b, b[p], w)
    ensures Place(names, w[|w| - 1]) < Place(names, p)
  {
    if |w| > 1 {
      var v := w[..|w| - 1];
      assert forall k :: 0 <= k < |v| ==> v[k] == w[k];
      Descends(b, names, p, v);
      assert w[|w| - 1] in b[v[|v| - 1]].refs;
    }
  }

  ghost predicate ServesAt(r: Run, names: Naming, k: nat)
    requires forall p :: p in r.puts ==> p in r.site
  {
    k <= |r.puts| + |r.deletes| ==> Serves(At(r, k), names)
  }

  lemma FirstMeansServed(r: Run, names: Naming, k: nat)
    requires Publishable(r, names) && EntriesGoFirst(r, names) && k <= |r.deletes|
    ensures Serves(At(r, |r.puts| + k), names)
  {
    DeleteMomentExactly(r, names, k);
    forall p ensures Intact(r, names, k, p) {
      forall q | Dropped(r, names, p) && p !in r.deletes[..k] && q in r.deletes[..k]
        ensures q !in LedTo(Full(r), r.before[p])
      {
        var i :| 0 <= i < k && r.deletes[i] == q;
        assert p !in r.deletes[..i];
      }
    }
  }

  lemma IntactMeans(r: Run, names: Naming, k: nat, p: Path, q: Path)
    requires (forall x :: x in r.puts ==> x in r.site) && k <= |r.deletes| && Intact(r, names, k, p)
    requires Dropped(r, names, p) && q in r.deletes[..k] && q in LedTo(Full(r), r.before[p])
    ensures p in r.deletes[..k]
  {
  }

  lemma ServingIsIntact(r: Run, names: Naming, k: nat, p: Path)
    requires Publishable(r, names) && k <= |r.deletes| && Serves(At(r, |r.puts| + k), names)
    ensures Intact(r, names, k, p)
  {
    DeleteMomentExactly(r, names, k);
  }

  lemma ServedMeansGone(r: Run, names: Naming, p: Path, i: nat)
    requires Publishable(r, names) && Dropped(r, names, p) && i < |r.deletes|
    requires r.deletes[i] in LedTo(Full(r), r.before[p]) && Serves(At(r, |r.puts| + (i + 1)), names)
    ensures p in r.deletes[..i] || p == r.deletes[i]
  {
    var k := i + 1;
    ServingIsIntact(r, names, k, p);
    GoneSoFar(r.deletes, i);
    IntactMeans(r, names, k, p, r.deletes[i]);
  }

  lemma EntryIsNotLed(r: Run, names: Naming, p: Path)
    requires Publishable(r, names) && Dropped(r, names, p)
    ensures p !in LedTo(Full(r), r.before[p])
  {
    FullBucket(r, names);
    DroppedStays(r, names, p);
    NeverToItself(Full(r), names, p);
  }

  lemma GoneSoFar(deletes: seq<Path>, i: nat)
    requires i < |deletes|
    ensures forall p :: p in deletes[..i + 1] <==> p in deletes[..i] || p == deletes[i]
  {
    assert deletes[..i + 1] == deletes[..i] + [deletes[i]];
  }

  /**
   * A run serves its clients at every moment exactly when every entry point it drops is deleted before
   * anything that entry point leads to. The uploads never break anything.
   */
  lemma ServesThroughoutExactly(r: Run, names: Naming)
    requires Publishable(r, names)
    ensures (forall k: nat :: ServesAt(r, names, k)) <==> EntriesGoFirst(r, names)
  {
    if EntriesGoFirst(r, names) {
      forall k: nat | k <= |r.puts| + |r.deletes| ensures ServesAt(r, names, k) {
        EveryMomentServes(r, names, k);
      }
    }
    if forall k: nat :: ServesAt(r, names, k) {
      forall p, i | Dropped(r, names, p) && 0 <= i < |r.deletes| && r.deletes[i] in LedTo(Full(r), r.before[p])
        ensures p in r.deletes[..i]
      {
        assert ServesAt(r, names, |r.puts| + (i + 1));
        ServedMeansGone(r, names, p, i);
        EntryIsNotLed(r, names, p);
      }
    }
  }

  lemma DescendingThroughout(r: Run, names: Naming, k: nat)
    requires Publishable(r, names) && k <= |r.puts| + |r.deletes|
    ensures Descending(At(r, k), names)
  {
    if k <= |r.puts| { PutMoment(r, names, k); } else { DescendingWhileDeleting(r, names, k - |r.puts|); }
  }

  lemma DescendingWhileDeleting(r: Run, names: Naming, k: nat)
    requires Publishable(r, names) && k <= |r.deletes|
    ensures Descending(At(r, |r.puts| + k), names)
  {
    AfterKDeletes(r, names, k);
    FullBucket(r, names);
    StillDescending(Full(r), Members(r.deletes[..k]), names);
  }

  lemma StillDescending(b: Bucket, gone: set<Path>, names: Naming)
    requires Descending(b, names)
    ensures Descending(b - gone, names)
  {
  }

  lemma EveryDeleteServes(r: Run, names: Naming, k: nat)
    requires Publishable(r, names) && EntriesGoFirst(r, names) && k <= |r.deletes|
    ensures Held(At(r, |r.puts| + k), names)
  {
    assert Serves(At(r, |r.puts| + k), names) by { FirstMeansServed(r, names, k); }
    assert Descending(At(r, |r.puts| + k), names) by { DescendingWhileDeleting(r, names, k); }
  }

  /** After every step of such a run, whatever a client reads leads only to what is there. */
  lemma EveryMomentServes(r: Run, names: Naming, k: nat)
    requires Publishable(r, names) && k <= |r.puts| + |r.deletes|
    requires k <= |r.puts| || EntriesGoFirst(r, names)
    ensures Held(At(r, k), names)
  {
    if k <= |r.puts| {
      PutMoment(r, names, k);
    } else {
      var d: nat := k - |r.puts|;
      assert At(r, k) == At(r, |r.puts| + d);
      EveryDeleteServes(r, names, d);
    }
  }

  /** Deletes go by name, each path once or more. */
  lemma DeletedByName(r: Run, names: Naming, i: nat, j: nat)
    requires Planned(r, names) && i <= j < |r.deletes|
    ensures names.codeUnits(r.deletes[i]) <= names.codeUnits(r.deletes[j])
  {
    assert Ascending(Deletes(r.local, r.remote, names), names.codeUnits);
  }

  /** A file the dropped entry point p leads to that the new site does not have either. */
  ghost predicate LostWith(r: Run, names: Naming, p: Path, q: Path)
    requires forall x :: x in r.puts ==> x in r.site
  {
    Dropped(r, names, p) && q in LedTo(Full(r), r.before[p]) && q in r.before && q !in r.site
  }

  ghost predicate PrecedeByName(r: Run, names: Naming)
    requires forall p :: p in r.puts ==> p in r.site
  {
    forall p, q :: LostWith(r, names, p, q) ==> names.codeUnits(p) < names.codeUnits(q)
  }

  lemma LostAfterEntry(r: Run, names: Naming, p: Path, i: nat)
    requires Planned(r, names) && Publishable(r, names) && Injective(names.codeUnits)
    requires Dropped(r, names, p) && i < |r.deletes| && r.deletes[i] in LedTo(Full(r), r.before[p])
    ensures LostWith(r, names, p, r.deletes[i])
    ensures p in r.deletes[..i] <==> names.codeUnits(p) < names.codeUnits(r.deletes[i])
  {
    EntryIsNotLed(r, names, p);
    PlaceByName(r, names, p, i);
  }

  lemma LostIsDeleted(r: Run, names: Naming, p: Path, q: Path) returns (i: nat)
    requires Orders(r, names) && LostWith(r, names, p, q)
    ensures i < |r.deletes| && r.deletes[i] == q
  {
    i :| 0 <= i < |r.deletes| && r.deletes[i] == q;
  }

  /**
   * What that order comes to, before anything is done: every dropped entry point must precede, in code units,
   * everything it leads to that the new site does not have.
   */
  lemma GoesFirstByName(r: Run, names: Naming)
    requires Planned(r, names) && Publishable(r, names) && Injective(names.codeUnits)
    ensures EntriesGoFirst(r, names) <==> PrecedeByName(r, names)
  {
    if EntriesGoFirst(r, names) {
      forall p, q | LostWith(r, names, p, q) ensures names.codeUnits(p) < names.codeUnits(q) {
        var i := LostIsDeleted(r, names, p, q);
        LostAfterEntry(r, names, p, i);
      }
    }
    if PrecedeByName(r, names) {
      forall p, i | Dropped(r, names, p) && 0 <= i < |r.deletes| && r.deletes[i] in LedTo(Full(r), r.before[p])
        ensures p in r.deletes[..i]
      {
        LostAfterEntry(r, names, p, i);
      }
    }
  }

  lemma PlaceByName(r: Run, names: Naming, p: Path, i: nat)
    requires Planned(r, names) && Injective(names.codeUnits)
    requires p in r.deletes && i < |r.deletes| && p != r.deletes[i]
    ensures p in r.deletes[..i] <==> names.codeUnits(p) < names.codeUnits(r.deletes[i])
  {
    var j: nat :| j < |r.deletes| && r.deletes[j] == p;
    if i <= j { DeletedByName(r, names, i, j); } else { DeletedByName(r, names, j, i); }
    forall h | 0 <= h < i && r.deletes[h] == p ensures names.codeUnits(p) < names.codeUnits(r.deletes[i]) {
      DeletedByName(r, names, h, i);
    }
  }

  /** In particular a site that still has every old entry point is published without a gap. */
  lemma KeptEntriesGoFirst(r: Run, names: Naming)
    requires Orders(r, names) && EntriesKept(r.before, r.site, names)
    ensures EntriesGoFirst(r, names)
  {
  }

  /** Until the first delete, a client that read an entry point before the run began can still follow it. */
  lemma OldEntriesFollowable(r: Run, names: Naming, k: nat, p: Path)
    requires Publishable(r, names) && k <= |r.puts|
    requires p in r.before && names.rank(p) == 2
    ensures Served(At(r, k), r.before[p])
  {
    AfterPuts(r.before, r.puts, r.deletes, k, r.site);
    DoneIsLevelled(r, names, k);
    OverlayClosed(r, names, Members(r.puts[..k]), Level(r, k, names));
    ReachedIsClosed(r.before, names);
    ServedByClosed(At(r, k), r.before[p], Safe(r, names, Level(r, k, names)));
  }

  /** From then on exactly as long as nothing it leads to has been deleted. */
  lemma OldEntryServedExactly(r: Run, names: Naming, k: nat, p: Path)
    requires Publishable(r, names) && k <= |r.deletes|
    requires p in r.before && names.rank(p) == 2
    ensures Served(At(r, |r.puts| + k), r.before[p]) <==> LedTo(Full(r), r.before[p]) !! Members(r.deletes[..k])
  {
    AfterKDeletes(r, names, k);
    OldEntriesFollowable(r, names, |r.puts|, p);
    DroppedServedExactly(Full(r), r.before[p], Members(r.deletes[..k]));
  }

  // ----- a first publication -----

  /** Everything the site names it contains, in whatever order it is uploaded. */
  ghost predicate Whole(site: Bucket) {
    forall p :: p in site ==> site[p].refs <= site.Keys
  }

  /** What an entry point leads to is uploaded before it. */
  ghost predicate LeadsBack(site: Bucket, names: Naming) {
    forall p, q :: p in site && names.rank(p) == 2 && q in LedTo(site, site[p]) && q != p ==>
      Place(names, q) < Place(names, p)
  }

  lemma FirstMoment(r: Run, names: Naming, k: nat)
    requires Orders(r, names) && r.before == map[] && k <= |r.puts|
    ensures Members(r.puts[..k]) <= r.site.Keys
    ensures At(r, k) == r.site - (r.site.Keys - Members(r.puts[..k]))
  {
    AfterPuts(r.before, r.puts, r.deletes, k, r.site);
  }

  /** After k uploads into an empty bucket, exactly the entry points uploaded so far have to be served. */
  lemma FirstMomentExactly(r: Run, names: Naming, k: nat)
    requires Orders(r, names) && r.before == map[] && Whole(r.site) && k <= |r.puts|
    ensures Serves(At(r, k), names) <==>
      forall p :: p in r.puts[..k] && names.rank(p) == 2 ==> LedTo(r.site, r.site[p]) <= Members(r.puts[..k])
  {
    FirstMoment(r, names, k);
    var done := Members(r.puts[..k]);
    forall p | p in done ensures Served(At(r, k), r.site[p]) <==> LedTo(r.site, r.site[p]) <= done {
      ServedByClosed(r.site, r.site[p], r.site.Keys);
      DroppedServedExactly(r.site, r.site[p], r.site.Keys - done);
    }
  }

  lemma UploadedFirst(r: Run, names: Naming, p: Path, q: Path, k: nat)
    requires Orders(r, names) && r.before == map[] && k <= |r.puts|
    requires p in r.puts[..k] && q in r.site && Place(names, q) < Place(names, p)
    ensures q in r.puts[..k]
  {
    var i: nat :| i < k && r.puts[i] == p;
    assert q in r.puts;
    var j: nat :| j < |r.puts| && r.puts[j] == q;
    assert j < i;
  }

  /**
   * The first publication of any site whatsoever: no upload shows a client a name that leads nowhere exactly if
   * every entry point comes after all it leads to, entry points it names itself included.
   */
  lemma FirstPublishExactly(r: Run, names: Naming)
    requires Planned(r, names) && Lawful(names) && r.before == map[] && Whole(r.site) && Injective(UploadKey(names))
    ensures (forall p :: p in r.puts ==> p in r.site) &&
      ((forall k: nat :: k <= |r.puts| ==> Serves(At(r, k), names)) <==> LeadsBack(r.site, names))
  {
    PlanOrders(r, names);
    if forall k: nat :: k <= |r.puts| ==> Serves(At(r, k), names) {
      forall p, q | p in r.site && names.rank(p) == 2 && q in LedTo(r.site, r.site[p]) && q != p
        ensures Place(names, q) < Place(names, p)
      {
        LedComesFirst(r, names, p, q);
      }
    }
    if LeadsBack(r.site, names) {
      forall k: nat | k <= |r.puts| ensures Serves(At(r, k), names) { ServesSoFar(r, names, k); }
    }
  }

  lemma ServesSoFar(r: Run, names: Naming, k: nat)
    requires Orders(r, names) && r.before == map[] && Whole(r.site) && k <= |r.puts| && LeadsBack(r.site, names)
    ensures Serves(At(r, k), names)
  {
    FirstMomentExactly(r, names, k);
    forall p, q | p in r.puts[..k] && names.rank(p) == 2 && q in LedTo(r.site, r.site[p]) ensures q in r.puts[..k] {
      if q != p { UploadedFirst(r, names, p, q, k); }
    }
  }

  lemma LedComesFirst(r: Run, names: Naming, p: Path, q: Path)
    requires Orders(r, names) && r.before == map[] && Whole(r.site) && Injective(UploadKey(names))
    requires forall k: nat :: k <= |r.puts| ==> Serves(At(r, k), names)
    requires p in r.site && names.rank(p) == 2 && q in LedTo(r.site, r.site[p]) && q != p
    ensures Place(names, q) < Place(names, p)
  {
    var i: nat :| i < |r.puts| && r.puts[i] == p;
    FirstMomentExactly(r, names, i + 1);
    assert p in r.puts[..i + 1] by { assert r.puts[..i + 1][i] == p; }
    NotAfter(r.puts, i, q, names);
    assert UploadKey(names)(q) != UploadKey(names)(p);
  }

  lemma NotAfter(puts: seq<Path>, i: nat, q: Path, names: Naming)
    requires i < |puts| && q in puts[..i + 1]
    requires forall h, j :: 0 <= h <= j < |puts| ==> Place(names, puts[h]) <= Place(names, puts[j])
    ensures Place(names, q) <= Place(names, puts[i])
  {
    var j: nat :| j < i + 1 && puts[..i + 1][j] == q;
  }

  // ----- a run that completes -----

  /** Packages never change under a name. */
  ghost predicate Immutable(r: Run, names: Naming) {
    forall p :: p in r.before && p in r.site && names.rank(p) == 0 ==> r.before[p] == r.site[p]
  }

  /**
   * A run that completes leaves exactly the paths of the site, whatever was there before; and exactly its
   * contents if and only if packages are immutable.
   */
  lemma CompletedIsSite(r: Run, names: Naming)
    requires Orders(r, names)
    ensures At(r, |r.puts| + |r.deletes|).Keys == r.site.Keys
    ensures At(r, |r.puts| + |r.deletes|) == r.site <==> Immutable(r, names)
  {
    AtTheEnd(r);
    OrderedSets(r, names);
    Remainder(r, Members(r.puts), Members(r.deletes), names);
  }

  lemma AtTheEnd(r: Run)
    requires forall p :: p in r.puts ==> p in r.site
    ensures At(r, |r.puts| + |r.deletes|) == (r.before + Only(r.site, Members(r.puts))) - Members(r.deletes)
  {
    AfterDeletes(r.before, r.puts, r.deletes, |r.deletes|, r.site);
    assert r.deletes[..|r.deletes|] == r.deletes;
  }

  lemma OrderedSets(r: Run, names: Naming)
    requires Orders(r, names)
    ensures Members(r.puts) == set p | p in r.site && (names.rank(p) > 0 || p !in r.before)
    ensures Members(r.deletes) == r.before.Keys - r.site.Keys
  {
  }

  lemma Remainder(r: Run, done: set<Path>, gone: set<Path>, names: Naming)
    requires done == set p | p in r.site && (names.rank(p) > 0 || p !in r.before)
    requires gone == r.before.Keys - r.site.Keys
    ensures var b := (r.before + Only(r.site, done)) - gone;
      b.Keys == r.site.Keys && (b == r.site <==> Immutable(r, names))
  {
    var b := (r.before + Only(r.site, done)) - gone;
    assert b.Keys == r.site.Keys;
    assert forall p :: p in r.site ==> b[p] == if p in done then r.site[p] else r.before[p];
    if b == r.site {
      forall p | p in r.before && p in r.site && names.rank(p) == 0 ensures r.before[p] == r.site[p] {
        assert b[p] == r.site[p];
      }
    }
  }

  // ----- crashes and restarts -----

  /** Every moment of the run serves. */
  ghost predicate AlwaysServes(r: Run, names: Naming) {
    (forall p :: p in r.puts ==> p in r.site) && forall k: nat :: ServesAt(r, names, k)
  }

  ghost predicate GoesFirst(r: Run, names: Naming) {
    (forall p :: p in r.puts ==> p in r.site) && EntriesGoFirst(r, names)
  }

  /** Runs in a row: each starts from what the one before left after cuts[i] steps, with any newer site. */
  ghost predicate InARow(runs: seq<Run>, cuts: seq<nat>, names: Naming) {
    && |runs| == |cuts| + 1 && Lawful(names) && Held(runs[0].before, names)
    && (forall i :: 0 <= i < |runs| ==> Orders(runs[i], names) && Built(runs[i].site, names))
    && (forall i :: 0 <= i < |cuts| ==> Leaves(runs[i], cuts[i], runs[i + 1].before))
  }

  ghost predicate Leaves(r: Run, k: nat, b: Bucket) {
    (forall p :: p in r.puts ==> p in r.site) && k <= |r.puts| + |r.deletes| && b == At(r, k)
  }

  lemma Restarts(r: Run, k: nat, next: Run, names: Naming)
    requires Publishable(r, names) && Leaves(r, k, next.before) && Serves(next.before, names)
    requires Orders(next, names) && Built(next.site, names)
    ensures Publishable(next, names)
  {
    DescendingThroughout(r, names, k);
  }

  /** As long as no run before it left a broken bucket, every run starts from one that serves its clients. */
  lemma {:induction false} RestartsArePublishable(runs: seq<Run>, cuts: seq<nat>, names: Naming, i: nat)
    requires InARow(runs, cuts, names) && i < |runs|
    requires forall j :: 0 <= j <= i ==> Serves(runs[j].before, names)
    ensures Publishable(runs[i], names)
  {
    assert Serves(runs[i].before, names);
    if i > 0 {
      assert Publishable(runs[i - 1], names) by { RestartsArePublishable(runs, cuts, names, i - 1); }
      NextInRow(runs, cuts, names, i);
    } else {
      FirstOfRow(runs, cuts, names);
    }
  }

  lemma NextInRow(runs: seq<Run>, cuts: seq<nat>, names: Naming, i: nat)
    requires InARow(runs, cuts, names) && 0 < i < |runs|
    requires Publishable(runs[i - 1], names) && Serves(runs[i].before, names)
    ensures Publishable(runs[i], names)
  {
    var last, next, cut := runs[i - 1], runs[i], cuts[i - 1];
    assert Orders(next, names) && Built(next.site, names) && Leaves(last, cut, next.before) by {
      RowFacts(runs, cuts, names, i);
    }
    Restarts(last, cut, next, names);
  }

  lemma LeftServing(r: Run, k: nat, b: Bucket, names: Naming)
    requires AlwaysServes(r, names) && Leaves(r, k, b)
    ensures Serves(b, names)
  {
    assert ServesAt(r, names, k);
  }

  lemma RowFacts(runs: seq<Run>, cuts: seq<nat>, names: Naming, i: nat)
    requires InARow(runs, cuts, names) && 0 < i < |runs|
    ensures Orders(runs[i], names) && Built(runs[i].site, names) && Leaves(runs[i - 1], cuts[i - 1], runs[i].before)
  {
    assert runs[i - 1 + 1] == runs[i];
  }

  lemma FirstOfRow(runs: seq<Run>, cuts: seq<nat>, names: Naming)
    requires InARow(runs, cuts, names)
    ensures Publishable(runs[0], names)
  {
  }

  /** Two lists of answers that agree wherever the first has been yes so far are all yes together. */
  lemma {:induction false} AllYesTogether(a: seq<bool>, b: seq<bool>)
    requires |a| == |b|
    requires forall m :: 0 <= m < |a| && (forall j :: 0 <= j < m ==> a[j]) ==> (a[m] <==> b[m])
    ensures (forall i :: 0 <= i < |a| ==> a[i]) <==> (forall i :: 0 <= i < |b| ==> b[i])
  {
    if a != [] {
      var n := |a| - 1;
      AllYesTogether(a[..n], b[..n]);
      assert (forall i :: 0 <= i < n ==> a[..n][i]) <==> (forall i :: 0 <= i < n ==> a[i]);
      assert (forall i :: 0 <= i < n ==> b[..n][i]) <==> (forall i :: 0 <= i < n ==> b[i]);
    }
  }

  lemma RowServesExactly(runs: seq<Run>, cuts: seq<nat>, names: Naming, m: nat)
    requires InARow(runs, cuts, names) && m < |runs|
    requires forall j :: 0 <= j < m ==> AlwaysServes(runs[j], names)
    ensures AlwaysServes(runs[m], names) <==> GoesFirst(runs[m], names)
  {
    forall j | 0 <= j <= m ensures Serves(runs[j].before, names) { StartsServing(runs, cuts, names, j); }
    RestartsArePublishable(runs, cuts, names, m);
    ServesThroughoutExactly(runs[m], names);
  }

  lemma StartsServing(runs: seq<Run>, cuts: seq<nat>, names: Naming, j: nat)
    requires InARow(runs, cuts, names) && j < |runs| && (j > 0 ==> AlwaysServes(runs[j - 1], names))
    ensures Serves(runs[j].before, names)
  {
    if j > 0 {
      RowFacts(runs, cuts, names, j);
      LeftServing(runs[j - 1], cuts[j - 1], runs[j].before, names);
    }
  }

  // ----- the same of the plans the publisher makes -----

  /** The run carried out k steps of its plan and left bucket b. */
  ghost predicate StoppedAfter(r: Run, k: nat, b: Bucket, names: Naming) {
    Stopped(SyncPlan(r.local, r.remote, names), r.before, r.site, k, b)
  }

  ghost predicate Stopped(plan: seq<SyncStep>, before: Bucket, site: Bucket, k: nat, b: Bucket) {
    k <= |plan| && Uploads(plan[..k], site) && b == After(before, plan[..k], site)
  }

  /** Whatever bucket a run can leave, at whatever step it stops, serves its clients. */
  ghost predicate NeverBreaks(r: Run, names: Naming) {
    forall k: nat, b {:trigger StoppedAfter(r, k, b, names)} :: StoppedAfter(r, k, b, names) ==> Serves(b, names)
  }

  /** A history of runs, each but the last stopped after cuts[i] steps, the next starting from what was left. */
  ghost predicate History(runs: seq<Run>, cuts: seq<nat>, names: Naming) {
    && |runs| == |cuts| + 1 && Lawful(names) && Held(runs[0].before, names)
    && (forall i :: 0 <= i < |runs| ==> Planned(runs[i], names) && Built(runs[i].site, names))
    && (forall i :: 0 <= i < |cuts| ==> StoppedAfter(runs[i], cuts[i], runs[i + 1].before, names))
  }

  lemma StepsStop(r: Run, k: nat, b: Bucket)
    requires forall p :: p in r.puts ==> p in r.site
    ensures Stopped(Steps(r.puts, r.deletes), r.before, r.site, k, b) <==> Leaves(r, k, b)
  {
    AfterPuts(r.before, r.puts, r.deletes, 0, r.site);
  }

  lemma StoppedIsLeft(r: Run, k: nat, b: Bucket, names: Naming)
    requires Planned(r, names) && Lawful(names)
    ensures Orders(r, names) && (StoppedAfter(r, k, b, names) <==> Leaves(r, k, b))
  {
    PlanOrders(r, names);
    StepsStop(r, k, b);
  }

  lemma NeverBreaksIsServing(r: Run, names: Naming)
    requires Planned(r, names) && Lawful(names)
    ensures NeverBreaks(r, names) <==> AlwaysServes(r, names)
  {
    PlanOrders(r, names);
    if NeverBreaks(r, names) {
      forall k: nat | k <= |r.puts| + |r.deletes| ensures ServesAt(r, names, k) {
        StoppedIsLeft(r, k, At(r, k), names);
        assert StoppedAfter(r, k, At(r, k), names);
      }
    }
    if AlwaysServes(r, names) {
      forall k: nat, b {:trigger StoppedAfter(r, k, b, names)} | StoppedAfter(r, k, b, names) ensures Serves(b, names) {
        StoppedIsLeft(r, k, b, names);
        assert ServesAt(r, names, k);
      }
    }
  }

  lemma HistoryIsARow(runs: seq<Run>, cuts: seq<nat>, names: Naming)
    requires History(runs, cuts, names)
    ensures InARow(runs, cuts, names)
  {
    forall i | 0 <= i < |runs| ensures Orders(runs[i], names) { PlanOrders(runs[i], names); }
    forall i | 0 <= i < |cuts| ensures Leaves(runs[i], cuts[i], runs[i + 1].before) {
      StoppedIsLeft(runs[i], cuts[i], runs[i + 1].before, names);
    }
  }

  /**
   * However often publishing crashed and was started over, perhaps with a newer site: no moment of any run
   * breaks a client exactly when every run deletes the entry points it drops before what they lead to.
   */
  lemma CrashesNeverBreak(runs: seq<Run>, cuts: seq<nat>, names: Naming)
    requires History(runs, cuts, names)
    ensures (forall i :: 0 <= i < |runs| ==> NeverBreaks(runs[i], names)) <==>
      (forall i :: 0 <= i < |runs| ==> GoesFirst(runs[i], names))
  {
    var serve, first := Answers(runs, names);
    AnswersAgree(runs, cuts, names, serve, first);
    AllYesTogether(serve, first);
    AnswersSay(runs, names, serve, first);
  }

  ghost predicate Answer(runs: seq<Run>, names: Naming, serve: seq<bool>, first: seq<bool>) {
    && |serve| == |first| == |runs|
    && (forall i :: 0 <= i < |runs| ==> (serve[i] <==> NeverBreaks(runs[i], names)))
    && (forall i :: 0 <= i < |runs| ==> (first[i] <==> GoesFirst(runs[i], names)))
  }

  lemma Answers(runs: seq<Run>, names: Naming) returns (serve: seq<bool>, first: seq<bool>)
    ensures Answer(runs, names, serve, first)
  {
    serve := seq(|runs|, (i: nat) requires i < |runs| => NeverBreaks(runs[i], names));
    first := seq(|runs|, (i: nat) requires i < |runs| => GoesFirst(runs[i], names));
  }

  lemma AnswersSay(runs: seq<Run>, names: Naming, serve: seq<bool>, first: seq<bool>)
    requires Answer(runs, names, serve, first)
    requires (forall i :: 0 <= i < |serve| ==> serve[i]) <==> (forall i :: 0 <= i < |first| ==> first[i])
    ensures (forall i :: 0 <= i < |runs| ==> NeverBreaks(runs[i], names)) <==>
      (forall i :: 0 <= i < |runs| ==> GoesFirst(runs[i], names))
  {
  }

  lemma AnswersAgree(runs: seq<Run>, cuts: seq<nat>, names: Naming, serve: seq<bool>, first: seq<bool>)
    requires History(runs, cuts, names) && Answer(runs, names, serve, first)
    ensures forall m :: 0 <= m < |serve| && (forall j :: 0 <= j < m ==> serve[j]) ==> (serve[m] <==> first[m])
  {
    forall m | 0 <= m < |runs| && (forall j :: 0 <= j < m ==> serve[j]) ensures serve[m] <==> first[m] {
      HistoryServesExactly(runs, cuts, names, m);
    }
  }

  /** The next run of a history in which nothing broke before. */
  lemma HistoryServesExactly(runs: seq<Run>, cuts: seq<nat>, names: Naming, m: nat)
    requires History(runs, cuts, names) && m < |runs|
    requires forall j :: 0 <= j < m ==> NeverBreaks(runs[j], names)
    ensures NeverBreaks(runs[m], names) <==> GoesFirst(runs[m], names)
  {
    HistoryIsARow(runs, cuts, names);
    forall j | 0 <= j < m ensures AlwaysServes(runs[j], names) { NeverBreaksIsServing(runs[j], names); }
    RowServesExactly(runs, cuts, names, m);
    NeverBreaksIsServing(runs[m], names);
  }

  /** And once a run completes, whatever it started from, the bucket holds exactly the paths of its site. */
  lemma LastRunWins(r: Run, names: Naming, b: Bucket)
    requires Planned(r, names) && Lawful(names) && StoppedAfter(r, |r.puts| + |r.deletes|, b, names)
    ensures |SyncPlan(r.local, r.remote, names)| == |r.puts| + |r.deletes|
    ensures b.Keys == r.site.Keys && (b == r.site <==> Immutable(r, names))
  {
    PlanOrders(r, names);
    StoppedIsLeft(r, |r.puts| + |r.deletes|, b, names);
    CompletedIsSite(r, names);
  }

  // ----- the run itself -----

  /** The bucket as the publisher changes it, one object at a time. */
  class Store {
    var objects: Bucket

    constructor (objects: Bucket)
      ensures this.objects == objects
    {
      this.objects := objects;
    }

    method Carry(step: SyncStep, site: Bucket)
      requires step.Put? ==> step.path in site
      modifies this
      ensures objects == Applied(old(objects), step, site)
    {
      match step
      case Put(path) => objects := objects[path := site[path]];
      case Delete(path) => objects := objects - {path};
    }
  }

  /** The loop over a plan, stopped after a given number of steps if it crashes there. */
  method CarryOut(store: Store, plan: seq<SyncStep>, site: Bucket, crashAfter: nat) returns (done: nat)
    requires Uploads(plan, site)
    modifies store
    ensures done <= |plan| && store.objects == After(old(store.objects), plan[..done], site)
    ensures done == crashAfter || (done < crashAfter && done == |plan|)
  {
    done := 0;
    while done < |plan| && done < crashAfter
      invariant done <= |plan| && done <= crashAfter
      invariant store.objects == After(old(store.objects), plan[..done], site)
    {
      OneMore(old(store.objects), plan, done, site);
      store.Carry(plan[done], site);
      done := done + 1;
    }
  }

  lemma PlanUploads(r: Run, names: Naming)
    requires Planned(r, names) && Lawful(names)
    ensures Uploads(SyncPlan(r.local, r.remote, names), r.site)
  {
    PlanOrders(r, names);
    AfterPuts(r.before, r.puts, r.deletes, 0, r.site);
  }

  /** `sync`: list, plan, carry out. A crash leaves exactly what a history is made of. */
  method Sync(store: Store, r: Run, names: Naming, crashAfter: nat) returns (done: nat)
    requires Planned(r, names) && Lawful(names) && store.objects == r.before
    modifies store
    ensures StoppedAfter(r, done, store.objects, names)
    ensures done < crashAfter ==> done == |SyncPlan(r.local, r.remote, names)|
  {
    PlanUploads(r, names);
    done := CarryOut(store, SyncPlan(r.local, r.remote, names), r.site, crashAfter);
  }
}
