/** The names the repository is laid out under: scripts/linux-packaging.ts and scripts/linux-repo.ts. */
module RepositoryLayout {
  import opened DistinctLists
  import opened RepositorySync
  import opened Sorting

  // ----- the rank of a path -----

  /** `path.split("/").pop()`. */
  function LastSegment(path: string): (name: string)
    ensures '/' !in name
    ensures name == path || (|name| < |path| && path[|path| - |name| - 1..] == "/" + name)
  {
    if path == "" || path[|path| - 1] == '/' then ""
    else
      assert path == path[..|path| - 1] + [path[|path| - 1]];
      LastSegment(path[..|path| - 1]) + [path[|path| - 1]]
  }

  /** What a dot matches. */
  predicate OneLine(s: string) {
    s != "" && forall c :: c in s ==> c != '\n' && c != '\r' && c != '\U{2028}' && c != '\U{2029}'
  }

  predicate Digits(s: string) {
    s != "" && forall c :: c in s ==> '0' <= c <= '9'
  }

  predicate Arch(s: string) { s == "amd64" || s == "arm64" || s == "x86_64" || s == "aarch64" }

  predicate Extension(s: string) { s == ".deb" || s == ".rpm" }

  ghost predicate CliPackage(name: string) {
    exists middle, ext :: OneLine(middle) && Extension(ext) && name == "atomic-agent_" + middle + ext
  }

  ghost predicate DesktopPackage(name: string) {
    exists major, minor, patch, arch, ext ::
      Digits(major) && Digits(minor) && Digits(patch) && Arch(arch) && Extension(ext)
      && name == "Atomic-Agent-" + major + "." + minor + "." + patch + "-" + arch + ext
  }

  ghost predicate IsPackageFile(name: string) { CliPackage(name) || DesktopPackage(name) }

  ghost function Rank(path: string): nat {
    var name := LastSegment(path);
    if IsPackageFile(name) then 0
    else if name == "Packages" || name == "Packages.gz" then 1
    else if "rpm/repodata/" <= path && !("repomd.xml" <= name) then 1
    else 2
  }

  lemma PackageEnds(name: string)
    requires IsPackageFile(name)
    ensures name != "" && (name[|name| - 1] == 'b' || name[|name| - 1] == 'm')
  {
  }

  lemma {:induction false} SegmentOf(dir: string, name: string)
    requires '/' !in name
    ensures LastSegment(dir + "/" + name) == name
  {
    var path := dir + "/" + name;
    if name == "" {
      assert path[|path| - 1] == '/';
    } else {
      var front, last := name[..|name| - 1], name[|name| - 1];
      SegmentOf(dir, front);
      assert name == front + [last] && path[..|path| - 1] == dir + "/" + front && path[|path| - 1] == last;
    }
  }

  // ----- the order of code units -----

  /** `p < q` as JavaScript compares strings, for strings without surrogate pairs. */
  ghost predicate Precedes(p: string, q: string) {
    p < q || exists k :: DifferAt(p, q, k)
  }

  predicate DifferAt(p: string, q: string, k: int) {
    0 <= k < |p| && k < |q| && p[..k] == q[..k] && p[k] < q[k]
  }

  const BASE: real := 1114113.0

  /** A string's place among all strings, below 1. */
  function Position(s: string): (x: real)
    ensures 0.0 <= x < 1.0
    ensures s != "" ==> x > 0.0
  {
    if s == "" then 0.0 else ((s[0] as int + 1) as real + Position(s[1..])) / BASE
  }

  lemma {:induction false} EarlierAt(p: string, q: string, k: nat)
    requires DifferAt(p, q, k)
    ensures Position(p) < Position(q)
  {
    if k > 0 {
      assert p[0] == p[..k][0] == q[..k][0] == q[0];
      assert p[1..][..k - 1] == p[..k][1..] && q[1..][..k - 1] == q[..k][1..];
      EarlierAt(p[1..], q[1..], k - 1);
    }
  }

  lemma {:induction false} PrefixEarlier(p: string, q: string)
    requires p < q
    ensures Position(p) < Position(q)
  {
    if p != "" {
      assert p[0] == q[0];
      PrefixEarlier(p[1..], q[1..]);
    }
  }

  lemma {:induction false} OneComesFirst(p: string, q: string, k: nat)
    requires p != q && k <= |p| && k <= |q| && p[..k] == q[..k]
    ensures Precedes(p, q) || Precedes(q, p)
    decreases |p| - k
  {
    if k < |p| && k < |q| {
      if p[k] == q[k] {
        assert p[..k + 1] == p[..k] + [p[k]] && q[..k + 1] == q[..k] + [q[k]];
        OneComesFirst(p, q, k + 1);
      } else {
        assert DifferAt(p, q, k) || DifferAt(q, p, k);
      }
    } else {
      assert p == p[..|p|] && q == q[..|q|];
    }
  }

  lemma PrecedesIsEarlier(p: string, q: string)
    requires Precedes(p, q)
    ensures Position(p) < Position(q)
  {
    if k: nat :| DifferAt(p, q, k) { EarlierAt(p, q, k); } else { PrefixEarlier(p, q); }
  }

  /** Positions order strings as code units do, and tell any two apart. */
  lemma PositionOrders(p: string, q: string)
    ensures Position(p) < Position(q) <==> Precedes(p, q)
    ensures Position(p) == Position(q) ==> p == q
  {
    if Precedes(p, q) { PrecedesIsEarlier(p, q); }
    if p != q {
      OneComesFirst(p, q, 0);
      if Precedes(q, p) { PrecedesIsEarlier(q, p); }
    }
  }

  /** The naming the publisher uses; only the locale's order is left open. */
  ghost function Actual(locale: Path -> real): (names: Naming)
    requires forall p :: 0.0 <= locale(p) < 1.0
    ensures Lawful(names) && Injective(names.codeUnits)
  {
    forall p, q ensures Position(p) == Position(q) ==> p == q { PositionOrders(p, q); }
    Naming(p => Rank(p), locale, p => Position(p))
  }

  // ----- the layout -----

  const RELEASE := "deb/dists/stable/Release"
  const IN_RELEASE := "deb/dists/stable/InRelease"
  const RELEASE_GPG := "deb/dists/stable/Release.gpg"
  const REPOMD := "rpm/repodata/repomd.xml"
  const REPO_FILE := "rpm/atomic-agent.repo"
  const KEY_FILE := "atomic-chat.asc"

  predicate DebEntry(p: Path) { p == RELEASE || p == IN_RELEASE || p == RELEASE_GPG }

  /** Where `buildDeb` finds what a suite leads to. */
  predicate InDebTree(q: Path) { "deb/dists/stable/main/" <= q || "deb/pool/" <= q }

  /** Where `buildRpm` finds what repomd.xml leads to: packages, and metadata under a hexadecimal checksum. */
  predicate InRpmTree(q: Path) {
    "rpm/packages/" <= q || ("rpm/repodata/" <= q && |q| > 13 && ('0' <= q[13] <= '9' || 'a' <= q[13] <= 'f'))
  }

  /** Suites lead into the deb tree, repomd.xml into the rpm tree and the .repo file to the key. */
  predicate Beneath(p: Path, q: Path) {
    (DebEntry(p) && InDebTree(q)) || (p == REPOMD && InRpmTree(q)) || (p == REPO_FILE && q == KEY_FILE)
  }

  ghost predicate LaidOut(r: Run, names: Naming)
    requires forall p :: p in r.puts ==> p in r.site
  {
    forall p, q :: Dropped(r, names, p) && q in LedTo(Full(r), r.before[p]) ==> Beneath(p, q)
  }

  lemma EarlierAfter(prefix: string, p: string, q: string)
    requires prefix <= p && prefix <= q && |prefix| < |p| && |prefix| < |q| && p[|prefix|] < q[|prefix|]
    ensures Position(p) < Position(q)
  {
    EarlierAt(p, q, |prefix|);
  }

  lemma Beginning(prefix: string, more: string, q: string)
    requires prefix < more <= q
    ensures prefix <= q && q[|prefix|] == more[|prefix|]
  {
  }

  lemma DebEntryStarts(p: Path)
    requires DebEntry(p)
    ensures "deb/" <= p && p[4] == 'd' && "deb/dists/stable/" <= p && |p| > 17 && p[17] < 'm'
  {
  }

  lemma RepomdStarts()
    ensures "rpm/" <= REPOMD && "rpm/repodata/" <= REPOMD && |REPOMD| > 13 && REPOMD[4] == REPOMD[13] == 'r'
  {
  }

  lemma DebEntriesFirst(p: Path, q: Path)
    requires DebEntry(p) && InDebTree(q)
    ensures Position(p) < Position(q)
  {
    DebEntryStarts(p);
    if "deb/pool/" <= q {
      Beginning("deb/", "deb/pool/", q);
      EarlierAfter("deb/", p, q);
    } else {
      Beginning("deb/dists/stable/", "deb/dists/stable/main/", q);
      EarlierAfter("deb/dists/stable/", p, q);
    }
  }

  lemma AfterPackages(p: Path, q: Path)
    requires "rpm/" <= p && |p| > 4 && p[4] == 'r' && "rpm/packages/" <= q
    ensures Position(q) < Position(p)
  {
    Beginning("rpm/", "rpm/packages/", q);
    EarlierAfter("rpm/", q, p);
  }

  lemma RepomdLast(q: Path)
    requires InRpmTree(q)
    ensures Position(q) < Position(REPOMD)
  {
    RepomdStarts();
    if "rpm/packages/" <= q { AfterPackages(REPOMD, q); } else { EarlierAfter("rpm/repodata/", q, REPOMD); }
  }

  lemma KeyBeforeRepo()
    ensures Position(KEY_FILE) < Position(REPO_FILE)
  {
    assert KEY_FILE[0] == 'a' && REPO_FILE[0] == 'r';
    EarlierAfter("", KEY_FILE, REPO_FILE);
  }

  lemma RepoStarts()
    ensures REPO_FILE[0] == 'r' && REPO_FILE[4] == 'a'
  {
  }

  lemma DebStarts(p: Path)
    ensures DebEntry(p) ==> p != "" && p[0] == 'd'
  {
  }

  lemma RpmStarts()
    ensures REPOMD[0] == 'r' && !DebEntry(REPOMD) && !DebEntry(REPO_FILE) && REPOMD != REPO_FILE
  {
    RepomdStarts();
    RepoStarts();
    assert "rpm/"[0] == 'r';
    DebStarts(REPOMD);
    DebStarts(REPO_FILE);
  }

  /** Of all there is, only the deb suites precede what they lead to. */
  lemma BeneathOrder(p: Path, q: Path)
    requires Beneath(p, q)
    ensures Position(p) < Position(q) <==> DebEntry(p)
  {
    RpmStarts();
    if p == REPOMD {
      RepomdLast(q);
    } else if p == REPO_FILE {
      KeyBeforeRepo();
    } else {
      DebEntriesFirst(p, q);
    }
  }

  /** repomd.xml is dropped, and so is a file it leads to. */
  ghost predicate RpmTreeDropped(r: Run, names: Naming)
    requires forall p :: p in r.puts ==> p in r.site
  {
    exists q :: LostWith(r, names, REPOMD, q)
  }

  /** The .repo file is dropped, and so is the key it names. */
  ghost predicate RepoFileDropped(r: Run, names: Naming)
    requires forall p :: p in r.puts ==> p in r.site
  {
    LostWith(r, names, REPO_FILE, KEY_FILE)
  }

  lemma OrderInLayout(r: Run, names: Naming)
    requires (forall p :: p in r.puts ==> p in r.site) && LaidOut(r, names)
    requires forall p :: names.codeUnits(p) == Position(p)
    ensures PrecedeByName(r, names) <==> !RpmTreeDropped(r, names) && !RepoFileDropped(r, names)
  {
    RpmStarts();
    forall p, q | LostWith(r, names, p, q)
      ensures Position(p) < Position(q) <==> DebEntry(p)
      ensures DebEntry(p) || p == REPOMD || (p == REPO_FILE && q == KEY_FILE)
    {
      BeneathOrder(p, q);
    }
  }

  lemma ServesByName(r: Run, names: Naming)
    requires Planned(r, names) && Publishable(r, names) && Injective(names.codeUnits)
    ensures NeverBreaks(r, names) <==> PrecedeByName(r, names)
  {
    NeverBreaksIsServing(r, names);
    ServesThroughoutExactly(r, names);
    GoesFirstByName(r, names);
  }

  /**
   * For the layout the publisher builds, exactly: no moment of a run breaks a client unless the new site drops
   * repomd.xml together with a file it leads to, or the .repo file together with its key. A dropped deb suite
   * never breaks one.
   */
  lemma LayoutBreaksExactly(r: Run, locale: Path -> real)
    requires forall p :: 0.0 <= locale(p) < 1.0
    requires Planned(r, Actual(locale)) && Publishable(r, Actual(locale)) && LaidOut(r, Actual(locale))
    ensures NeverBreaks(r, Actual(locale)) <==>
      !RpmTreeDropped(r, Actual(locale)) && !RepoFileDropped(r, Actual(locale))
  {
    ServesByName(r, Actual(locale));
    OrderInLayout(r, Actual(locale));
  }

  // ----- one of each -----

  const PRIMARY := "rpm/repodata/9f-primary.xml.gz"
  const RPM := "rpm/packages" + "/" + ("atomic-agent_" + "0.7.0_x86_64" + ".rpm")
  const PACKAGES := "deb/dists/stable/main/binary-amd64" + "/" + "Packages"
  const DEB := "deb/pool/main/a/atomic-agent" + "/" + ("atomic-agent_" + "0.7.0_amd64" + ".deb")

  /** An entry point that names an index that names a package, and nothing else. */
  function Tree(entry: Path, index: Path, package: Path): Bucket {
    map[entry := File({index}, 1), index := File({package}, 2), package := File({}, 3)]
  }

  /** Publishing a site without that tree, here the empty one. */
  function Removal(entry: Path, index: Path, package: Path, names: Naming): Run {
    var listing := [entry, index, package];
    Run(Tree(entry, index, package), map[], [], listing, [], Deletes([], listing, names))
  }

  ghost predicate ThreeRanks(entry: Path, index: Path, package: Path, names: Naming) {
    names.rank(entry) == 2 && names.rank(index) == 1 && names.rank(package) == 0
  }

  ghost predicate ThreeFiles(b: Bucket, entry: Path, index: Path, package: Path) {
    && b.Keys == {entry, index, package}
    && b[entry].refs == {index} && b[index].refs == {package} && b[package].refs == {}
  }

  lemma TreeHasThree(entry: Path, index: Path, package: Path, names: Naming)
    requires ThreeRanks(entry, index, package, names)
    ensures ThreeFiles(Tree(entry, index, package), entry, index, package)
  {
  }

  lemma TreeHeld(b: Bucket, entry: Path, index: Path, package: Path, names: Naming)
    requires ThreeFiles(b, entry, index, package) && ThreeRanks(entry, index, package, names) && Lawful(names)
    ensures Held(b, names)
  {
    forall p | p in b ensures Served(b, b[p]) { ServedByClosed(b, b[p], {index, package}); }
  }

  lemma RemovalPlanned(entry: Path, index: Path, package: Path, names: Naming)
    requires ThreeRanks(entry, index, package, names) && Lawful(names)
    ensures Planned(Removal(entry, index, package, names), names)
    ensures Publishable(Removal(entry, index, package, names), names)
  {
    var r := Removal(entry, index, package, names);
    assert Puts([], r.remote, names) == [];
    PlanOrders(r, names);
    TreeHasThree(entry, index, package, names);
    TreeHeld(r.before, entry, index, package, names);
  }

  lemma LedWithin(b: Bucket, f: File, g: set<Path>)
    requires Closed(b, g) && f.refs <= g
    ensures LedTo(b, f) <= g
  {
    forall w | Follows(b, f, w) ensures w[|w| - 1] in g { ClosedServes(b, f, g, w); }
  }

  /** The entry point leads to its index and its package, and to nothing else. */
  lemma TreeLeads(b: Bucket, entry: Path, index: Path, package: Path, names: Naming)
    requires ThreeFiles(b, entry, index, package) && Held(b, names) && names.rank(entry) == 2
    ensures LedTo(b, b[entry]) == {index, package}
  {
    LedToIsClosed(b, b[entry]);
    LedWithin(b, b[entry], {index, package});
  }

  lemma NothingUploaded(r: Run)
    requires r.puts == []
    ensures Full(r) == r.before
  {
    assert Steps(r.puts, r.deletes)[..0] == [];
  }

  /** The first file to go is not the entry point if anything else to be deleted comes before it by name. */
  lemma AnotherGoesFirst(r: Run, names: Naming, entry: Path, other: Path)
    requires Planned(r, names) && Orders(r, names)
    requires other in r.before && other !in r.site && names.codeUnits(other) < names.codeUnits(entry)
    ensures r.deletes != [] && r.deletes[0] != entry && r.deletes[0] in r.before
  {
    var i: nat :| i < |r.deletes| && r.deletes[i] == other;
    DeletedByName(r, names, 0, i);
    assert r.deletes[0] in r.deletes;
  }

  lemma BreaksAtOnce(r: Run, names: Naming, entry: Path)
    requires Publishable(r, names) && Dropped(r, names, entry) && r.deletes != []
    requires r.deletes[0] != entry && r.deletes[0] in LedTo(Full(r), r.before[entry])
    ensures !Serves(At(r, |r.puts| + 1), names)
  {
    DeleteMomentExactly(r, names, 1);
    assert entry !in r.deletes[..1] && r.deletes[0] in Members(r.deletes[..1]);
    assert !Intact(r, names, 1, entry);
  }

  /** The run drops one entry point, and below it everything else there was. */
  ghost predicate Sheds(r: Run, names: Naming, entry: Path, below: set<Path>) {
    && r.puts == [] && r.site == map[] && r.before.Keys == {entry} + below
    && names.rank(entry) == 2 && (forall p :: p in below ==> names.rank(p) < 2)
    && LedTo(r.before, r.before[entry]) == below
  }

  lemma FirstBelow(r: Run, names: Naming, entry: Path, below: set<Path>, other: Path)
    requires Planned(r, names) && Orders(r, names)
    requires r.before.Keys == {entry} + below && r.site == map[]
    requires other in below && names.codeUnits(other) < names.codeUnits(entry)
    ensures r.deletes != [] && r.deletes[0] in below && r.deletes[0] != entry
  {
    AnotherGoesFirst(r, names, entry, other);
  }

  /** If a name below comes first, the entry point outlives something it leads to: one delete breaks it. */
  lemma LastNameBreaks(r: Run, names: Naming, entry: Path, below: set<Path>)
    requires Publishable(r, names) && Sheds(r, names, entry, below)
    requires r.deletes != [] && r.deletes[0] in below && r.deletes[0] != entry
    ensures !Serves(At(r, 1), names)
  {
    NothingUploaded(r);
    BreaksAtOnce(r, names, entry);
  }

  lemma ShedInOrder(r: Run, names: Naming, entry: Path, below: set<Path>)
    requires Sheds(r, names, entry, below) && Full(r) == r.before
    requires forall q :: q in below ==> names.codeUnits(entry) < names.codeUnits(q)
    ensures PrecedeByName(r, names)
  {
  }

  /** If its own name comes first, it goes first and nothing breaks. */
  lemma FirstNameServes(r: Run, names: Naming, entry: Path, below: set<Path>)
    requires Planned(r, names) && Publishable(r, names) && Sheds(r, names, entry, below)
    requires Injective(names.codeUnits)
    requires forall q :: q in below ==> names.codeUnits(entry) < names.codeUnits(q)
    ensures !EntriesKept(r.before, r.site, names) && NeverBreaks(r, names)
  {
    NothingUploaded(r);
    ShedInOrder(r, names, entry, below);
    ServesByName(r, names);
  }

  /** Removing the tree breaks a client after a single delete. */
  ghost predicate RemovalBreaks(entry: Path, index: Path, package: Path, names: Naming) {
    var r := Removal(entry, index, package, names);
    r.deletes != [] && !Serves(At(r, 1), names)
  }

  /** Removing the tree breaks no client, although it takes an entry point away. */
  ghost predicate RemovalServes(entry: Path, index: Path, package: Path, names: Naming) {
    var r := Removal(entry, index, package, names);
    !EntriesKept(r.before, r.site, names) && NeverBreaks(r, names)
  }

  lemma RemovalSheds(entry: Path, index: Path, package: Path, names: Naming)
    requires ThreeRanks(entry, index, package, names) && Lawful(names)
    ensures Sheds(Removal(entry, index, package, names), names, entry, {index, package})
  {
    var b := Tree(entry, index, package);
    TreeHasThree(entry, index, package, names);
    TreeHeld(b, entry, index, package, names);
    TreeLeads(b, entry, index, package, names);
  }

  lemma IndexFirstBreaks(entry: Path, index: Path, package: Path, names: Naming)
    requires ThreeRanks(entry, index, package, names) && Lawful(names)
    requires names.codeUnits(index) < names.codeUnits(entry)
    ensures RemovalBreaks(entry, index, package, names)
  {
    var r, below := Removal(entry, index, package, names), {index, package};
    RemovalSheds(entry, index, package, names);
    RemovalPlanned(entry, index, package, names);
    FirstBelow(r, names, entry, below, index);
    LastNameBreaks(r, names, entry, below);
  }

  lemma EntryFirstServes(entry: Path, index: Path, package: Path, names: Naming)
    requires ThreeRanks(entry, index, package, names) && Lawful(names) && Injective(names.codeUnits)
    requires names.codeUnits(entry) < names.codeUnits(index) && names.codeUnits(entry) < names.codeUnits(package)
    ensures RemovalServes(entry, index, package, names)
  {
    var below := {index, package};
    assert forall q :: q in below ==> names.codeUnits(entry) < names.codeUnits(q);
    RemovalSheds(entry, index, package, names);
    RemovalPlanned(entry, index, package, names);
    FirstNameServes(Removal(entry, index, package, names), names, entry, below);
  }

  lemma NotAPackage(dir: string, name: string)
    requires '/' !in name && name != "" && name[|name| - 1] != 'b' && name[|name| - 1] != 'm'
    ensures LastSegment(dir + "/" + name) == name && !IsPackageFile(name)
  {
    SegmentOf(dir, name);
    if IsPackageFile(name) { PackageEnds(name); }
  }

  lemma APackage(dir: string, middle: string, ext: string)
    requires OneLine(middle) && '/' !in middle && Extension(ext)
    ensures Rank(dir + "/" + ("atomic-agent_" + middle + ext)) == 0
  {
    assert '/' !in ext;
    SegmentOf(dir, "atomic-agent_" + middle + ext);
    assert CliPackage("atomic-agent_" + middle + ext);
  }

  lemma EntryRank(path: string, dir: string, name: string)
    requires path == dir + "/" + name && '/' !in name && |name| > 1 && name[|name| - 1] in "elgco" && name[0] != 'P'
    requires "repomd.xml" <= name || (dir != "" && dir[0] != 'r') || (|path| > 4 && path[4] != 'r')
    ensures Rank(path) == 2
  {
    assert dir != "" ==> path[0] == dir[0];
    assert "rpm/repodata/"[0] == "rpm/repodata/"[4] == 'r';
    NotAPackage(dir, name);
  }

  lemma IndexRank(path: string, dir: string, name: string)
    requires path == dir + "/" + name && '/' !in name && name != "" && name[|name| - 1] in "sz"
    requires name == "Packages" || ("rpm/repodata/" <= path && name[0] != 'r')
    ensures Rank(path) == 1
  {
    NotAPackage(dir, name);
  }

  lemma RepomdRank() ensures Rank(REPOMD) == 2 { EntryRank(REPOMD, "rpm/repodata", "repomd.xml"); }

  lemma PrimaryRank() ensures Rank(PRIMARY) == 1 { IndexRank(PRIMARY, "rpm/repodata", "9f-primary.xml.gz"); }

  lemma RpmRank() ensures Rank(RPM) == 0 { APackage("rpm/packages", "0.7.0_x86_64", ".rpm"); }

  lemma ReleaseRank() ensures Rank(RELEASE) == 2 { EntryRank(RELEASE, "deb/dists/stable", "Release"); }

  lemma PackagesRank()
    ensures Rank(PACKAGES) == 1
  {
    IndexRank(PACKAGES, "deb/dists/stable/main/binary-amd64", "Packages");
  }

  lemma DebRank() ensures Rank(DEB) == 0 { APackage("deb/pool/main/a/atomic-agent", "0.7.0_amd64", ".deb"); }

  lemma InTrees()
    ensures InRpmTree(PRIMARY) && InRpmTree(RPM) && InDebTree(PACKAGES) && InDebTree(DEB)
  {
  }

  /** The published rpm tree: one delete after its removal began, repomd.xml leads to a file that is gone. */
  lemma RpmTreeBreaks(locale: Path -> real)
    requires forall p :: 0.0 <= locale(p) < 1.0
    ensures Planned(Removal(REPOMD, PRIMARY, RPM, Actual(locale)), Actual(locale))
    ensures Publishable(Removal(REPOMD, PRIMARY, RPM, Actual(locale)), Actual(locale))
    ensures RemovalBreaks(REPOMD, PRIMARY, RPM, Actual(locale))
  {
    var names := Actual(locale);
    RepomdRank();
    PrimaryRank();
    RpmRank();
    assert Position(PRIMARY) < Position(REPOMD) by {
      InTrees();
      RepomdLast(PRIMARY);
    }
    RemovalPlanned(REPOMD, PRIMARY, RPM, names);
    IndexFirstBreaks(REPOMD, PRIMARY, RPM, names);
  }

  /** A deb suite dropped whole, its packages with it: no moment breaks, although an old entry point is gone. */
  lemma DebSuiteServes(locale: Path -> real)
    requires forall p :: 0.0 <= locale(p) < 1.0
    ensures Planned(Removal(RELEASE, PACKAGES, DEB, Actual(locale)), Actual(locale))
    ensures Publishable(Removal(RELEASE, PACKAGES, DEB, Actual(locale)), Actual(locale))
    ensures RemovalServes(RELEASE, PACKAGES, DEB, Actual(locale))
  {
    var names := Actual(locale);
    ReleaseRank();
    PackagesRank();
    DebRank();
    assert Position(RELEASE) < Position(PACKAGES) && Position(RELEASE) < Position(DEB) by {
      InTrees();
      DebEntriesFirst(RELEASE, PACKAGES);
      DebEntriesFirst(RELEASE, DEB);
    }
    RemovalPlanned(RELEASE, PACKAGES, DEB, names);
    EntryFirstServes(RELEASE, PACKAGES, DEB, names);
  }

  // ----- an entry point that names another -----

  function Pair(entry: Path, other: Path): Bucket {
    map[entry := File({other}, 1), other := File({}, 2)]
  }

  /** Publishing a site with neither of them. */
  function PairRemoval(entry: Path, other: Path, names: Naming): Run {
    Run(Pair(entry, other), map[], [], [entry, other], [], Deletes([], [entry, other], names))
  }

  /** Publishing them into an empty bucket. */
  function PairPublication(entry: Path, other: Path, names: Naming): Run {
    Run(map[], Pair(entry, other), [entry, other], [],
        Puts([entry, other], [], names), Deletes([entry, other], [], names))
  }

  ghost predicate TwoEntries(entry: Path, other: Path, names: Naming) {
    Lawful(names) && entry != other && names.rank(entry) == 2 && names.rank(other) == 2
  }

  lemma PairHeld(entry: Path, other: Path, names: Naming)
    requires TwoEntries(entry, other, names) && Place(names, other) < Place(names, entry)
    ensures Held(Pair(entry, other), names)
  {
    var b := Pair(entry, other);
    forall p | p in b ensures Served(b, b[p]) { ServedByClosed(b, b[p], {other}); }
  }

  lemma PairLeads(entry: Path, other: Path)
    requires entry != other
    ensures var b := Pair(entry, other); other in LedTo(b, b[entry])
  {
    var b := Pair(entry, other);
    ServedByClosed(b, b[entry], {other});
    LedToIsClosed(b, b[entry]);
  }

  lemma PairRemovalPlanned(entry: Path, other: Path, names: Naming)
    requires TwoEntries(entry, other, names) && Place(names, other) < Place(names, entry)
    ensures Planned(PairRemoval(entry, other, names), names) && Publishable(PairRemoval(entry, other, names), names)
  {
    var r := PairRemoval(entry, other, names);
    assert Puts([], r.remote, names) == [];
    PlanOrders(r, names);
    PairHeld(entry, other, names);
  }

  lemma OtherGoesFirst(r: Run, entry: Path, other: Path, names: Naming)
    requires Planned(r, names) && Orders(r, names) && r.before.Keys == {entry, other} && r.site == map[]
    requires names.codeUnits(other) < names.codeUnits(entry)
    ensures r.deletes != [] && r.deletes[0] == other
  {
    AnotherGoesFirst(r, names, entry, other);
  }

  /** The entry point that names the other is left behind. */
  lemma PairBreaks(r: Run, entry: Path, other: Path, names: Naming)
    requires Publishable(r, names) && r.puts == [] && r.site == map[] && r.before == Pair(entry, other)
    requires entry != other && names.rank(entry) == 2 && r.deletes != [] && r.deletes[0] == other
    ensures !Serves(At(r, 1), names)
  {
    assert other in LedTo(Full(r), r.before[entry]) by {
      NothingUploaded(r);
      PairLeads(entry, other);
    }
    BreaksAtOnce(r, names, entry);
  }

  lemma FirstOfTwo(puts: seq<Path>, entry: Path, other: Path, names: Naming)
    requires entry in puts && forall p :: p in puts ==> p == entry || p == other
    requires forall h, j :: 0 <= h <= j < |puts| ==> Place(names, puts[h]) <= Place(names, puts[j])
    requires Place(names, entry) < Place(names, other)
    ensures puts != [] && puts[0] == entry
  {
    var i: nat :| i < |puts| && puts[i] == entry;
    assert puts[0] in puts;
  }

  /** The entry point is uploaded before the other, which it names. */
  lemma PairComesEarly(r: Run, entry: Path, other: Path, names: Naming)
    requires Orders(r, names) && r.before == map[] && r.site == Pair(entry, other)
    requires entry != other && names.rank(entry) == 2 && r.puts != [] && r.puts[0] == entry
    ensures !Serves(At(r, 1), names)
  {
    FirstMomentExactly(r, names, 1);
    PairLeads(entry, other);
    assert r.puts[..1] == [entry];
  }

  lemma RepoFileRank()
    ensures Rank(REPO_FILE) == 2
  {
    RepoStarts();
    EntryRank(REPO_FILE, "rpm", "atomic-agent.repo");
  }

  lemma KeyFileRank()
    ensures Rank(KEY_FILE) == 2
  {
    NoSegments(KEY_FILE);
    assert KEY_FILE[0] == 'a' && "rpm/repodata/"[0] == 'r';
    if IsPackageFile(KEY_FILE) { PackageEnds(KEY_FILE); }
  }

  lemma {:induction false} NoSegments(name: string)
    requires '/' !in name
    ensures LastSegment(name) == name
  {
    if name != "" {
      NoSegments(name[..|name| - 1]);
      assert name == name[..|name| - 1] + [name[|name| - 1]];
    }
  }

  /** Removing the pair breaks a client after a single delete. */
  ghost predicate PairRemovalBreaks(entry: Path, other: Path, names: Naming) {
    var r := PairRemoval(entry, other, names);
    r.deletes != [] && !Serves(At(r, 1), names)
  }

  lemma OtherFirstBreaks(entry: Path, other: Path, names: Naming)
    requires TwoEntries(entry, other, names) && Place(names, other) < Place(names, entry)
    requires names.codeUnits(other) < names.codeUnits(entry)
    ensures PairRemovalBreaks(entry, other, names)
  {
    var r := PairRemoval(entry, other, names);
    PairRemovalPlanned(entry, other, names);
    OtherGoesFirst(r, entry, other, names);
    PairBreaks(r, entry, other, names);
  }

  /** A client is shown the entry point of a first publication before what it names is there. */
  ghost predicate PairPublicationBreaks(entry: Path, other: Path, names: Naming) {
    var r := PairPublication(entry, other, names);
    (forall p :: p in r.puts ==> p in r.site) && r.puts != [] && !Serves(At(r, 1), names)
  }

  lemma PublicationPlanned(entry: Path, other: Path, names: Naming)
    requires TwoEntries(entry, other, names)
    ensures var r := PairPublication(entry, other, names); Planned(r, names) && Orders(r, names) && Whole(r.site)
    ensures forall p :: p in PairPublication(entry, other, names).puts <==> p == entry || p == other
  {
    var r := PairPublication(entry, other, names);
    assert forall p :: p in r.puts <==> p == entry || p == other by { PutsContain([entry, other], [], names); }
    assert Planned(r, names);
    assert Orders(r, names) by { PlanOrders(r, names); }
  }

  lemma EntryFirst(r: Run, entry: Path, other: Path, names: Naming)
    requires Orders(r, names) && Place(names, entry) < Place(names, other)
    requires forall p :: p in r.puts <==> p == entry || p == other
    ensures r.puts != [] && r.puts[0] == entry
  {
    FirstOfTwo(r.puts, entry, other, names);
  }

  lemma EntryFirstBreaks(entry: Path, other: Path, names: Naming)
    requires TwoEntries(entry, other, names) && Place(names, entry) < Place(names, other)
    ensures PairPublicationBreaks(entry, other, names)
  {
    var r := PairPublication(entry, other, names);
    PublicationPlanned(entry, other, names);
    EntryFirst(r, entry, other, names);
    PairComesEarly(r, entry, other, names);
  }

  /** The .repo file and its key, dropped together: the key goes first and the .repo file names nothing. */
  lemma RepoFileBreaks(locale: Path -> real)
    requires (forall p :: 0.0 <= locale(p) < 1.0) && locale(KEY_FILE) < locale(REPO_FILE)
    ensures Planned(PairRemoval(REPO_FILE, KEY_FILE, Actual(locale)), Actual(locale))
    ensures Publishable(PairRemoval(REPO_FILE, KEY_FILE, Actual(locale)), Actual(locale))
    ensures PairRemovalBreaks(REPO_FILE, KEY_FILE, Actual(locale))
  {
    var names := Actual(locale);
    RepoFileRank();
    KeyFileRank();
    KeyBeforeRepo();
    PairRemovalPlanned(REPO_FILE, KEY_FILE, names);
    OtherFirstBreaks(REPO_FILE, KEY_FILE, names);
  }

  /**
   * A client that takes the base URL of the .repo file for the repomd.xml beneath it: in a first publication the
   * .repo file is there before repomd.xml is.
   */
  lemma BaseUrlComesEarly(locale: Path -> real)
    requires (forall p :: 0.0 <= locale(p) < 1.0) && locale(REPO_FILE) < locale(REPOMD)
    ensures Planned(PairPublication(REPO_FILE, REPOMD, Actual(locale)), Actual(locale))
    ensures Whole(PairPublication(REPO_FILE, REPOMD, Actual(locale)).site)
    ensures PairPublicationBreaks(REPO_FILE, REPOMD, Actual(locale))
  {
    RepoFileRank();
    RepomdRank();
    PublicationPlanned(REPO_FILE, REPOMD, Actual(locale));
    EntryFirstBreaks(REPO_FILE, REPOMD, Actual(locale));
  }
}
