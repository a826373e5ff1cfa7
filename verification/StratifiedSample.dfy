/** Seeded stratified sampling: eval-memory/harness/stratified-sample.ts, over exact reals. */
module StratifiedSample {
  import opened Wrappers
  import opened Sorting
  import opened DistinctLists
  import opened OrderedMaps
  import opened Numbers

  // ----- the shuffle -----

  /** A random source in [0, 1): its k-th number. */
  ghost predicate UnitSource(rng: nat -> real) {
    forall k: nat :: 0.0 <= rng(k) < 1.0
  }

  function Scaled(u: real, n: nat): real { u * n as real }

  /** `Math.floor(rng() * n)`. */
  function Pick(u: real, n: nat): (p: nat)
    requires n >= 1 && 0.0 <= u < 1.0
    ensures p < n && p as real <= Scaled(u, n) < p as real + 1.0
  {
    InRange(u, n);
    Scaled(u, n).Floor
  }

  lemma InRange(u: real, n: nat)
    requires n >= 1 && 0.0 <= u < 1.0
    ensures 0.0 <= Scaled(u, n) < n as real
  {
    assert (1.0 - u) * n as real > 0.0;
  }

  /** What the c-th call of the random source makes of `Math.floor(rng() * n)`. */
  type Draw = (nat, nat) -> nat

  ghost predicate Below(draw: Draw) {
    forall c: nat, n: nat {:trigger draw(c, n)} :: n >= 1 ==> draw(c, n) < n
  }

  function DrawAt(rng: nat -> real, c: nat, n: nat): (p: nat)
    ensures n >= 1 ==> p < n
  {
    if n >= 1 && 0.0 <= rng(c) < 1.0 then Pick(rng(c), n) else 0
  }

  function Drawing(rng: nat -> real): Draw {
    (c: nat, n: nat) => DrawAt(rng, c, n)
  }

  lemma DrawingBelow(rng: nat -> real)
    ensures Below(Drawing(rng))
  {
  }

  function Swap<T>(s: seq<T>, i: nat, j: nat): (t: seq<T>)
    requires i < |s| && j < |s|
    ensures |t| == |s| && t[i] == s[j] && t[j] == s[i]
    ensures forall k :: 0 <= k < |s| && k != i && k != j ==> t[k] == s[k]
  {
    s[i := s[j]][j := s[i]]
  }

  lemma SwapPermutes<T>(s: seq<T>, i: nat, j: nat)
    requires i < |s| && j < |s|
    ensures multiset(Swap(s, i, j)) == multiset(s)
  {
  }

  /** picks[i] is the place that position i is exchanged with. */
  predicate Picks(picks: seq<nat>) { forall i :: 0 <= i < |picks| ==> picks[i] <= i }

  /** The exchanges from the last picked position down. */
  function Shuffled<T>(s: seq<T>, picks: seq<nat>): (t: seq<T>)
    requires |picks| <= |s| && Picks(picks)
    ensures |t| == |s|
    decreases |picks|
  {
    if |picks| <= 1 then s
    else Shuffled(Swap(s, |picks| - 1, picks[|picks| - 1]), picks[..|picks| - 1])
  }

  /** Nothing is lost or duplicated. */
  lemma {:induction false} ShuffledPermutes<T>(s: seq<T>, picks: seq<nat>)
    requires |picks| <= |s| && Picks(picks)
    ensures multiset(Shuffled(s, picks)) == multiset(s)
    decreases |picks|
  {
    if |picks| > 1 {
      SwapPermutes(s, |picks| - 1, picks[|picks| - 1]);
      ShuffledPermutes(Swap(s, |picks| - 1, picks[|picks| - 1]), picks[..|picks| - 1]);
    }
  }

  /** What a random source makes of n positions: the last position takes the first number. */
  function PicksFrom(draw: Draw, from: nat, n: nat): (picks: seq<nat>)
    requires Below(draw)
    ensures |picks| == n && Picks(picks)
    ensures Made(picks, draw, from)
    decreases n
  {
    if n == 0 then []
    else
      var rest := PicksFrom(draw, from + 1, n - 1);
      assert forall i :: 0 <= i < n - 1 ==> CallFor(from + 1, n - 1, i) == CallFor(from, n, i);
      rest + [draw(from, n)]
  }

  /** The call that decides position i of n. */
  function CallFor(from: nat, n: nat, i: nat): nat
    requires i < n
  {
    from + (n - 1 - i)
  }

  ghost predicate Made(picks: seq<nat>, draw: Draw, from: nat) {
    forall i :: 0 <= i < |picks| ==> picks[i] == draw(CallFor(from, |picks|, i), i + 1)
  }

  lemma OneExchange<T>(s: seq<T>, picks: seq<nat>, i: nat)
    requires 0 < i < |picks| <= |s| && Picks(picks)
    ensures Shuffled(s, picks[..i + 1]) == Shuffled(Swap(s, i, picks[i]), picks[..i])
  {
    var front := picks[..i + 1];
    assert |front| == i + 1 && front[i] == picks[i] && front[..i] == picks[..i];
  }

  method Exchange<T>(arr: array<T>, i: nat, j: nat, ghost before: seq<T>) returns (ghost after: seq<T>)
    requires i < arr.Length && j < arr.Length && before == arr[..]
    modifies arr
    ensures arr[..] == after == Swap(before, i, j)
  {
    arr[i], arr[j] := arr[j], arr[i];
    after := Swap(before, i, j);
  }

  /** The exchanges, from the last position down, by the picks the source makes. */
  method ExchangeAll<T>(arr: array<T>, draw: Draw, from: nat, ghost picks: seq<nat>) returns (calls: nat)
    requires |picks| == arr.Length > 0 && Picks(picks) && Made(picks, draw, from)
    modifies arr
    ensures arr[..] == Shuffled(old(arr[..]), picks)
    ensures calls == from + arr.Length - 1
  {
    calls := from;
    ghost var now := arr[..];
    ghost var result := Shuffled(now, picks);
    var i := arr.Length - 1;
    assert picks[..i + 1] == picks;
    while i > 0
      invariant 0 <= i < arr.Length && calls == from + (arr.Length - 1 - i)
      invariant now == arr[..]
      invariant result == Shuffled(now, picks[..i + 1])
    {
      OneExchange(now, picks, i);
      assert calls == CallFor(from, |picks|, i);
      now := Exchange(arr, i, draw(calls, i + 1), now);
      i, calls := i - 1, calls + 1;
    }
  }

  /** `shuffleInPlace`. */
  method ShuffleInPlace<T>(arr: array<T>, draw: Draw, from: nat) returns (calls: nat)
    requires Below(draw)
    modifies arr
    ensures arr[..] == Shuffled(old(arr[..]), PicksFrom(draw, from, arr.Length))
    ensures calls == if arr.Length == 0 then from else from + arr.Length - 1
  {
    if arr.Length == 0 { return from; }
    calls := ExchangeAll(arr, draw, from, PicksFrom(draw, from, arr.Length));
  }

  // ----- every order, each in one way -----

  lemma {:induction false} TailKept<T>(s: seq<T>, picks: seq<nat>)
    requires |picks| <= |s| && Picks(picks)
    ensures Shuffled(s, picks)[|picks|..] == s[|picks|..]
    ensures picks != [] ==> Shuffled(s, picks)[|picks| - 1] == s[picks[|picks| - 1]]
    decreases |picks|
  {
    if |picks| > 1 {
      var n := |picks|;
      var swapped := Swap(s, n - 1, picks[n - 1]);
      TailKept(swapped, picks[..n - 1]);
      var t := Shuffled(s, picks);
      assert t[n - 1] == t[n - 1..][0] == swapped[n - 1..][0];
      assert t[n..] == t[n - 1..][1..] == swapped[n - 1..][1..];
    }
  }

  /** Whatever order is wanted, some run of the shuffle produces it. */
  lemma {:induction false} EveryOrderArises<T>(s: seq<T>, t: seq<T>, n: nat) returns (picks: seq<nat>)
    requires n <= |s| == |t| && multiset(s[..n]) == multiset(t[..n]) && s[n..] == t[n..]
    ensures |picks| == n && Picks(picks) && Shuffled(s, picks) == t
    decreases n
  {
    if n == 0 {
      picks := [];
      assert s == s[0..] && t == t[0..];
    } else {
      var j := Somewhere(s[..n], t[..n]);
      SwapBrings(s, t, n, j);
      var rest := EveryOrderArises(Swap(s, n - 1, j), t, n - 1);
      picks := rest + [j];
      LastExchange(s, rest, j);
    }
  }

  lemma LastExchange<T>(s: seq<T>, rest: seq<nat>, j: nat)
    requires |rest| < |s| && Picks(rest) && j <= |rest|
    ensures Picks(rest + [j]) && Shuffled(s, rest + [j]) == Shuffled(Swap(s, |rest|, j), rest)
  {
    var picks := rest + [j];
    assert picks[..|rest|] == rest;
    if rest == [] { assert Swap(s, 0, 0) == s; }
  }

  lemma Somewhere<T>(s: seq<T>, t: seq<T>) returns (j: nat)
    requires t != [] && multiset(s) == multiset(t)
    ensures j < |s| == |t| && s[j] == t[|t| - 1]
  {
    SameMembers(s, t);
    assert t[|t| - 1] in s;
    j :| j < |s| && s[j] == t[|t| - 1];
  }

  lemma LastOut<T>(s: seq<T>, n: nat)
    requires 1 <= n <= |s|
    ensures multiset(s[..n]) == multiset(s[..n - 1]) + multiset{s[n - 1]}
  {
    assert s[..n] == s[..n - 1] + [s[n - 1]];
  }

  lemma SwapBrings<T>(s: seq<T>, t: seq<T>, n: nat, j: nat)
    requires 1 <= n <= |s| == |t| && j < n && s[j] == t[n - 1]
    requires multiset(s[..n]) == multiset(t[..n]) && s[n..] == t[n..]
    ensures var w := Swap(s, n - 1, j); multiset(w[..n - 1]) == multiset(t[..n - 1]) && w[n - 1..] == t[n - 1..]
  {
    var w := Swap(s, n - 1, j);
    assert w[..n] == Swap(s[..n], n - 1, j);
    SwapPermutes(s[..n], n - 1, j);
    SameFront(w, t, n);
    SameRear(s, w, t, n);
  }

  lemma SameRear<T>(s: seq<T>, w: seq<T>, t: seq<T>, n: nat)
    requires 1 <= n <= |s| == |w| == |t| && w[n - 1] == t[n - 1] && s[n..] == t[n..]
    requires forall k :: n <= k < |s| ==> w[k] == s[k]
    ensures w[n - 1..] == t[n - 1..]
  {
    assert w[n - 1..] == [w[n - 1]] + s[n..] && t[n - 1..] == [t[n - 1]] + t[n..];
  }

  lemma SameFront<T>(w: seq<T>, t: seq<T>, n: nat)
    requires 1 <= n <= |w| == |t| && multiset(w[..n]) == multiset(t[..n]) && w[n - 1] == t[n - 1]
    ensures multiset(w[..n - 1]) == multiset(t[..n - 1])
  {
    LastOut(w, n);
    LastOut(t, n);
    assert multiset(w[..n - 1]) == multiset(w[..n]) - multiset{w[n - 1]};
  }

  /** And only one run does, so equally likely picks make every order equally likely. */
  lemma {:induction false} OneWayEach<T>(s: seq<T>, p: seq<nat>, q: seq<nat>)
    requires |p| == |q| <= |s| && Picks(p) && Picks(q) && Distinct(s)
    requires Shuffled(s, p) == Shuffled(s, q)
    ensures p == q
    decreases |p|
  {
    if p != [] {
      var n := |p|;
      TailKept(s, p);
      TailKept(s, q);
      assert p[n - 1] == q[n - 1];
      if n > 1 {
        SwapDistinct(s, n - 1, p[n - 1]);
        OneWayEach(Swap(s, n - 1, p[n - 1]), p[..n - 1], q[..n - 1]);
      }
      Joined(p, q);
    }
  }

  lemma Joined(p: seq<nat>, q: seq<nat>)
    requires |p| == |q| > 0 && p[..|p| - 1] == q[..|p| - 1] && p[|p| - 1] == q[|p| - 1]
    ensures p == q
  {
    assert p == p[..|p| - 1] + [p[|p| - 1]] && q == q[..|p| - 1] + [q[|p| - 1]];
  }

  lemma SwapDistinct<T>(s: seq<T>, i: nat, j: nat)
    requires i < |s| && j < |s| && Distinct(s)
    ensures Distinct(Swap(s, i, j))
  {
  }

  /** A random source that makes these picks: its k-th number. */
  function Drawn(picks: seq<nat>, k: nat): real {
    if picks == [] then 0.0
    else if k == 0 then picks[|picks| - 1] as real / |picks| as real
    else Drawn(picks[..|picks| - 1], k - 1)
  }

  /** Every run of picks is one that some random source makes. */
  lemma {:induction false} PicksArise(picks: seq<nat>, rng: nat -> real, from: nat)
    requires Picks(picks)
    requires forall k: nat {:trigger Drawn(picks, k)} :: rng(from + k) == Drawn(picks, k)
    ensures Below(Drawing(rng)) && PicksFrom(Drawing(rng), from, |picks|) == picks
  {
    DrawingBelow(rng);
    if picks != [] {
      var n, front := |picks|, picks[..|picks| - 1];
      forall k: nat {:trigger Drawn(front, k)} | true ensures rng(from + 1 + k) == Drawn(front, k) {
        assert Drawn(picks, k + 1) == Drawn(front, k);
      }
      PicksArise(front, rng, from + 1);
      WholePick(picks[n - 1], n);
      assert Drawn(picks, 0) == rng(from + 0);
    }
  }

  lemma {:induction false} DrawnIsUnit(picks: seq<nat>, k: nat)
    requires Picks(picks)
    ensures 0.0 <= Drawn(picks, k) < 1.0
  {
    if picks != [] {
      if k == 0 { WholePick(picks[|picks| - 1], |picks|); } else { DrawnIsUnit(picks[..|picks| - 1], k - 1); }
    }
  }

  /** So every order of the elements is what some random source in [0, 1) leaves behind. */
  lemma EveryOrderHasASource<T>(s: seq<T>, t: seq<T>) returns (rng: nat -> real)
    requires multiset(s) == multiset(t)
    ensures UnitSource(rng) && Below(Drawing(rng)) && Shuffled(s, PicksFrom(Drawing(rng), 0, |s|)) == t
  {
    SameMembers(s, t);
    assert s[..|s|] == s && t[..|s|] == t;
    var picks := EveryOrderArises(s, t, |s|);
    rng := (k: nat) => Drawn(picks, k);
    forall k: nat ensures 0.0 <= rng(k) < 1.0 { DrawnIsUnit(picks, k); }
    PicksArise(picks, rng, 0);
  }

  lemma WholePick(p: nat, n: nat)
    requires p < n
    ensures 0.0 <= p as real / n as real < 1.0
    ensures Pick(p as real / n as real, n) == p
  {
    assert (p as real / n as real) * n as real == p as real;
  }

  // ----- strata -----

  /** The original indexes below n of the items with key k, ascending. */
  function IndexesOf<T>(items: seq<T>, key: T -> string, k: string, n: nat): (r: seq<nat>)
    requires n <= |items|
    ensures forall i :: i in r <==> 0 <= i < n && key(items[i]) == k
    ensures Distinct(r)
  {
    if n == 0 then []
    else IndexesOf(items, key, k, n - 1) + if key(items[n - 1]) == k then [n - 1] else []
  }

  /** How many of the items have key k. */
  function CountKey<T>(items: seq<T>, key: T -> string, k: string): (c: nat)
    ensures c <= |items|
  {
    if items == [] then 0
    else CountKey(items[..|items| - 1], key, k) + if key(items[|items| - 1]) == k then 1 else 0
  }

  lemma {:induction false} StratumSize<T>(items: seq<T>, key: T -> string, k: string, n: nat)
    requires n <= |items|
    ensures |IndexesOf(items, key, k, n)| == CountKey(items[..n], key, k)
  {
    if n > 0 {
      StratumSize(items, key, k, n - 1);
      assert items[..n][..n - 1] == items[..n - 1];
    }
  }

  /** `Math.round`: halves go up. */
  function Round(x: real): (r: int)
    ensures r as real - 0.5 <= x < r as real + 0.5
  {
    (x + 0.5).Floor
  }

  function Portion(size: nat, fraction: real): real { size as real * fraction }

  /** How many items a stratum of this size keeps. */
  function Quota(size: nat, fraction: real, minPerStratum: int): (q: nat)
    ensures q <= size
  {
    Min(size, Max(Max(0, minPerStratum), Round(Portion(size, fraction))))
  }

  /** The two shortcuts keep what the quota says: nothing, or everything. */
  lemma QuotaAtTheEnds(size: nat, fraction: real, minPerStratum: int)
    ensures fraction <= 0.0 && minPerStratum <= 0 ==> Quota(size, fraction, minPerStratum) == 0
    ensures fraction >= 1.0 ==> Quota(size, fraction, minPerStratum) == size
  {
    if fraction >= 1.0 { Whole(size, fraction); }
    if fraction <= 0.0 { Nothing(size, fraction); }
  }

  lemma Whole(size: nat, fraction: real)
    requires fraction >= 1.0
    ensures Portion(size, fraction) >= size as real
  {
    assert size as real * (fraction - 1.0) >= 0.0;
  }

  lemma Nothing(size: nat, fraction: real)
    requires fraction <= 0.0
    ensures Portion(size, fraction) <= 0.0
  {
  }

  /** `items.filter((_v, i) => kept.has(i))`. */
  function Kept<T>(items: seq<T>, kept: set<nat>): (out: seq<T>)
    ensures |out| <= |items|
  {
    if items == [] then []
    else Kept(items[..|items| - 1], kept) + if |items| - 1 in kept then [items[|items| - 1]] else []
  }

  /** The output is the kept items in their original order. */
  ghost predicate InOrder<T>(out: seq<T>, items: seq<T>, places: seq<nat>) {
    && |places| == |out|
    && (forall i, j :: 0 <= i < j < |places| ==> places[i] < places[j])
    && (forall i :: 0 <= i < |places| ==> places[i] < |items| && out[i] == items[places[i]])
  }

  lemma {:induction false} KeptInOrder<T>(items: seq<T>, kept: set<nat>) returns (places: seq<nat>)
    ensures InOrder(Kept(items, kept), items, places)
  {
    if items == [] {
      places := [];
    } else {
      var n := |items|;
      places := KeptInOrder(items[..n - 1], kept);
      OneMoreInOrder(Kept(items[..n - 1], kept), items, places);
      if n - 1 in kept { places := places + [n - 1]; }
      else { assert Kept(items, kept) == Kept(items[..n - 1], kept); }
    }
  }

  lemma OneMoreInOrder<T>(out: seq<T>, items: seq<T>, places: seq<nat>)
    requires items != [] && InOrder(out, items[..|items| - 1], places)
    ensures InOrder(out, items, places)
    ensures InOrder(out + [items[|items| - 1]], items, places + [|items| - 1])
  {
  }

  ghost function KeptWith<T>(items: seq<T>, kept: set<nat>, key: T -> string, k: string): set<nat> {
    set i | 0 <= i < |items| && i in kept && key(items[i]) == k
  }

  lemma KeptWithStep<T>(items: seq<T>, kept: set<nat>, key: T -> string, k: string)
    requires items != []
    ensures var n, before := |items|, KeptWith(items[..|items| - 1], kept, key, k);
      && n - 1 !in before
      && KeptWith(items, kept, key, k) == if n - 1 in kept && key(items[n - 1]) == k then before + {n - 1} else before
  {
  }

  lemma CountKeyAppend<T>(items: seq<T>, item: T, key: T -> string, k: string)
    ensures CountKey(items + [item], key, k) == CountKey(items, key, k) + if key(item) == k then 1 else 0
  {
    assert (items + [item])[..|items|] == items;
  }

  /** The output has as many items of each stratum as were kept of it. */
  lemma {:induction false} KeptCounts<T>(items: seq<T>, kept: set<nat>, key: T -> string, k: string)
    ensures CountKey(Kept(items, kept), key, k) == |KeptWith(items, kept, key, k)|
  {
    if items != [] {
      KeptCounts(items[..|items| - 1], kept, key, k);
      KeptWithStep(items, kept, key, k);
      CountKeyAppend(Kept(items[..|items| - 1], kept), items[|items| - 1], key, k);
      assert |items| - 1 !in kept ==> Kept(items, kept) == Kept(items[..|items| - 1], kept);
    }
  }

  // ----- which items -----

  /** The strata in the order they first appear. */
  function StrataIn<T>(items: seq<T>, key: T -> string): seq<string> {
    if items == [] then []
    else
      var before, k := StrataIn(items[..|items| - 1], key), key(items[|items| - 1]);
      if k in before then before else before + [k]
  }

  /** Every stratum that has an item is among them. */
  lemma {:induction false} StratumIn<T>(items: seq<T>, key: T -> string, i: nat)
    requires i < |items|
    ensures key(items[i]) in StrataIn(items, key)
  {
    if i < |items| - 1 { StratumIn(items[..|items| - 1], key, i); }
  }

  /** What is kept of a stratum: the front of its indexes as the source's picks exchange them. */
  function Picked(indexes: seq<nat>, take: nat, draw: Draw, from: nat): set<nat>
    requires Below(draw) && take <= |indexes|
  {
    if take == 0 then {} else Members(Shuffled(indexes, PicksFrom(draw, from, |indexes|))[..take])
  }

  /** The numbers a shuffled stratum uses up; one that keeps nothing is not shuffled. */
  function Uses(size: nat, take: nat): nat {
    if take == 0 || size == 0 then 0 else size - 1
  }

  datatype Sampling = Sampling(kept: set<nat>, calls: nat)

  /** The strata one after another, each going on where the one before left the source. */
  function SamplingOf<T>(items: seq<T>, key: T -> string, fraction: real, minPerStratum: int, draw: Draw,
                         keys: seq<string>): Sampling
    requires Below(draw)
  {
    if keys == [] then Sampling({}, 0)
    else
      var before := SamplingOf(items, key, fraction, minPerStratum, draw, keys[..|keys| - 1]);
      var indexes := IndexesOf(items, key, keys[|keys| - 1], |items|);
      var take := Quota(|indexes|, fraction, minPerStratum);
      Sampling(before.kept + Picked(indexes, take, draw, before.calls), before.calls + Uses(|indexes|, take))
  }

  /** What the sampler returns for one source. */
  function Sampled<T>(items: seq<T>, key: T -> string, fraction: real, minPerStratum: int, rng: nat -> real,
                      codeUnits: string -> real): seq<T>
  {
    if items == [] || (fraction <= 0.0 && minPerStratum <= 0) then []
    else if fraction >= 1.0 then items
    else
      DrawingBelow(rng);
      var keys := SortBy(StrataIn(items, key), codeUnits);
      Kept(items, SamplingOf(items, key, fraction, minPerStratum, Drawing(rng), keys).kept)
  }

  // ----- the sampler -----

  type Buckets = OrderedMap<string, seq<nat>>

  ghost predicate Bucketed<T>(buckets: Buckets, items: seq<T>, key: T -> string, n: nat)
    requires n <= |items|
  {
    && buckets.Valid() && buckets.keys == StrataIn(items[..n], key)
    && forall k :: HoldsStratum(buckets.vals, items, key, n, k)
  }

  ghost predicate HoldsStratum<T>(vals: map<string, seq<nat>>, items: seq<T>, key: T -> string, n: nat, k: string)
    requires n <= |items|
  {
    if k in vals then vals[k] == IndexesOf(items, key, k, n) != [] else IndexesOf(items, key, k, n) == []
  }

  /** Stratum to original indexes, in the order the strata first appear. */
  method Bucket<T>(items: seq<T>, key: T -> string) returns (buckets: Buckets)
    ensures Bucketed(buckets, items, key, |items|)
  {
    buckets := OrderedMap([], map[]);
    for i := 0 to |items|
      invariant Bucketed(buckets, items, key, i)
    {
      OneMoreIndex(buckets, items, key, i);
      var k := key(items[i]);
      buckets := buckets.Set(k, Found(buckets, k) + [i]);
    }
  }

  /** `buckets.get(k) ?? []`. */
  function Found(buckets: Buckets, k: string): seq<nat> {
    var found := buckets.Get(k);
    if found.Some? then found.value else []
  }

  lemma OneMoreIndex<T>(buckets: Buckets, items: seq<T>, key: T -> string, i: nat)
    requires i < |items| && Bucketed(buckets, items, key, i)
    ensures var k := key(items[i]); Bucketed(buckets.Set(k, Found(buckets, k) + [i]), items, key, i + 1)
  {
    var k := key(items[i]);
    assert HoldsStratum(buckets.vals, items, key, i, k);
    var next, m := buckets.vals[k := Found(buckets, k) + [i]], i + 1;
    forall other ensures HoldsStratum(next, items, key, m, other) {
      assert HoldsStratum(buckets.vals, items, key, i, other);
    }
    OneMoreKey(buckets, items, key, i, Found(buckets, k) + [i]);
  }

  lemma OneMoreKey<T>(buckets: Buckets, items: seq<T>, key: T -> string, i: nat, indexes: seq<nat>)
    requires i < |items| && buckets.Valid() && buckets.keys == StrataIn(items[..i], key)
    ensures buckets.Set(key(items[i]), indexes).keys == StrataIn(items[..i + 1], key)
  {
    assert items[..i + 1][..i] == items[..i];
  }

  method ShuffledCopy(indexes: seq<nat>, draw: Draw, from: nat) returns (shuffled: array<nat>, calls: nat)
    requires Below(draw)
    ensures fresh(shuffled) && shuffled[..] == Shuffled(indexes, PicksFrom(draw, from, |indexes|))
    ensures multiset(shuffled[..]) == multiset(indexes)
    ensures calls == if indexes == [] then from else from + |indexes| - 1
  {
    shuffled := new nat[|indexes|](i requires 0 <= i < |indexes| => indexes[i]);
    assert shuffled[..] == indexes;
    calls := ShuffleInPlace(shuffled, draw, from);
    ShuffledPermutes(indexes, PicksFrom(draw, from, |indexes|));
  }

  method Front(shuffled: seq<nat>, take: nat) returns (chosen: set<nat>)
    requires take <= |shuffled|
    ensures chosen == Members(shuffled[..take])
  {
    chosen := {};
    for i := 0 to take
      invariant chosen == Members(shuffled[..i])
    {
      assert shuffled[..i + 1] == shuffled[..i] + [shuffled[i]];
      chosen := chosen + {shuffled[i]};
    }
  }

  lemma FrontOfShuffled(indexes: seq<nat>, shuffled: seq<nat>, take: nat)
    requires Distinct(indexes) && multiset(shuffled) == multiset(indexes) && take <= |indexes|
    ensures |shuffled| == |indexes| && |Members(shuffled[..take])| == take
    ensures forall i :: i in Members(shuffled[..take]) ==> i in indexes
  {
    DistinctPermutes(indexes, shuffled);
    SameMembers(indexes, shuffled);
    MembersOnce(shuffled[..take]);
  }

  /** The part of a stratum that is kept: the front of a shuffled copy. */
  method Choose(indexes: seq<nat>, fraction: real, minPerStratum: int, draw: Draw, from: nat)
    returns (chosen: set<nat>, calls: nat)
    requires Below(draw) && Distinct(indexes)
    ensures |chosen| == Quota(|indexes|, fraction, minPerStratum) && forall i :: i in chosen ==> i in indexes
    ensures var take := Quota(|indexes|, fraction, minPerStratum);
      chosen == Picked(indexes, take, draw, from) && calls == from + Uses(|indexes|, take)
  {
    var take := Quota(|indexes|, fraction, minPerStratum);
    if take == 0 { return {}, from; }
    var shuffled;
    shuffled, calls := ShuffledCopy(indexes, draw, from);
    FrontOfShuffled(indexes, shuffled[..], take);
    chosen := Front(shuffled[..], take);
  }

  /** The strata done so far have kept what they should, and nothing of any other stratum is kept. */
  ghost predicate DoneSoFar<T>(items: seq<T>, key: T -> string, fraction: real, minPerStratum: int, kept: set<nat>,
                               keys: seq<string>)
  {
    && (forall i :: i in kept ==> i < |items| && key(items[i]) in keys)
    && (forall k :: k in keys ==>
          |KeptWith(items, kept, key, k)| == Quota(CountKey(items, key, k), fraction, minPerStratum))
  }

  lemma OneMoreStratum<T>(items: seq<T>, key: T -> string, fraction: real, minPerStratum: int, kept: set<nat>,
                          keys: seq<string>, k: string, chosen: set<nat>)
    requires DoneSoFar(items, key, fraction, minPerStratum, kept, keys) && k !in keys
    requires forall i :: i in chosen ==> i < |items| && key(items[i]) == k
    requires |chosen| == Quota(CountKey(items, key, k), fraction, minPerStratum)
    ensures DoneSoFar(items, key, fraction, minPerStratum, kept + chosen, keys + [k])
  {
    assert KeptWith(items, kept + chosen, key, k) == chosen;
    forall other | other in keys
      ensures KeptWith(items, kept + chosen, key, other) == KeptWith(items, kept, key, other)
    {
    }
  }

  /** The strata as the map holds them, in the order the sampler visits them. */
  method Strata(buckets: Buckets, codeUnits: string -> real) returns (keys: seq<string>)
    requires buckets.Valid()
    ensures keys == SortBy(buckets.keys, codeUnits)
    ensures Distinct(keys) && forall k :: k in keys <==> k in buckets.vals
  {
    keys := SortBy(buckets.keys, codeUnits);
    SameMembers(keys, buckets.keys);
    DistinctPermutes(buckets.keys, keys);
  }

  lemma Untouched<T>(items: seq<T>, key: T -> string, k: string)
    requires IndexesOf(items, key, k, |items|) == []
    ensures CountKey(items, key, k) == 0
  {
    StratumSize(items, key, k, |items|);
    assert items[..|items|] == items;
  }

  /** What a stratified sample is: some of the items in their order, with exactly its quota of every stratum. */
  ghost predicate IsSample<T(!new)>(items: seq<T>, key: T -> string, fraction: real, minPerStratum: int, out: seq<T>) {
    && (exists places: seq<nat> :: InOrder(out, items, places))
    && forall k :: CountKey(out, key, k) == Quota(CountKey(items, key, k), fraction, minPerStratum)
  }

  /** One stratum, shuffled and cut to its quota. */
  method KeepStratum<T>(items: seq<T>, key: T -> string, fraction: real, minPerStratum: int, draw: Draw, from: nat,
                        before: set<nat>, ghost done: seq<string>, k: string, indexes: seq<nat>)
    returns (kept: set<nat>, calls: nat)
    requires Below(draw) && k !in done && indexes == IndexesOf(items, key, k, |items|)
    requires DoneSoFar(items, key, fraction, minPerStratum, before, done)
    requires Sampling(before, from) == SamplingOf(items, key, fraction, minPerStratum, draw, done)
    ensures DoneSoFar(items, key, fraction, minPerStratum, kept, done + [k])
    ensures Sampling(kept, calls) == SamplingOf(items, key, fraction, minPerStratum, draw, done + [k])
  {
    assert (done + [k])[..|done|] == done;
    SizeOfStratum(items, key, k);
    var chosen;
    chosen, calls := Choose(indexes, fraction, minPerStratum, draw, from);
    OneMoreStratum(items, key, fraction, minPerStratum, before, done, k, chosen);
    kept := before + chosen;
  }

  /** All strata in turn. */
  method KeepEach<T>(items: seq<T>, key: T -> string, fraction: real, minPerStratum: int, draw: Draw,
                     keys: seq<string>, vals: map<string, seq<nat>>)
    returns (kept: set<nat>)
    requires Below(draw) && Distinct(keys) && forall k :: k in keys ==> k in vals
    requires forall k :: HoldsStratum(vals, items, key, |items|, k)
    ensures DoneSoFar(items, key, fraction, minPerStratum, kept, keys)
    ensures kept == SamplingOf(items, key, fraction, minPerStratum, draw, keys).kept
  {
    var calls := 0;
    kept := {};
    for i := 0 to |keys|
      invariant DoneSoFar(items, key, fraction, minPerStratum, kept, keys[..i])
      invariant Sampling(kept, calls) == SamplingOf(items, key, fraction, minPerStratum, draw, keys[..i])
    {
      assert HoldsStratum(vals, items, key, |items|, keys[i]);
      kept, calls := KeepStratum(items, key, fraction, minPerStratum, draw, calls, kept, keys[..i], keys[i],
                                 vals[keys[i]]);
      assert keys[..i + 1] == keys[..i] + [keys[i]];
    }
    assert keys[..|keys|] == keys;
  }

  method KeepStrata<T>(items: seq<T>, key: T -> string, fraction: real, minPerStratum: int, draw: Draw,
                       codeUnits: string -> real)
    returns (kept: set<nat>)
    requires Below(draw)
    ensures kept ==
      SamplingOf(items, key, fraction, minPerStratum, draw, SortBy(StrataIn(items, key), codeUnits)).kept
    ensures forall k :: CountKey(Kept(items, kept), key, k) == Quota(CountKey(items, key, k), fraction, minPerStratum)
  {
    var buckets := Bucket(items, key);
    assert items[..|items|] == items;
    var keys := Strata(buckets, codeUnits);
    kept := KeepEach(items, key, fraction, minPerStratum, draw, keys, buckets.vals);
    AllStrata(items, key, fraction, minPerStratum, kept, keys, buckets.vals);
  }

  lemma SizeOfStratum<T>(items: seq<T>, key: T -> string, k: string)
    ensures |IndexesOf(items, key, k, |items|)| == CountKey(items, key, k)
  {
    StratumSize(items, key, k, |items|);
    assert items[..|items|] == items;
  }

  lemma AllStrata<T>(items: seq<T>, key: T -> string, fraction: real, minPerStratum: int, kept: set<nat>,
                     keys: seq<string>, vals: map<string, seq<nat>>)
    requires DoneSoFar(items, key, fraction, minPerStratum, kept, keys)
    requires forall k :: HoldsStratum(vals, items, key, |items|, k)
    requires forall k :: k in keys <==> k in vals
    ensures forall k :: CountKey(Kept(items, kept), key, k) == Quota(CountKey(items, key, k), fraction, minPerStratum)
  {
    forall k ensures CountKey(Kept(items, kept), key, k) == Quota(CountKey(items, key, k), fraction, minPerStratum) {
      KeptCounts(items, kept, key, k);
      assert HoldsStratum(vals, items, key, |items|, k);
      if k !in keys {
        Untouched(items, key, k);
        assert KeptWith(items, kept, key, k) == {};
      }
    }
  }

  /** `stratifiedSample`: for every fraction, floor and random source. */
  method StratifiedSample<T(!new)>(items: seq<T>, key: T -> string, fraction: real, minPerStratum: int,
                                   rng: nat -> real, codeUnits: string -> real)
    returns (out: seq<T>)
    requires UnitSource(rng)
    ensures out == Sampled(items, key, fraction, minPerStratum, rng, codeUnits)
    ensures IsSample(items, key, fraction, minPerStratum, out)
  {
    forall k ensures fraction <= 0.0 && minPerStratum <= 0 ==>
               Quota(CountKey(items, key, k), fraction, minPerStratum) == 0
             ensures fraction >= 1.0 ==>
               Quota(CountKey(items, key, k), fraction, minPerStratum) == CountKey(items, key, k)
    {
      QuotaAtTheEnds(CountKey(items, key, k), fraction, minPerStratum);
    }
    ghost var places: seq<nat> := [];
    if |items| == 0 || (fraction <= 0.0 && minPerStratum <= 0) {
      out := [];
      assert InOrder(out, items, places);
      return;
    }
    if fraction >= 1.0 {
      places := seq(|items|, (i: nat) => i);
      assert InOrder(items, items, places);
      return items;
    }
    DrawingBelow(rng);
    var kept := KeepStrata(items, key, fraction, minPerStratum, Drawing(rng), codeUnits);
    out := Kept(items, kept);
    places := KeptInOrder(items, kept);
  }

  // ----- every choice has a source -----

  /** The picks depend on no more of the source than the shuffle uses up. */
  lemma SamePicks(draw: Draw, from: nat, other: Draw, start: nat, n: nat)
    requires Below(draw) && Below(other)
    requires forall i: nat :: 1 <= i < n ==> draw(CallFor(from, n, i), i + 1) == other(CallFor(start, n, i), i + 1)
    ensures PicksFrom(draw, from, n) == PicksFrom(other, start, n)
  {
    var p, q := PicksFrom(draw, from, n), PicksFrom(other, start, n);
    forall i | 0 <= i < n ensures p[i] == q[i] {
      assert CallFor(from, n, i) >= from;
      if i == 0 { assert draw(CallFor(from, n, 0), 1) < 1 && other(CallFor(start, n, 0), 1) < 1; }
    }
  }

  ghost predicate AlikeBelow(draw: Draw, other: Draw, calls: nat) {
    forall c: nat, m: nat {:trigger draw(c, m)} {:trigger other(c, m)} :: c < calls ==> draw(c, m) == other(c, m)
  }

  lemma SamePicked(draw: Draw, other: Draw, from: nat, indexes: seq<nat>, take: nat)
    requires Below(draw) && Below(other) && take <= |indexes|
    requires AlikeBelow(draw, other, from + Uses(|indexes|, take))
    ensures Picked(indexes, take, draw, from) == Picked(indexes, take, other, from)
  {
    if take > 0 { SamePicks(draw, from, other, from, |indexes|); }
  }

  /** Two sources alike as far as the strata use them choose alike. */
  lemma {:induction false} SameSampling<T>(items: seq<T>, key: T -> string, fraction: real, minPerStratum: int,
                                           draw: Draw, other: Draw, keys: seq<string>)
    requires Below(draw) && Below(other)
    requires AlikeBelow(draw, other, SamplingOf(items, key, fraction, minPerStratum, draw, keys).calls)
    ensures SamplingOf(items, key, fraction, minPerStratum, draw, keys) ==
            SamplingOf(items, key, fraction, minPerStratum, other, keys)
  {
    if keys != [] {
      var front := keys[..|keys| - 1];
      var calls := SamplingOf(items, key, fraction, minPerStratum, draw, front).calls;
      var indexes := IndexesOf(items, key, keys[|keys| - 1], |items|);
      SameSampling(items, key, fraction, minPerStratum, draw, other, front);
      SamePicked(draw, other, calls, indexes, Quota(|indexes|, fraction, minPerStratum));
    }
  }

  function Those(indexes: seq<nat>, want: set<nat>, wanted: bool): (r: seq<nat>)
    ensures forall i :: i in r <==> i in indexes && (i in want <==> wanted)
  {
    if indexes == [] then []
    else
      var i := indexes[|indexes| - 1];
      assert indexes == indexes[..|indexes| - 1] + [i];
      Those(indexes[..|indexes| - 1], want, wanted) + if i in want <==> wanted then [i] else []
  }

  lemma {:induction false} BothKinds(indexes: seq<nat>, want: set<nat>)
    ensures multiset(Those(indexes, want, true) + Those(indexes, want, false)) == multiset(indexes)
  {
    if indexes != [] {
      var front, i := indexes[..|indexes| - 1], indexes[|indexes| - 1];
      BothKinds(front, want);
      assert indexes == front + [i];
    }
  }

  lemma {:induction false} ThoseDistinct(indexes: seq<nat>, want: set<nat>)
    requires Distinct(indexes)
    ensures Distinct(Those(indexes, want, true))
  {
    if indexes != [] {
      ThoseDistinct(indexes[..|indexes| - 1], want);
      var front := Those(indexes[..|indexes| - 1], want, true);
      forall k | 0 <= k < |front| ensures front[k] != indexes[|indexes| - 1] { assert front[k] in front; }
    }
  }

  /** Whatever part of a stratum is wanted, some source leaves it at the front. */
  lemma StratumHasASource(indexes: seq<nat>, want: set<nat>) returns (rng: nat -> real)
    requires Distinct(indexes) && forall i :: i in want ==> i in indexes
    ensures UnitSource(rng) && Below(Drawing(rng)) && |want| <= |indexes|
    ensures Picked(indexes, |want|, Drawing(rng), 0) == want
  {
    var first, rest := Those(indexes, want, true), Those(indexes, want, false);
    BothKinds(indexes, want);
    ThoseDistinct(indexes, want);
    MembersOnce(first);
    assert Members(first) == want;
    rng := EveryOrderHasASource(indexes, first + rest);
    DrawingBelow(rng);
    assert |first + rest| == |multiset(first + rest)| == |multiset(indexes)| == |indexes|;
    assert (first + rest)[..|want|] == first;
  }

  /** The first source as far as it is used, and the second from there on. */
  function Joint(first: nat -> real, calls: nat, second: nat -> real): nat -> real {
    (c: nat) => if c < calls then first(c) else second(c - calls)
  }

  lemma JointUnit(first: nat -> real, calls: nat, second: nat -> real)
    requires UnitSource(first) && UnitSource(second)
    ensures UnitSource(Joint(first, calls, second))
  {
    forall c: nat ensures 0.0 <= Joint(first, calls, second)(c) < 1.0 {
      if c >= calls { assert 0.0 <= second(c - calls) < 1.0; }
    }
  }

  lemma JointAt(first: nat -> real, calls: nat, second: nat -> real, c: nat, m: nat)
    ensures Drawing(Joint(first, calls, second))(calls + c, m) == Drawing(second)(c, m)
  {
  }

  lemma JointPicks(first: nat -> real, calls: nat, second: nat -> real, indexes: seq<nat>, take: nat)
    requires take <= |indexes| && Below(Drawing(second)) && Below(Drawing(Joint(first, calls, second)))
    ensures Picked(indexes, take, Drawing(Joint(first, calls, second)), calls) ==
            Picked(indexes, take, Drawing(second), 0)
  {
    if take > 0 {
      var n, draw, other := |indexes|, Drawing(Joint(first, calls, second)), Drawing(second);
      forall i: nat | 1 <= i < n ensures draw(CallFor(calls, n, i), i + 1) == other(CallFor(0, n, i), i + 1) {
        JointAt(first, calls, second, CallFor(0, n, i), i + 1);
      }
      SamePicks(draw, calls, other, 0, n);
    }
  }

  lemma JointAlike(first: nat -> real, calls: nat, second: nat -> real)
    ensures AlikeBelow(Drawing(first), Drawing(Joint(first, calls, second)), calls)
  {
  }

  /** What is wanted of the strata so far. */
  ghost function WantedOf<T>(items: seq<T>, key: T -> string, want: set<nat>, keys: seq<string>): set<nat> {
    set i | 0 <= i < |items| && i in want && key(items[i]) in keys
  }

  /** As many wanted of a stratum as its quota. */
  ghost predicate Enough<T>(items: seq<T>, key: T -> string, fraction: real, minPerStratum: int, want: set<nat>,
                            k: string)
  {
    |KeptWith(items, want, key, k)| == Quota(CountKey(items, key, k), fraction, minPerStratum)
  }

  lemma WantedMore<T>(items: seq<T>, key: T -> string, want: set<nat>, keys: seq<string>)
    requires keys != []
    ensures WantedOf(items, key, want, keys) ==
      WantedOf(items, key, want, keys[..|keys| - 1]) + KeptWith(items, want, key, keys[|keys| - 1])
  {
    assert keys == keys[..|keys| - 1] + [keys[|keys| - 1]];
  }

  lemma {:induction false} StrataHaveASource<T>(items: seq<T>, key: T -> string, fraction: real, minPerStratum: int,
                                                want: set<nat>, keys: seq<string>) returns (rng: nat -> real)
    requires forall k :: k in keys ==> Enough(items, key, fraction, minPerStratum, want, k)
    ensures UnitSource(rng) && Below(Drawing(rng))
    ensures SamplingOf(items, key, fraction, minPerStratum, Drawing(rng), keys).kept == WantedOf(items, key, want, keys)
  {
    rng := (c: nat) => 0.0;
    DrawingBelow(rng);
    if keys == [] {
      assert WantedOf(items, key, want, keys) == {};
    } else {
      var front, k := keys[..|keys| - 1], keys[|keys| - 1];
      var first := StrataHaveASource(items, key, fraction, minPerStratum, want, front);
      rng := OneMoreSource(items, key, fraction, minPerStratum, want, keys, first);
    }
  }

  lemma OneMoreSource<T>(items: seq<T>, key: T -> string, fraction: real, minPerStratum: int, want: set<nat>,
                         keys: seq<string>, first: nat -> real) returns (rng: nat -> real)
    requires keys != [] && Enough(items, key, fraction, minPerStratum, want, keys[|keys| - 1])
    requires UnitSource(first) && Below(Drawing(first))
    requires SamplingOf(items, key, fraction, minPerStratum, Drawing(first), keys[..|keys| - 1]).kept ==
             WantedOf(items, key, want, keys[..|keys| - 1])
    ensures UnitSource(rng) && Below(Drawing(rng))
    ensures SamplingOf(items, key, fraction, minPerStratum, Drawing(rng), keys).kept == WantedOf(items, key, want, keys)
  {
    var front, k := keys[..|keys| - 1], keys[|keys| - 1];
    var indexes, wanted := IndexesOf(items, key, k, |items|), KeptWith(items, want, key, k);
    SizeOfStratum(items, key, k);
    var second := StratumHasASource(indexes, wanted);
    var calls := SamplingOf(items, key, fraction, minPerStratum, Drawing(first), front).calls;
    rng := Joint(first, calls, second);
    DrawingBelow(rng);
    JointAlike(first, calls, second);
    SameSampling(items, key, fraction, minPerStratum, Drawing(first), Drawing(rng), front);
    JointUnit(first, calls, second);
    JointPicks(first, calls, second, indexes, |wanted|);
    WantedMore(items, key, want, keys);
  }

  lemma {:induction false} KeptSame<T>(items: seq<T>, kept: set<nat>, other: set<nat>)
    requires forall i :: 0 <= i < |items| ==> (i in kept <==> i in other)
    ensures Kept(items, kept) == Kept(items, other)
  {
    if items != [] { KeptSame(items[..|items| - 1], kept, other); }
  }

  lemma {:induction false} KeptAtTheEnds<T>(items: seq<T>, kept: set<nat>)
    ensures (forall i :: 0 <= i < |items| ==> i !in kept) ==> Kept(items, kept) == []
    ensures (forall i :: 0 <= i < |items| ==> i in kept) ==> Kept(items, kept) == items
  {
    if items != [] {
      KeptAtTheEnds(items[..|items| - 1], kept);
      assert items == items[..|items| - 1] + [items[|items| - 1]];
    }
  }

  lemma FullPart(part: set<nat>, whole: set<nat>)
    requires part <= whole && |part| == |whole|
    ensures part == whole
  {
    assert whole == part + (whole - part);
  }

  /** At the ends of the fraction there is one choice, nothing or everything. */
  lemma OnlyChoice<T>(items: seq<T>, key: T -> string, fraction: real, minPerStratum: int, want: set<nat>, i: nat)
    requires i < |items| && Enough(items, key, fraction, minPerStratum, want, key(items[i]))
    ensures fraction <= 0.0 && minPerStratum <= 0 ==> i !in want
    ensures fraction >= 1.0 ==> i in want
  {
    var k := key(items[i]);
    QuotaAtTheEnds(CountKey(items, key, k), fraction, minPerStratum);
    if i in want { assert i in KeptWith(items, want, key, k); }
    if fraction >= 1.0 { WholeStratum(items, key, want, i); }
  }

  lemma WholeStratum<T>(items: seq<T>, key: T -> string, want: set<nat>, i: nat)
    requires i < |items| && |KeptWith(items, want, key, key(items[i]))| == CountKey(items, key, key(items[i]))
    ensures i in want
  {
    var part, indexes := KeptWith(items, want, key, key(items[i])), IndexesOf(items, key, key(items[i]), |items|);
    SizeOfStratum(items, key, key(items[i]));
    MembersOnce(indexes);
    FullPart(part, Members(indexes));
    assert i in Members(indexes);
  }

  /**
   * Whatever choice of quota-many items in each stratum is wanted, some source in [0, 1) makes the sampler return
   * exactly it.
   */
  lemma EverySampleHasASource<T>(items: seq<T>, key: T -> string, fraction: real, minPerStratum: int,
                                 codeUnits: string -> real, want: set<nat>) returns (rng: nat -> real)
    requires forall k :: Enough(items, key, fraction, minPerStratum, want, k)
    ensures UnitSource(rng) && Sampled(items, key, fraction, minPerStratum, rng, codeUnits) == Kept(items, want)
  {
    var keys := SortBy(StrataIn(items, key), codeUnits);
    rng := StrataHaveASource(items, key, fraction, minPerStratum, want, keys);
    if items == [] || (fraction <= 0.0 && minPerStratum <= 0) || fraction >= 1.0 {
      ChoiceAtTheEnds(items, key, fraction, minPerStratum, want);
    } else {
      AllStrataWanted(items, key, codeUnits, want);
    }
  }

  lemma ChoiceAtTheEnds<T>(items: seq<T>, key: T -> string, fraction: real, minPerStratum: int, want: set<nat>)
    requires forall k :: Enough(items, key, fraction, minPerStratum, want, k)
    ensures items == [] || (fraction <= 0.0 && minPerStratum <= 0) ==> Kept(items, want) == []
    ensures fraction >= 1.0 ==> Kept(items, want) == items
  {
    forall i: nat | i < |items| ensures fraction <= 0.0 && minPerStratum <= 0 ==> i !in want
                                ensures fraction >= 1.0 ==> i in want
    {
      OnlyChoice(items, key, fraction, minPerStratum, want, i);
    }
    KeptAtTheEnds(items, want);
  }

  lemma AllStrataWanted<T>(items: seq<T>, key: T -> string, codeUnits: string -> real, want: set<nat>)
    ensures Kept(items, WantedOf(items, key, want, SortBy(StrataIn(items, key), codeUnits))) == Kept(items, want)
  {
    var keys := SortBy(StrataIn(items, key), codeUnits);
    SameMembers(keys, StrataIn(items, key));
    forall i: nat | i < |items| ensures key(items[i]) in keys { StratumIn(items, key, i); }
    KeptSame(items, WantedOf(items, key, want, keys), want);
  }
}
