/** The distinct members of a list in the order they were last seen, which bounded maps keep the end of. */
module Recency {
  import opened DistinctLists
  import opened OrderedMaps

  /** The distinct members of s, each at its last occurrence: least recently seen first. */
  ghost function ByRecency(s: seq<string>): (r: seq<string>)
    ensures forall x :: x in r <==> x in s
  {
    if s == [] then []
    else Newest(s[0], s[1..]) + ByRecency(s[1..])
  }

  ghost function Newest(x: string, later: seq<string>): seq<string> {
    if x in later then [] else [x]
  }

  ghost function Last(s: seq<string>, n: nat): seq<string> {
    if |s| > n then s[|s| - n..] else s
  }

  lemma {:induction false} RecencyDistinct(s: seq<string>)
    ensures Distinct(ByRecency(s))
  {
    if s != [] { RecencyDistinct(s[1..]); }
  }

  /** A new sighting moves a fingerprint to the recent end. */
  lemma {:induction false} RecencyAppend(s: seq<string>, x: string)
    ensures ByRecency(s + [x]) == Without(ByRecency(s), x) + [x]
  {
    if s == [] {
      assert s + [x] == [x];
      assert [x][1..] == [];
    } else {
      var y, t := s[0], s[1..];
      RecencyAppend(t, x);
      assert s + [x] == [y] + (t + [x]) && s == [y] + t;
      RecencyCons(y, t + [x]);
      RecencyCons(y, t);
      NewestAppend(y, t, x);
      WithoutConcat(Newest(y, t), ByRecency(t), x);
      Associates(Without(Newest(y, t), x), Without(ByRecency(t), x), x);
    }
  }

  lemma RecencyCons(y: string, t: seq<string>)
    ensures ByRecency([y] + t) == Newest(y, t) + ByRecency(t)
  {
    assert ([y] + t)[1..] == t;
  }

  lemma Associates(a: seq<string>, b: seq<string>, x: string)
    ensures a + (b + [x]) == (a + b) + [x]
  {
  }

  lemma NewestAppend(y: string, t: seq<string>, x: string)
    ensures Newest(y, t + [x]) == Without(Newest(y, t), x)
  {
    assert [y][..0] == [];
    assert y in t + [x] <==> y in t || y == x;
  }

  /** Dropping the oldest entries first and one key afterwards, or the other way round. */
  lemma WindowStep(recent: seq<string>, x: string, cap: nat)
    requires Distinct(recent) && cap >= 1
    ensures Last(Without(Last(recent, cap), x) + [x], cap) == Last(Without(recent, x) + [x], cap)
  {
    if |recent| > cap {
      var cut := |recent| - cap;
      var gone, kept := recent[..cut], recent[cut..];
      assert recent == gone + kept;
      WithoutConcat(gone, kept, x);
      WithoutLength(kept, x);
      var w := Without(kept, x) + [x];
      assert Without(recent, x) + [x] == Without(gone, x) + w;
      LastOfSuffix(Without(gone, x), w, cap);
    }
  }

  lemma LastOfSuffix(s: seq<string>, t: seq<string>, n: nat)
    requires |t| >= n
    ensures Last(s + t, n) == Last(t, n)
  {
  }

  lemma {:induction false} WithoutLength(s: seq<string>, x: string)
    requires Distinct(s)
    ensures |Without(s, x)| == |s| - if x in s then 1 else 0
  {
    if s != [] {
      var front, last := s[..|s| - 1], s[|s| - 1];
      WithoutLength(front, x);
      assert s == front + [last];
      assert last !in front;
    }
  }

  lemma LastDistinct(s: seq<string>, n: nat)
    requires Distinct(s)
    ensures Distinct(Last(s, n))
  {
  }

  lemma RecencySize(s: seq<string>)
    ensures |ByRecency(s)| == |Members(s)|
  {
    RecencyDistinct(s);
    MembersOnce(ByRecency(s));
    assert Members(ByRecency(s)) == Members(s);
  }

  /** The end of the list holds a member exactly if fewer than n others have been seen since it last was. */
  lemma {:induction false} RecentExactly(s: seq<string>, i: nat, n: nat)
    requires i < |s| && s[i] !in s[i + 1..]
    ensures s[i] in Last(ByRecency(s), n) <==> |Members(s[i + 1..])| < n
  {
    var x, t := s[i], s[1..];
    assert s == [s[0]] + t;
    RecencyCons(s[0], t);
    if i == 0 {
      RecencySize(t);
      LastOfFirst(x, ByRecency(t), n);
    } else {
      assert t[i - 1] == x && t[i..] == s[i + 1..];
      RecentExactly(t, i - 1, n);
      LastOfMore(Newest(s[0], t), ByRecency(t), x, n);
    }
  }

  lemma LastOfFirst(x: string, r: seq<string>, n: nat)
    requires x !in r
    ensures x in Last([x] + r, n) <==> |r| < n
  {
    if |r| < n { assert Last([x] + r, n)[0] == x; }
    if |r| >= n { assert Last([x] + r, n) == r[|r| - n..]; }
  }

  lemma LastOfMore(pre: seq<string>, r: seq<string>, x: string, n: nat)
    requires x in r
    ensures x in Last(pre + r, n) <==> x in Last(r, n)
  {
    if |r| >= n { LastOfSuffix(pre, r, n); }
    else if |pre + r| > n {
      assert Last(pre + r, n) == pre[|pre| + |r| - n..] + r;
    }
  }
}
