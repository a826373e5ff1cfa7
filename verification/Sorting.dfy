/** Ascending sort by a numeric key: the repository's `[...xs].sort((a, b) => a - b)`. */
module Sorting {

  ghost predicate Ascending<T>(s: seq<T>, key: T -> real) {
    forall i, j :: 0 <= i <= j < |s| ==> key(s[i]) <= key(s[j])
  }

  /** The key of a number is the number itself. */
  const Value: real -> real := x => x

  ghost predicate Injective<T(!new)>(key: T -> real) {
    forall x, y :: key(x) == key(y) ==> x == y
  }

  /** Where x goes: after every member that is not larger. */
  function Slot<T>(s: seq<T>, x: T, key: T -> real): (p: nat)
    requires Ascending(s, key)
    ensures p <= |s|
    ensures forall i :: 0 <= i < p ==> key(s[i]) <= key(x)
    ensures forall i :: p <= i < |s| ==> key(x) < key(s[i])
  {
    if s == [] || key(s[|s| - 1]) <= key(x) then |s| else Slot(s[..|s| - 1], x, key)
  }

  lemma Splice<T>(s: seq<T>, p: nat, x: T)
    requires p <= |s|
    ensures multiset(s[..p] + [x] + s[p..]) == multiset(s) + multiset{x}
  {
    assert s == s[..p] + s[p..];
  }

  function Insert<T>(s: seq<T>, x: T, key: T -> real): (r: seq<T>)
    requires Ascending(s, key)
    ensures Ascending(r, key)
    ensures |r| == |s| + 1 && multiset(r) == multiset(s) + multiset{x}
  {
    var p := Slot(s, x, key);
    Splice(s, p, x);
    s[..p] + [x] + s[p..]
  }

  function SortBy<T>(s: seq<T>, key: T -> real): (r: seq<T>)
    ensures Ascending(r, key)
    ensures multiset(r) == multiset(s)
    ensures |r| == |s|
  {
    if s == [] then []
    else
      assert s == s[..|s| - 1] + [s[|s| - 1]];
      Insert(SortBy(s[..|s| - 1], key), s[|s| - 1], key)
  }

  /** An ascending arrangement of given values is unique, so any correct sort computes `SortBy`. */
  lemma {:induction false} AscendingUnique<T(!new)>(s: seq<T>, t: seq<T>, key: T -> real)
    requires Ascending(s, key) && Ascending(t, key) && Injective(key)
    requires multiset(s) == multiset(t)
    ensures s == t
  {
    SameMembers(s, t);
    if s != [] {
      SameLeast(s, t, key);
      SameRests(s, t);
      AscendingUnique(s[1..], t[1..], key);
      HeadAndRest(s, t);
    }
  }

  lemma HeadAndRest<T>(s: seq<T>, t: seq<T>)
    requires s != [] && t != [] && s[0] == t[0] && s[1..] == t[1..]
    ensures s == t
  {
    assert s == [s[0]] + s[1..] && t == [t[0]] + t[1..];
  }

  lemma SameRests<T>(s: seq<T>, t: seq<T>)
    requires s != [] && t != [] && s[0] == t[0] && multiset(s) == multiset(t)
    ensures multiset(s[1..]) == multiset(t[1..])
  {
    WithoutFirst(s);
    WithoutFirst(t);
  }

  lemma SameLeast<T(!new)>(s: seq<T>, t: seq<T>, key: T -> real)
    requires Ascending(s, key) && Ascending(t, key) && Injective(key)
    requires s != [] && t != [] && forall x :: x in s <==> x in t
    ensures s[0] == t[0]
  {
    assert s[0] in t && t[0] in s;
  }

  lemma WithoutFirst<T>(s: seq<T>)
    requires s != []
    ensures multiset(s[1..]) == multiset(s) - multiset{s[0]}
  {
    assert s == [s[0]] + s[1..];
  }

  lemma SameMembers<T>(s: seq<T>, t: seq<T>)
    requires multiset(s) == multiset(t)
    ensures forall x :: x in s <==> x in t
    ensures |s| == |t|
  {
    assert |s| == |multiset(s)| && |t| == |multiset(t)|;
    forall x ensures x in s <==> x in t {
      assert x in s <==> x in multiset(s);
      assert x in t <==> x in multiset(t);
    }
  }

  lemma TakeOut<T>(s: seq<T>, i: nat)
    requires i < |s|
    ensures multiset(s[..i] + s[i + 1..]) == multiset(s) - multiset{s[i]}
  {
    assert s == s[..i] + [s[i]] + s[i + 1..];
  }

  lemma TakeLast<T>(s: seq<T>)
    requires s != []
    ensures multiset(s[..|s| - 1]) == multiset(s) - multiset{s[|s| - 1]}
  {
    assert s == s[..|s| - 1] + [s[|s| - 1]];
  }
}
