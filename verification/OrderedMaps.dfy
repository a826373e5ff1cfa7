/** A JavaScript `Map`: iteration order is insertion order, and re-setting a key keeps its place. */
module OrderedMaps {
  import opened DistinctLists
  import opened Wrappers

  datatype OrderedMap<K(==,!new), V> = OrderedMap(keys: seq<K>, vals: map<K, V>) {
    ghost predicate Valid() {
      && Distinct(keys)
      && vals.Keys == set k | k in keys
    }

    function Get(k: K): Option<V> {
      if k in vals then Some(vals[k]) else None
    }

    function Delete(k: K): (m: OrderedMap<K, V>)
      requires Valid()
      ensures m.Valid()
      ensures m.vals == vals - {k} && m.keys == Without(keys, k)
    {
      WithoutDistinct(keys, k);
      OrderedMap(Without(keys, k), vals - {k})
    }

    function Set(k: K, v: V): (m: OrderedMap<K, V>)
      requires Valid()
      ensures m.Valid()
      ensures m.vals == vals[k := v] && m.keys == if k in keys then keys else keys + [k]
    {
      OrderedMap(if k in keys then keys else keys + [k], vals[k := v])
    }

    /** Delete and set again: the key moves to the end. */
    function Reinsert(k: K, v: V): (m: OrderedMap<K, V>)
      requires Valid()
      ensures m.Valid()
      ensures m.vals == vals[k := v] && m.keys == Without(keys, k) + [k]
    {
      WithoutDistinct(keys, k);
      Delete(k).Set(k, v)
    }

    /** Past the cap, drop the key inserted longest ago. */
    function Evict(cap: nat): (m: OrderedMap<K, V>)
      requires Valid()
      ensures m.Valid()
      ensures m.keys == if |keys| > cap then keys[1..] else keys
      ensures m.vals == if |keys| > cap then vals - {keys[0]} else vals
    {
      if |keys| > cap then
        WithoutFirst(keys);
        Delete(keys[0])
      else this
    }
  }

  function Without<K(==,!new)>(s: seq<K>, k: K): (r: seq<K>)
    ensures forall x :: x in r <==> x in s && x != k
  {
    if s == [] then []
    else
      assert s == s[..|s| - 1] + [s[|s| - 1]];
      Without(s[..|s| - 1], k) + if s[|s| - 1] == k then [] else [s[|s| - 1]]
  }

  lemma {:induction false} WithoutDistinct<K(!new)>(s: seq<K>, k: K)
    requires Distinct(s)
    ensures Distinct(Without(s, k))
  {
    if s != [] {
      var front, w := s[..|s| - 1], Without(s[..|s| - 1], k);
      WithoutDistinct(front, k);
      forall i | 0 <= i < |w| ensures w[i] != s[|s| - 1] {
        assert w[i] in w && w[i] in front;
      }
    }
  }

  lemma {:induction false} WithoutAbsent<K(!new)>(s: seq<K>, k: K)
    requires k !in s
    ensures Without(s, k) == s
  {
    if s != [] {
      WithoutAbsent(s[..|s| - 1], k);
      assert s == s[..|s| - 1] + [s[|s| - 1]];
    }
  }

  lemma {:induction false} WithoutFirst<K(!new)>(s: seq<K>)
    requires s != [] && Distinct(s)
    ensures Without(s, s[0]) == s[1..]
  {
    if |s| > 1 {
      WithoutFirst(s[..|s| - 1]);
      assert s[..|s| - 1][1..] + [s[|s| - 1]] == s[1..];
    } else {
      assert s[..0] == [];
    }
  }

  lemma {:induction false} WithoutConcat<K(!new)>(s: seq<K>, t: seq<K>, k: K)
    ensures Without(s + t, k) == Without(s, k) + Without(t, k)
  {
    if t == [] {
      assert s + t == s;
    } else {
      WithoutConcat(s, t[..|t| - 1], k);
      assert (s + t)[..|s + t| - 1] == s + t[..|t| - 1];
    }
  }
}
