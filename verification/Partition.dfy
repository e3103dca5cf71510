/** Summing over a sequence and over the parts into which a key divides it. */
module Partition {

  /** The elements with key `k`, in order. */
  function Pick<C, K(==)>(d: seq<C>, keyOf: C -> K, k: K): seq<C> {
    if d == [] then []
    else
      var front, last := Pick(d[..|d| - 1], keyOf, k), d[|d| - 1];
      if keyOf(last) == k then front + [last] else front
  }

  function SumOf<C>(d: seq<C>, f: C -> int): int {
    if d == [] then 0 else SumOf(d[..|d| - 1], f) + f(d[|d| - 1])
  }

  function Map<A, B>(s: seq<A>, f: A -> B): seq<B> {
    if s == [] then [] else Map(s[..|s| - 1], f) + [f(s[|s| - 1])]
  }

  lemma {:induction false} MapAt<A, B>(s: seq<A>, f: A -> B)
    ensures |Map(s, f)| == |s|
    ensures forall i :: 0 <= i < |s| ==> Map(s, f)[i] == f(s[i])
  {
    if s != [] { MapAt(s[..|s| - 1], f); }
  }

  lemma {:induction false} MapConcat<A, B>(a: seq<A>, b: seq<A>, f: A -> B)
    ensures Map(a + b, f) == Map(a, f) + Map(b, f)
  {
    if b == [] {
      assert a + b == a;
    } else {
      MapConcat(a, b[..|b| - 1], f);
      assert (a + b)[..|a + b| - 1] == a + b[..|b| - 1];
    }
  }

  /** The sums of the parts, added up. */
  function SumPicks<C, K(==)>(keys: seq<K>, d: seq<C>, keyOf: C -> K, f: C -> int): int {
    if keys == [] then 0
    else SumPicks(keys[..|keys| - 1], d, keyOf, f) + SumOf(Pick(d, keyOf, keys[|keys| - 1]), f)
  }

  predicate Unique<K(==)>(keys: seq<K>) {
    forall i, j :: 0 <= i < j < |keys| ==> keys[i] != keys[j]
  }

  lemma {:induction false} PickMembers<C, K>(d: seq<C>, keyOf: C -> K, k: K)
    ensures forall c :: c in Pick(d, keyOf, k) <==> c in d && keyOf(c) == k
  {
    if d != [] {
      PickMembers(d[..|d| - 1], keyOf, k);
      assert d == d[..|d| - 1] + [d[|d| - 1]];
    }
  }

  lemma SumSnoc<C>(d: seq<C>, c: C, f: C -> int)
    ensures SumOf(d + [c], f) == SumOf(d, f) + f(c)
  {
    assert (d + [c])[..|d|] == d;
  }

  /** One more element adds its weight to the part of its key. */
  lemma {:induction false} SumPicksSnoc<C, K>(keys: seq<K>, d: seq<C>, c: C, keyOf: C -> K, f: C -> int)
    requires Unique(keys)
    ensures SumPicks(keys, d + [c], keyOf, f) == SumPicks(keys, d, keyOf, f) + (if keyOf(c) in keys then f(c) else 0)
  {
    if keys != [] {
      var front, last := keys[..|keys| - 1], keys[|keys| - 1];
      assert keys == front + [last] && last !in front;
      SumPicksSnoc(front, d, c, keyOf, f);
      assert (d + [c])[..|d|] == d;
      SumSnoc(Pick(d, keyOf, last), c, f);
    }
  }

  lemma {:induction false} SumPicksEmpty<C, K>(keys: seq<K>, keyOf: C -> K, f: C -> int)
    ensures SumPicks(keys, [], keyOf, f) == 0
  {
    if keys != [] { SumPicksEmpty(keys[..|keys| - 1], keyOf, f); }
  }

  /** Dividing a sequence by distinct keys that cover it conserves every sum. */
  lemma {:induction false} PartitionConserves<C, K>(keys: seq<K>, d: seq<C>, keyOf: C -> K, f: C -> int)
    requires Unique(keys) && forall i :: 0 <= i < |d| ==> keyOf(d[i]) in keys
    ensures SumPicks(keys, d, keyOf, f) == SumOf(d, f)
  {
    if d == [] {
      SumPicksEmpty(keys, keyOf, f);
    } else {
      var front, last := d[..|d| - 1], d[|d| - 1];
      assert d == front + [last] && keyOf(d[|d| - 1]) in keys;
      PartitionConserves(keys, front, keyOf, f);
      SumPicksSnoc(keys, front, last, keyOf, f);
    }
  }
}
