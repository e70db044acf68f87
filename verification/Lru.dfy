/** The bounded least-recently-used caches behind the store (`lru::LruCache`): the
    retained entries and their keys from most to least recently used. */
module Lru {
  import opened Sequences

  datatype Cache<!K, V> = Cache(order: seq<K>, data: map<K, V>)

  /** The recency list names every retained key once and stays within capacity. */
  ghost predicate Valid<K(!new), V>(c: Cache<K, V>, capacity: nat) {
    && Distinct(c.order)
    && (forall k :: k in c.order <==> k in c.data)
    && |c.order| <= capacity
  }

  function Empty<K, V>(): Cache<K, V> { Cache([], map[]) }

  function Without<K(==, !new)>(s: seq<K>, k: K): (r: seq<K>)
    ensures forall x :: x in r <==> x in s && x != k
    ensures |r| <= |s| && (k in s ==> |r| < |s|) && (k !in s ==> r == s)
  {
    if s == [] then []
    else if s[0] == k then Without(s[1..], k)
    else [s[0]] + Without(s[1..], k)
  }

  /** Store `v` under `k` and make `k` the most recent key: `push` on a cache with room,
      `get_mut`, and, with the value unchanged, `get`. */
  function Put<K(!new), V>(c: Cache<K, V>, k: K, v: V): Cache<K, V> {
    Cache([k] + Without(c.order, k), c.data[k := v])
  }

  function Drop<K(!new), V>(c: Cache<K, V>, k: K): Cache<K, V> {
    Cache(Without(c.order, k), c.data - {k})
  }

  function Oldest<K, V>(c: Cache<K, V>): K
    requires c.order != []
  {
    c.order[|c.order| - 1]
  }

  /** Pushing a new key into a full cache displaces the oldest entry. */
  predicate Evicts<K, V>(c: Cache<K, V>, capacity: nat, k: K) {
    k !in c.data && |c.order| >= capacity
  }

  function Push<K(!new), V>(c: Cache<K, V>, capacity: nat, k: K, v: V): Cache<K, V>
    requires capacity > 0
  {
    if Evicts(c, capacity, k) then Put(Drop(c, Oldest(c)), k, v) else Put(c, k, v)
  }

  lemma {:induction false} WithoutDistinct<K(!new)>(s: seq<K>, k: K)
    requires Distinct(s)
    ensures Distinct(Without(s, k))
    ensures |Without(s, k)| == if k in s then |s| - 1 else |s|
  {
    if s != [] {
      assert Distinct(s[1..]);
      WithoutDistinct(s[1..], k);
      assert s[0] !in s[1..];
      var r := Without(s[1..], k);
      if s[0] == k {
        assert k !in s[1..];
      } else {
        assert s[0] !in r;
      }
    }
  }

  lemma WithoutLast<K(!new)>(s: seq<K>)
    requires Distinct(s) && s != []
    ensures Without(s, s[|s| - 1]) == s[..|s| - 1]
  {
    WithoutSuffix(s, |s| - 1);
  }

  lemma {:induction false} WithoutSuffix<K(!new)>(s: seq<K>, n: nat)
    requires Distinct(s) && n + 1 == |s|
    ensures Without(s, s[n]) == s[..n]
  {
    if n > 0 {
      WithoutSuffix(s[1..], n - 1);
      assert s[..n] == [s[0]] + s[1..][..n - 1];
    }
  }

  lemma PutValid<K(!new), V>(c: Cache<K, V>, capacity: nat, k: K, v: V)
    requires Valid(c, capacity) && (k in c.data || |c.order| < capacity)
    ensures Valid(Put(c, k, v), capacity)
  {
    WithoutDistinct(c.order, k);
    var r := Put(c, k, v).order;
    assert k !in Without(c.order, k);
    forall i, j | 0 <= i < j < |r| ensures r[i] != r[j] {
      if i == 0 { assert r[j] in Without(c.order, k); }
    }
  }

  lemma DropValid<K(!new), V>(c: Cache<K, V>, capacity: nat, k: K)
    requires Valid(c, capacity)
    ensures Valid(Drop(c, k), capacity)
    ensures k in c.data ==> |Drop(c, k).order| == |c.order| - 1
  {
    WithoutDistinct(c.order, k);
  }

  lemma PushValid<K(!new), V>(c: Cache<K, V>, capacity: nat, k: K, v: V)
    requires capacity > 0 && Valid(c, capacity)
    ensures Valid(Push(c, capacity, k, v), capacity)
    ensures |Push(c, capacity, k, v).order| == |c.order| + (if k in c.data || |c.order| == capacity then 0 else 1)
  {
    if Evicts(c, capacity, k) {
      DropValid(c, capacity, Oldest(c));
      PutValid(Drop(c, Oldest(c)), capacity, k, v);
    } else {
      PutValid(c, capacity, k, v);
      WithoutDistinct(c.order, k);
    }
  }
}
