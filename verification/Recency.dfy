/** Recency lists: the distinct ids of a history, most recently presented first. */
module Recency {
  import opened Sequences
  import opened Lru

  function Take<T>(s: seq<T>, n: nat): (r: seq<T>)
    ensures |r| == if n < |s| then n else |s|
    ensures forall x :: x in r ==> x in s
  {
    if n == 0 || s == [] then [] else [s[0]] + Take(s[1..], n - 1)
  }

  function RecentFirst<T(==, !new)>(ids: seq<T>): (r: seq<T>)
    ensures forall x :: x in r <==> x in ids
  {
    if ids == [] then []
    else
      var before, last := ids[..|ids| - 1], ids[|ids| - 1];
      assert ids == before + [last];
      [last] + Without(RecentFirst(before), last)
  }

  /** The ids presented after the last presentation of `x`. */
  function Since<T(==)>(ids: seq<T>, x: T): set<T> {
    if ids == [] || ids[|ids| - 1] == x then {}
    else Since(ids[..|ids| - 1], x) + {ids[|ids| - 1]}
  }

  lemma {:induction false} TakeAll<T>(s: seq<T>, n: nat)
    requires |s| <= n
    ensures Take(s, n) == s
  {
    if s != [] { TakeAll(s[1..], n - 1); }
  }

  lemma {:induction false} TakeIsPrefix<T>(s: seq<T>, n: nat)
    ensures Take(s, n) == if n <= |s| then s[..n] else s
  {
    if n > 0 && s != [] {
      TakeIsPrefix(s[1..], n - 1);
    }
  }

  lemma DistinctTail<T>(s: seq<T>)
    requires Distinct(s) && s != []
    ensures Distinct(s[1..]) && s[0] !in s[1..]
  {}

  lemma {:induction false} RecentFirstDistinct<T(!new)>(ids: seq<T>)
    ensures Distinct(RecentFirst(ids))
  {
    if ids != [] {
      var before, last := ids[..|ids| - 1], ids[|ids| - 1];
      RecentFirstDistinct(before);
      WithoutDistinct(RecentFirst(before), last);
    }
  }

  lemma WithoutTail<T(!new)>(y: T, s: seq<T>, x: T)
    ensures Without([y] + s, x) == if y == x then Without(s, x) else [y] + Without(s, x)
  {}

  lemma TakeNextOf<T>(y: T, s: seq<T>, n: nat)
    requires n > 0
    ensures Take([y] + s, n) == [y] + Take(s, n - 1)
  {}

  /** Removing an id that the truncated list holds moves the cut by one. */
  lemma {:induction false} WithoutHeld<T(!new)>(s: seq<T>, x: T, n: nat)
    requires Distinct(s) && n > 0 && x in Take(s, n)
    ensures Without(Take(s, n), x) == Take(Without(s, x), n - 1)
  {
    DistinctTail(s);
    hide Distinct;
    var rest := Take(s[1..], n - 1);
    if s[0] == x {
      assert x !in rest && Without(Take(s, n), x) == rest;
    } else {
      WithoutHeld(s[1..], x, n - 1);
      WithoutTail(s[0], rest, x);
      assert Without(s, x) == [s[0]] + Without(s[1..], x);
      TakeNextOf(s[0], Without(s[1..], x), n - 1);
    }
  }

  /** Removing an id beyond the cut changes nothing before it. */
  lemma {:induction false} WithoutForgotten<T(!new)>(s: seq<T>, x: T, n: nat)
    requires x !in Take(s, n)
    ensures Take(Without(s, x), n) == Take(s, n)
  {
    if n > 0 && s != [] {
      WithoutForgotten(s[1..], x, n - 1);
    }
  }

  lemma {:induction false} TakeDistinct<T>(s: seq<T>, n: nat)
    requires Distinct(s)
    ensures Distinct(Take(s, n))
  {
    if n > 0 && s != [] {
      DistinctTail(s);
      TakeDistinct(s[1..], n - 1);
    }
  }

  lemma {:induction false} TakeTake<T>(s: seq<T>, n: nat)
    requires n > 0 && |Take(s, n)| == n
    ensures Take(s, n)[..n - 1] == Take(s, n - 1)
  {
    if n > 1 {
      TakeTake(s[1..], n - 1);
      assert Take(s, n)[..n - 1] == [s[0]] + Take(s[1..], n - 1)[..n - 2];
    }
  }

  // ---------- position in the list ----------

  function Before<T(==)>(r: seq<T>, x: T): set<T> {
    if r == [] || r[0] == x then {} else {r[0]} + Before(r[1..], x)
  }

  lemma {:induction false} BeforeWithout<T(!new)>(r: seq<T>, x: T, y: T)
    requires x in r && x != y
    ensures Before(Without(r, y), x) == Before(r, x) - {y}
  {
    if r[0] != x {
      BeforeWithout(r[1..], x, y);
    }
  }

  lemma {:induction false} BeforeIsSince<T(!new)>(ids: seq<T>, x: T)
    requires x in ids
    ensures Before(RecentFirst(ids), x) == Since(ids, x)
  {
    var before, last := ids[..|ids| - 1], ids[|ids| - 1];
    if last != x {
      assert ids == before + [last];
      BeforeIsSince(before, x);
      var rest := Without(RecentFirst(before), last);
      assert RecentFirst(ids)[1..] == rest;
      BeforeWithout(RecentFirst(before), x, last);
      assert Before(RecentFirst(ids), x) == {last} + (Since(before, x) - {last});
    }
  }

  lemma {:induction false} HeldIffFewBefore<T(!new)>(r: seq<T>, x: T, n: nat)
    requires Distinct(r) && x in r
    ensures x in Take(r, n) <==> |Before(r, x)| < n
  {
    if n > 0 {
      DistinctTail(r);
      if r[0] == x {
      } else {
        HeldIffFewBefore(r[1..], x, n - 1);
        BeforeInside(r[1..], x);
        var rest := Before(r[1..], x);
        assert r[0] !in rest && Before(r, x) == {r[0]} + rest;
        assert Take(r, n) == [r[0]] + Take(r[1..], n - 1);
        hide Take, Before, Distinct;
      }
    }
  }

  lemma {:induction false} BeforeInside<T(!new)>(r: seq<T>, x: T)
    ensures forall y :: y in Before(r, x) ==> y in r
  {
    if r != [] { BeforeInside(r[1..], x); }
  }

  /** An id is among the `n` most recent ones exactly when fewer than `n` other ids were
      presented since. */
  lemma RecentIffFewSince<T(!new)>(ids: seq<T>, x: T, n: nat)
    ensures x in Take(RecentFirst(ids), n) <==> x in ids && |Since(ids, x)| < n
  {
    if x in ids {
      RecentFirstDistinct(ids);
      BeforeIsSince(ids, x);
      HeldIffFewBefore(RecentFirst(ids), x, n);
    }
  }

  // ---------- caches that keep the most recent keys ----------

  lemma RecentFirstNext<T(!new)>(ids: seq<T>, x: T, n: nat)
    requires n > 0
    ensures Take(RecentFirst(ids + [x]), n) == [x] + Take(Without(RecentFirst(ids), x), n - 1)
  {
    assert (ids + [x])[..|ids|] == ids;
    TakeNextOf(x, Without(RecentFirst(ids), x), n);
  }

  lemma WithoutShorter<T(!new)>(r: seq<T>, x: T, n: nat)
    requires n > 0 && Take(Without(r, x), n) == Take(r, n)
    ensures Take(Without(r, x), n - 1) == if |Take(r, n)| == n then Take(r, n)[..n - 1] else Take(r, n)
  {
    var w := Without(r, x);
    if |Take(r, n)| == n {
      TakeTake(w, n);
    } else {
      TakeAll(w, n);
      TakeAll(w, n - 1);
    }
  }

  /** Pushing a new key keeps the newest keys and drops the oldest when full. */
  lemma PushOrder<K(!new), V>(c: Cache<K, V>, capacity: nat, x: K, v: V)
    requires capacity > 0 && Valid(c, capacity) && x !in c.data
    ensures Push(c, capacity, x, v).order ==
              [x] + if |c.order| == capacity then c.order[..capacity - 1] else c.order
  {
    if Evicts(c, capacity, x) {
      WithoutLast(c.order);
    }
  }

  /** Refreshing a held key keeps the list the most recent distinct keys. */
  lemma PutIsRecent<K(!new), V>(c: Cache<K, V>, ids: seq<K>, capacity: nat, x: K, v: V)
    requires capacity > 0 && Valid(c, capacity) && x in c.data && c.order == Take(RecentFirst(ids), capacity)
    ensures Put(c, x, v).order == Take(RecentFirst(ids + [x]), capacity)
  {
    RecentFirstDistinct(ids);
    RecentFirstNext(ids, x, capacity);
    hide RecentFirst, Take, Without;
    WithoutHeld(RecentFirst(ids), x, capacity);
  }

  /** A cache that has held the most recent distinct keys of a history still does when the
      next key is pushed. */
  lemma PushIsRecent<K(!new), V>(c: Cache<K, V>, ids: seq<K>, capacity: nat, x: K, v: V)
    requires capacity > 0 && Valid(c, capacity) && c.order == Take(RecentFirst(ids), capacity)
    ensures Push(c, capacity, x, v).order == Take(RecentFirst(ids + [x]), capacity)
  {
    if x in c.data {
      PutIsRecent(c, ids, capacity, x, v);
    } else {
      var r := RecentFirst(ids);
      RecentFirstNext(ids, x, capacity);
      PushOrder(c, capacity, x, v);
      WithoutForgotten(r, x, capacity);
      WithoutShorter(r, x, capacity);
    }
  }
}
