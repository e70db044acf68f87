/** Members, duplicates and rearrangements of finite sequences. */
module Sequences {

  ghost predicate Distinct<K>(s: seq<K>) {
    forall i, j :: 0 <= i < j < |s| ==> s[i] != s[j]
  }

  function Members<K(==, !new)>(s: seq<K>): (r: set<K>)
    ensures forall x :: x in r <==> x in s
  {
    set k | k in s
  }

  lemma {:induction false} DistinctCount<K(!new)>(s: seq<K>)
    requires Distinct(s)
    ensures |Members(s)| == |s|
  {
    if s != [] {
      assert Distinct(s[1..]);
      DistinctCount(s[1..]);
      assert Members(s) == {s[0]} + Members(s[1..]);
      assert s[0] !in s[1..];
    }
  }

  lemma SubsetCount<T>(a: set<T>, b: set<T>)
    requires a <= b
    ensures |a| <= |b|
  {
    assert b == a + (b - a);
  }

  lemma SameMembers<T>(s: seq<T>, t: seq<T>)
    requires multiset(s) == multiset(t)
    ensures forall x :: x in s <==> x in t
  {
    forall x
      ensures x in s <==> x in t
    {
      assert x in s <==> x in multiset(s);
      assert x in t <==> x in multiset(t);
    }
  }

  lemma RemoveAt<T>(t: seq<T>, i: nat)
    requires i < |t|
    ensures multiset(t) == multiset{t[i]} + multiset(t[..i] + t[i + 1..])
  {
    assert t == t[..i] + [t[i]] + t[i + 1..];
  }

  lemma Cancel<T>(x: T, a: multiset<T>, b: multiset<T>)
    requires multiset{x} + a == multiset{x} + b
    ensures a == b
  {
    assert a == (multiset{x} + a) - multiset{x};
    assert b == (multiset{x} + b) - multiset{x};
  }

  lemma RemoveBoth<T>(s: seq<T>, i: nat, t: seq<T>, j: nat)
    requires i < |s| && j < |t| && s[i] == t[j] && multiset(s) == multiset(t)
    ensures multiset(s[..i] + s[i + 1..]) == multiset(t[..j] + t[j + 1..])
  {
    RemoveAt(s, i);
    RemoveAt(t, j);
    Cancel(s[i], multiset(s[..i] + s[i + 1..]), multiset(t[..j] + t[j + 1..]));
  }

  // ---------- rearrangements keep keys unique ----------

  lemma {:induction false} DistinctCountsOnce<T(!new)>(s: seq<T>, x: T)
    requires Distinct(s)
    ensures multiset(s)[x] <= 1
  {
    if s != [] {
      assert s == [s[0]] + s[1..];
      DistinctCountsOnce(s[1..], x);
    }
  }

  lemma TwiceCountsTwice<T>(s: seq<T>, i: nat, j: nat)
    requires i < j < |s| && s[i] == s[j]
    ensures multiset(s)[s[i]] >= 2
  {
    assert s == s[..j] + s[j..];
    assert s[i] in s[..j] && s[i] in s[j..];
  }

  ghost predicate UniqueKeys<T, K>(key: T -> K, s: seq<T>) {
    forall i, j :: 0 <= i < j < |s| ==> key(s[i]) != key(s[j])
  }

  lemma UniqueKeysIgnoreOrder<T(!new), K>(key: T -> K, s: seq<T>, t: seq<T>)
    requires UniqueKeys(key, s) && multiset(s) == multiset(t)
    ensures UniqueKeys(key, t)
  {
    assert Distinct(s);
    SameMembers(s, t);
    forall i, j | 0 <= i < j < |t| ensures key(t[i]) != key(t[j]) {
      DistinctCountsOnce(s, t[i]);
      if t[i] == t[j] { TwiceCountsTwice(t, i, j); }
      assert t[i] in s && t[j] in s;
      var k, n :| 0 <= k < |s| && s[k] == t[i] && 0 <= n < |s| && s[n] == t[j];
    }
  }
}
