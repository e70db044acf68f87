/** Total orders used by the source: Rust's byte-wise `String` order, the order of
    `(agent, task)` pairs, and the stable `sort_by` of the standard library. */
module Orders {
  import opened Sequences

  /** String order.  Code points compare like the UTF-8 bytes that Rust compares. */
  predicate StrLe(a: string, b: string) {
    if a == [] then true
    else if b == [] then false
    else if a[0] != b[0] then a[0] < b[0]
    else StrLe(a[1..], b[1..])
  }

  lemma StrLeTotal(a: string, b: string)
    ensures StrLe(a, b) || StrLe(b, a)
  {}

  lemma StrLeAntisymmetric(a: string, b: string)
    requires StrLe(a, b) && StrLe(b, a)
    ensures a == b
  {
    if a != [] {
      StrLeAntisymmetric(a[1..], b[1..]);
      assert a == [a[0]] + a[1..] && b == [b[0]] + b[1..];
    }
  }

  lemma StrLeTransitive(a: string, b: string, c: string)
    requires StrLe(a, b) && StrLe(b, c)
    ensures StrLe(a, c)
  {}

  /** The order is lexicographic: a prefix comes first, otherwise the first difference decides. */
  lemma {:induction false} StrLeIsLexicographic(a: string, b: string)
    ensures StrLe(a, b) <==> a <= b || exists i :: 0 <= i < |a| && i < |b| && a[..i] == b[..i] && a[i] < b[i]
  {
    if a != [] && b != [] {
      StrLeIsLexicographic(a[1..], b[1..]);
      assert a == [a[0]] + a[1..] && b == [b[0]] + b[1..];
      if a[0] != b[0] {
        assert a[..0] == b[..0];
      } else {
        SameHead(a, b);
      }
    }
  }

  lemma SameHead(a: string, b: string)
    requires a != [] && b != [] && a[0] == b[0]
    ensures a <= b <==> a[1..] <= b[1..]
    ensures (exists i :: 0 <= i < |a| && i < |b| && a[..i] == b[..i] && a[i] < b[i])
            <==> exists i :: 0 <= i < |a[1..]| && i < |b[1..]| && a[1..][..i] == b[1..][..i] && a[1..][i] < b[1..][i]
  {
    if i :| 0 <= i < |a| && i < |b| && a[..i] == b[..i] && a[i] < b[i] {
      assert i > 0;
      assert a[1..][..i - 1] == a[..i][1..] == b[..i][1..] == b[1..][..i - 1];
      assert a[1..][i - 1] < b[1..][i - 1];
    }
    if i :| 0 <= i < |a[1..]| && i < |b[1..]| && a[1..][..i] == b[1..][..i] && a[1..][i] < b[1..][i] {
      assert a[..i + 1] == [a[0]] + a[1..][..i] == [b[0]] + b[1..][..i] == b[..i + 1];
      assert a[i + 1] < b[i + 1];
    }
  }

  /** The scope of a task: its owner and its id within that owner. */
  datatype TaskKey = TaskKey(agent: string, task: string)

  predicate KeyLe(x: TaskKey, y: TaskKey) {
    if x.agent == y.agent then StrLe(x.task, y.task) else StrLe(x.agent, y.agent)
  }

  ghost predicate TotalOrder<T(!new)>(le: (T, T) -> bool) {
    && (forall x, y :: le(x, y) || le(y, x))
    && (forall x, y :: le(x, y) && le(y, x) ==> x == y)
    && Transitive(le)
  }

  ghost predicate Transitive<T(!new)>(le: (T, T) -> bool) {
    forall x, y, z :: le(x, y) && le(y, z) ==> le(x, z)
  }

  /** A total preorder is all that sorting needs. */
  ghost predicate TotalPreorder<T(!new)>(le: (T, T) -> bool) {
    (forall x, y :: le(x, y) || le(y, x)) && Transitive(le)
  }

  lemma KeyLeTransitive(x: TaskKey, y: TaskKey, z: TaskKey)
    requires KeyLe(x, y) && KeyLe(y, z)
    ensures KeyLe(x, z)
  {
    if x.agent == y.agent == z.agent {
      StrLeTransitive(x.task, y.task, z.task);
    } else {
      assert StrLe(x.agent, y.agent) by { StrLeTotal(x.agent, x.agent); }
      assert StrLe(y.agent, z.agent) by { StrLeTotal(y.agent, y.agent); }
      StrLeTransitive(x.agent, y.agent, z.agent);
      if x.agent == z.agent {
        StrLeAntisymmetric(x.agent, y.agent);
      }
    }
  }

  lemma KeyLeTotalOrder()
    ensures TotalOrder(KeyLe)
  {
    forall x, y
      ensures KeyLe(x, y) || KeyLe(y, x)
      ensures KeyLe(x, y) && KeyLe(y, x) ==> x == y
    {
      StrLeTotal(x.agent, y.agent);
      StrLeTotal(x.task, y.task);
      if KeyLe(x, y) && KeyLe(y, x) {
        if x.agent == y.agent {
          StrLeAntisymmetric(x.task, y.task);
        } else {
          StrLeAntisymmetric(x.agent, y.agent);
        }
      }
    }
    forall x, y, z | KeyLe(x, y) && KeyLe(y, z)
      ensures KeyLe(x, z)
    {
      KeyLeTransitive(x, y, z);
    }
  }

  // ---------- sorting ----------

  ghost predicate Sorted<T>(le: (T, T) -> bool, s: seq<T>) {
    forall i, j :: 0 <= i < j < |s| ==> le(s[i], s[j])
  }

  function Insert<T>(le: (T, T) -> bool, x: T, s: seq<T>): seq<T> {
    if s == [] then [x]
    else if le(x, s[0]) then [x] + s
    else [s[0]] + Insert(le, x, s[1..])
  }

  /** Stable sort: of two elements that compare equal, the earlier stays first. */
  function Sort<T>(le: (T, T) -> bool, s: seq<T>): seq<T> {
    if s == [] then [] else Insert(le, s[0], Sort(le, s[1..]))
  }

  lemma {:induction false} InsertMultiset<T>(le: (T, T) -> bool, x: T, s: seq<T>)
    ensures multiset(Insert(le, x, s)) == multiset{x} + multiset(s)
  {
    if s != [] && !le(x, s[0]) {
      InsertMultiset(le, x, s[1..]);
      assert s == [s[0]] + s[1..];
    }
  }

  lemma {:induction false} SortMultiset<T>(le: (T, T) -> bool, s: seq<T>)
    ensures multiset(Sort(le, s)) == multiset(s)
    ensures |Sort(le, s)| == |s|
  {
    if s != [] {
      SortMultiset(le, s[1..]);
      InsertMultiset(le, s[0], Sort(le, s[1..]));
      assert s == [s[0]] + s[1..];
    }
    assert |multiset(Sort(le, s))| == |multiset(s)|;
  }

  lemma {:induction false} InsertSorted<T(!new)>(le: (T, T) -> bool, x: T, s: seq<T>)
    requires TotalPreorder(le) && Sorted(le, s)
    ensures Sorted(le, Insert(le, x, s))
  {
    if s != [] {
      if le(x, s[0]) {
        forall i | 0 <= i < |s| ensures le(x, s[i]) {
          if i > 0 { assert le(s[0], s[i]); }
        }
      } else {
        InsertSorted(le, x, s[1..]);
        var r := Insert(le, x, s[1..]);
        InsertMultiset(le, x, s[1..]);
        forall i | 0 <= i < |r| ensures le(s[0], r[i]) {
          assert r[i] in multiset(r);
          assert r[i] == x || r[i] in s[1..];
        }
      }
    }
  }

  lemma {:induction false} SortSorted<T(!new)>(le: (T, T) -> bool, s: seq<T>)
    requires TotalPreorder(le)
    ensures Sorted(le, Sort(le, s))
  {
    if s != [] {
      SortSorted(le, s[1..]);
      InsertSorted(le, s[0], Sort(le, s[1..]));
    }
  }

  /** A sorted arrangement is unique when no two different elements tie. */
  lemma {:induction false} SortedUnique<T(!new)>(le: (T, T) -> bool, s: seq<T>, t: seq<T>)
    requires TotalPreorder(le)
    requires Sorted(le, s) && Sorted(le, t)
    requires multiset(s) == multiset(t)
    requires forall x, y :: x in s && y in s && le(x, y) && le(y, x) ==> x == y
    ensures s == t
  {
    assert |multiset(s)| == |s| && |multiset(t)| == |t|;
    if s != [] {
      SameFirst(le, s, t);
      TailBags(s, t);
      hide TotalPreorder;
      SortedUnique(le, s[1..], t[1..]);
      assert s == [s[0]] + s[1..] && t == [t[0]] + t[1..];
    }
  }

  lemma SameFirst<T(!new)>(le: (T, T) -> bool, s: seq<T>, t: seq<T>)
    requires TotalPreorder(le) && Sorted(le, s) && Sorted(le, t) && multiset(s) == multiset(t) && s != [] && t != []
    requires forall x, y :: x in s && y in s && le(x, y) && le(y, x) ==> x == y
    ensures s[0] == t[0]
  {
    SameMembers(s, t);
    assert s[0] in t && t[0] in s;
    var i :| 0 <= i < |t| && t[i] == s[0];
    var j :| 0 <= j < |s| && s[j] == t[0];
    assert le(s[0], s[0]);
    assert le(t[0], s[0]) by { if i > 0 { assert le(t[0], t[i]); } }
    assert le(s[0], t[0]) by { if j > 0 { assert le(s[0], s[j]); } }
  }

  lemma TailBags<T>(s: seq<T>, t: seq<T>)
    requires s != [] && t != [] && s[0] == t[0] && multiset(s) == multiset(t)
    ensures multiset(s[1..]) == multiset(t[1..])
  {
    assert s == [s[0]] + s[1..] && t == [t[0]] + t[1..];
    assert multiset(s[1..]) == multiset(s) - multiset{s[0]};
    assert multiset(t[1..]) == multiset(t) - multiset{t[0]};
  }

  /** Sorting forgets the order of its input when no two different elements tie. */
  lemma SortCanonical<T(!new)>(le: (T, T) -> bool, s: seq<T>, t: seq<T>)
    requires TotalPreorder(le)
    requires multiset(s) == multiset(t)
    requires forall x, y :: x in s && y in s && le(x, y) && le(y, x) ==> x == y
    ensures Sort(le, s) == Sort(le, t)
  {
    SortSorted(le, s);
    SortSorted(le, t);
    SortMultiset(le, s);
    SortMultiset(le, t);
    SameMembers(s, Sort(le, s));
    SortedUnique(le, Sort(le, s), Sort(le, t));
  }

  // ---------- the iteration order of an ordered map or set ----------

  lemma LeastExists<T(!new)>(le: (T, T) -> bool, s: set<T>) returns (m: T)
    requires TotalOrder(le) && s != {}
    ensures m in s && forall x :: x in s ==> le(m, x)
    decreases |s|
  {
    m :| m in s;
    if s != {m} {
      var rest := s - {m};
      assert s == {m} + rest;
      var n := LeastExists(le, rest);
      if !le(m, n) { m := n; }
      forall x | x in s ensures le(m, x) {
        assert le(m, m);
        if x in rest { assert le(n, x); }
      }
    }
  }

  /** The elements of `s` in increasing order, as a `BTreeMap` or `BTreeSet` yields them. */
  function Ascending<T(!new)>(le: (T, T) -> bool, s: set<T>): (r: seq<T>)
    requires TotalOrder(le)
    ensures forall x :: x in r <==> x in s
    ensures Sorted(le, r) && |r| == |s|
    decreases |s|
  {
    if s == {} then []
    else
      LeastExistsStated(le, s);
      var m :| m in s && forall x :: x in s ==> le(m, x);
      var rest := Ascending(le, s - {m});
      assert forall i :: 0 <= i < |rest| ==> rest[i] in s - {m};
      [m] + rest
  }

  lemma LeastExistsStated<T(!new)>(le: (T, T) -> bool, s: set<T>)
    requires TotalOrder(le) && s != {}
    ensures exists m :: m in s && forall x :: x in s ==> le(m, x)
  {
    var m := LeastExists(le, s);
  }
}
