/** The memoised longest-remaining-chain computation of `src/metacognition/graph.rs`. */
module RemainingDepth {
  import opened Sequences
  import opened Orders
  import opened DependencyGraph

  type Memo = map<TaskKey, nat>

  datatype DepthResult = DepthResult(depth: nat, memo: Memo)

  function Max(a: nat, b: nat): nat { if a < b then b else a }

  /** `hole` is the value written into the memo while a task is being expanded; the
      source writes 1. */
  function Remaining(l: TaskLookup, members: set<TaskKey>, hole: nat, k: TaskKey, memo: Memo): (r: DepthResult)
    ensures memo.Keys <= r.memo.Keys
    decreases l.Keys - memo.Keys, 0
  {
    if k in memo then DepthResult(memo[k], memo)
    else if k !in l then DepthResult(0, memo)
    else if l[k].status.Succeeded? then DepthResult(0, memo[k := 0])
    else if k in members then DepthResult(1, memo[k := 1])
    else
      assert k in l.Keys - memo.Keys && k !in l.Keys - memo[k := hole].Keys;
      var below := RemainingMax(l, members, hole, Dependencies(l, k), memo[k := hole]);
      DepthResult(below.depth + 1, below.memo[k := below.depth + 1])
  }

  function RemainingMax(l: TaskLookup, members: set<TaskKey>, hole: nat, ks: seq<TaskKey>, memo: Memo): (r: DepthResult)
    ensures memo.Keys <= r.memo.Keys
    decreases l.Keys - memo.Keys, |ks|
  {
    if ks == [] then DepthResult(0, memo)
    else
      var first := Remaining(l, members, hole, ks[0], memo);
      var rest := RemainingMax(l, members, hole, ks[1..], first.memo);
      DepthResult(Max(first.depth, rest.depth), rest.memo)
  }

  /** The depths of all retained tasks, computed in key order. */
  function RemainingDepths(l: TaskLookup, members: set<TaskKey>, hole: nat): Memo {
    KeyLeTotalOrder();
    RemainingMax(l, members, hole, Ascending(KeyLe, l.Keys), map[]).memo
  }

  // ---------- what a remaining depth means ----------

  /** A chain of unfinished tasks, each depending on the next; only the last may be
      marked as a cycle member. */
  ghost predicate OpenChain(l: TaskLookup, members: set<TaskKey>, c: seq<TaskKey>) {
    && (forall x :: x in c ==> x in l && !l[x].status.Succeeded?)
    && (forall i :: 0 <= i < |c| - 1 ==> c[i] !in members && c[i + 1] in Dependencies(l, c[i]))
  }

  ghost predicate ChainFrom(k: TaskKey, c: seq<TaskKey>) {
    c == [] || c[0] == k
  }

  /** `n` is the length of the longest open chain that starts at `k`. */
  ghost predicate LongestChain(l: TaskLookup, members: set<TaskKey>, k: TaskKey, n: nat) {
    && (forall c :: OpenChain(l, members, c) && ChainFrom(k, c) ==> |c| <= n)
    && (exists c :: OpenChain(l, members, c) && ChainFrom(k, c) && |c| == n)
  }

  // ---------- proof ----------

  /** Unmarked tasks come after their dependencies in the numbering `rank`. */
  ghost predicate Ranked(l: TaskLookup, members: set<TaskKey>, rank: map<TaskKey, nat>) {
    && rank.Keys == l.Keys
    && forall k, d :: k in l && k !in members && d in Dependencies(l, k) ==> rank[d] < rank[k]
  }

  ghost function TrueDepth(l: TaskLookup, members: set<TaskKey>, rank: map<TaskKey, nat>, k: TaskKey): nat
    requires Ranked(l, members, rank) && k in l
    decreases rank[k], 0
  {
    if l[k].status.Succeeded? then 0
    else if k in members then 1
    else
      assert forall d :: d in Dependencies(l, k) ==> rank[d] < rank[k];
      TrueMax(l, members, rank, Dependencies(l, k), rank[k]) + 1
  }

  ghost function TrueMax(l: TaskLookup, members: set<TaskKey>, rank: map<TaskKey, nat>, ks: seq<TaskKey>, bound: nat): nat
    requires Ranked(l, members, rank)
    requires forall d :: d in ks ==> d in l && rank[d] < bound
    decreases bound, 0, |ks|
  {
    if ks == [] then 0
    else Max(TrueDepth(l, members, rank, ks[0]), TrueMax(l, members, rank, ks[1..], bound))
  }

  /** Outside the tasks being expanded, the memo holds true depths. */
  ghost predicate MemoTrue(l: TaskLookup, members: set<TaskKey>, rank: map<TaskKey, nat>, open: set<TaskKey>, memo: Memo)
    requires Ranked(l, members, rank)
  {
    forall k :: k in memo && k !in open ==> k in l && memo[k] == TrueDepth(l, members, rank, k)
  }

  lemma {:induction false} RemainingIsTrue(l: TaskLookup, members: set<TaskKey>, rank: map<TaskKey, nat>, hole: nat,
                                           open: set<TaskKey>, k: TaskKey, memo: Memo)
    requires Ranked(l, members, rank) && k in l
    requires MemoTrue(l, members, rank, open, memo)
    requires forall o :: o in open ==> o in l && rank[k] < rank[o]
    ensures Remaining(l, members, hole, k, memo).depth == TrueDepth(l, members, rank, k)
    ensures MemoTrue(l, members, rank, open, Remaining(l, members, hole, k, memo).memo)
    ensures k in Remaining(l, members, hole, k, memo).memo
    decreases rank[k], 0
  {
    assert k !in open;
    if k !in memo && !l[k].status.Succeeded? && k !in members {
      var ds := Dependencies(l, k);
      assert forall d :: d in ds ==> rank[d] < rank[k];
      RemainingMaxIsTrue(l, members, rank, hole, open + {k}, ds, memo[k := hole], rank[k]);
    }
  }

  lemma {:induction false} RemainingMaxIsTrue(l: TaskLookup, members: set<TaskKey>, rank: map<TaskKey, nat>, hole: nat,
                                              open: set<TaskKey>, ks: seq<TaskKey>, memo: Memo, bound: nat)
    requires Ranked(l, members, rank)
    requires MemoTrue(l, members, rank, open, memo)
    requires forall d :: d in ks ==> d in l && rank[d] < bound
    requires forall o :: o in open ==> o in l && bound <= rank[o]
    ensures RemainingMax(l, members, hole, ks, memo).depth == TrueMax(l, members, rank, ks, bound)
    ensures MemoTrue(l, members, rank, open, RemainingMax(l, members, hole, ks, memo).memo)
    ensures forall d :: d in ks ==> d in RemainingMax(l, members, hole, ks, memo).memo
    decreases bound, 0, |ks|
  {
    if ks != [] {
      hide MemoTrue, Ranked;
      RemainingIsTrue(l, members, rank, hole, open, ks[0], memo);
      RemainingMaxIsTrue(l, members, rank, hole, open, ks[1..], Remaining(l, members, hole, ks[0], memo).memo, bound);
      assert ks == [ks[0]] + ks[1..];
    }
  }

  lemma {:induction false} TrueMaxIsUpperBound(l: TaskLookup, members: set<TaskKey>, rank: map<TaskKey, nat>,
                                               ks: seq<TaskKey>, bound: nat, d: TaskKey)
    requires Ranked(l, members, rank) && d in ks
    requires forall x :: x in ks ==> x in l && rank[x] < bound
    ensures TrueDepth(l, members, rank, d) <= TrueMax(l, members, rank, ks, bound)
  {
    if ks[0] != d {
      TrueMaxIsUpperBound(l, members, rank, ks[1..], bound, d);
    }
  }

  lemma {:induction false} TrueMaxIsAttained(l: TaskLookup, members: set<TaskKey>, rank: map<TaskKey, nat>,
                                             ks: seq<TaskKey>, bound: nat)
    requires Ranked(l, members, rank)
    requires forall x :: x in ks ==> x in l && rank[x] < bound
    requires TrueMax(l, members, rank, ks, bound) > 0
    ensures exists d :: d in ks && TrueDepth(l, members, rank, d) == TrueMax(l, members, rank, ks, bound)
  {
    var m := TrueMax(l, members, rank, ks, bound);
    if TrueDepth(l, members, rank, ks[0]) != m {
      TrueMaxIsAttained(l, members, rank, ks[1..], bound);
      var d :| d in ks[1..] && TrueDepth(l, members, rank, d) == m;
      assert d in ks;
    }
  }

  lemma {:induction false} ChainsAreBounded(l: TaskLookup, members: set<TaskKey>, rank: map<TaskKey, nat>, c: seq<TaskKey>)
    requires Ranked(l, members, rank) && OpenChain(l, members, c) && c != []
    ensures |c| <= TrueDepth(l, members, rank, c[0])
  {
    var k := c[0];
    if |c| > 1 {
      assert c[0] !in members && c[0 + 1] in Dependencies(l, c[0]);
      var rest := c[1..];
      assert OpenChain(l, members, rest) by {
        forall i | 0 <= i < |rest| - 1 ensures rest[i] !in members && rest[i + 1] in Dependencies(l, rest[i]) {
          assert rest[i] == c[i + 1] && rest[i + 1] == c[i + 1 + 1];
        }
      }
      ChainsAreBounded(l, members, rank, rest);
      assert forall d :: d in Dependencies(l, k) ==> rank[d] < rank[k];
      TrueMaxIsUpperBound(l, members, rank, Dependencies(l, k), rank[k], c[1]);
    }
  }

  lemma {:induction false} ChainIsAttained(l: TaskLookup, members: set<TaskKey>, rank: map<TaskKey, nat>, k: TaskKey)
      returns (c: seq<TaskKey>)
    requires Ranked(l, members, rank) && k in l
    ensures OpenChain(l, members, c) && ChainFrom(k, c) && |c| == TrueDepth(l, members, rank, k)
    decreases rank[k]
  {
    if l[k].status.Succeeded? {
      c := [];
    } else {
      c := [k];
      if k !in members {
        var ds := Dependencies(l, k);
        assert forall d :: d in ds ==> rank[d] < rank[k];
        if TrueMax(l, members, rank, ds, rank[k]) > 0 {
          TrueMaxIsAttained(l, members, rank, ds, rank[k]);
          var d :| d in ds && TrueDepth(l, members, rank, d) == TrueMax(l, members, rank, ds, rank[k]);
          var rest := ChainIsAttained(l, members, rank, d);
          c := [k] + rest;
          assert forall i :: 1 <= i < |c| ==> c[i] == rest[i - 1];
        }
      }
    }
  }

  lemma TrueDepthIsLongestChain(l: TaskLookup, members: set<TaskKey>, rank: map<TaskKey, nat>, k: TaskKey)
    requires Ranked(l, members, rank) && k in l
    ensures LongestChain(l, members, k, TrueDepth(l, members, rank, k))
  {
    forall c | OpenChain(l, members, c) && ChainFrom(k, c) ensures |c| <= TrueDepth(l, members, rank, k) {
      if c != [] { ChainsAreBounded(l, members, rank, c); }
    }
    var c := ChainIsAttained(l, members, rank, k);
  }

  /** Along a chain the finishing number falls and the owner stays. */
  lemma {:induction false} ChainDescends(l: TaskLookup, members: set<TaskKey>, rank: map<TaskKey, nat>,
                                         c: seq<TaskKey>, i: nat, j: nat)
    requires Ranked(l, members, rank) && OpenChain(l, members, c) && i < j < |c|
    ensures rank[c[j]] < rank[c[i]] && c[j].agent == c[i].agent
    decreases j
  {
    assert c[j - 1] in c && c[j - 1] !in members && c[j - 1 + 1] in Dependencies(l, c[j - 1]);
    if i < j - 1 {
      ChainDescends(l, members, rank, c, i, j - 1);
    }
  }

  ghost function TasksOf(l: TaskLookup, agent: string): set<TaskKey> {
    set k | k in l && k.agent == agent
  }

  lemma ChainFitsItsAgent(l: TaskLookup, members: set<TaskKey>, rank: map<TaskKey, nat>, c: seq<TaskKey>)
    requires Ranked(l, members, rank) && OpenChain(l, members, c) && c != []
    ensures |c| <= |TasksOf(l, c[0].agent)|
  {
    forall i, j | 0 <= i < j < |c| ensures c[i] != c[j] {
      ChainDescends(l, members, rank, c, i, j);
    }
    DistinctCount(c);
    forall x | x in Members(c) ensures x in TasksOf(l, c[0].agent) {
      var j :| 0 <= j < |c| && c[j] == x;
      if j > 0 { ChainDescends(l, members, rank, c, 0, j); }
    }
    SubsetCount(Members(c), TasksOf(l, c[0].agent));
  }

  lemma SearchRanks(l: TaskLookup) returns (rank: map<TaskKey, nat>)
    ensures Ranked(l, CycleMembers(l), rank)
  {
    var f := SearchNumbers(l);
    rank := f.rank;
    forall k, d | k in l && k !in CycleMembers(l) && d in Dependencies(l, k) ensures rank[d] < rank[k] {
      assert AfterItsDependencies(GraphOf(l), f, k);
    }
  }

  // ---------- the guarantees ----------

  /** For every task graph the memoised computation yields, for exactly the retained
      tasks, the length of the longest chain of unfinished tasks, whatever placeholder
      it writes while expanding a task; no depth exceeds the owner's task count. */
  lemma RemainingDepthsAreLongestChains(l: TaskLookup, hole: nat, k: TaskKey)
    ensures k in RemainingDepths(l, CycleMembers(l), hole) <==> k in l
    ensures k in l ==> LongestChain(l, CycleMembers(l), k, RemainingDepths(l, CycleMembers(l), hole)[k])
    ensures k in l ==> RemainingDepths(l, CycleMembers(l), hole)[k] <= |TasksOf(l, k.agent)|
  {
    var members := CycleMembers(l);
    var rank := SearchRanks(l);
    var memo := ComputedDepths(l, members, rank, hole);
    if k in l {
      TrueDepthIsLongestChain(l, members, rank, k);
      var c := ChainIsAttained(l, members, rank, k);
      if c != [] { ChainFitsItsAgent(l, members, rank, c); }
    }
  }

  lemma ComputedDepths(l: TaskLookup, members: set<TaskKey>, rank: map<TaskKey, nat>, hole: nat) returns (memo: Memo)
    requires Ranked(l, members, rank)
    ensures memo == RemainingDepths(l, members, hole) && memo.Keys == l.Keys
    ensures forall k :: k in l ==> memo[k] == TrueDepth(l, members, rank, k)
  {
    hide TotalOrder, KeyLe, Sorted;
    KeyLeTotalOrder();
    memo := RemainingDepths(l, members, hole);
    var roots := Ascending(KeyLe, l.Keys);
    var bound := AboveAll(l, rank, roots);
    RemainingMaxIsTrue(l, members, rank, hole, {}, roots, map[], bound);
    assert forall k :: k in l ==> k in roots;
  }

  lemma {:induction false} AboveAll(l: TaskLookup, rank: map<TaskKey, nat>, ks: seq<TaskKey>) returns (bound: nat)
    requires forall k :: k in ks ==> k in rank
    ensures forall k :: k in ks ==> rank[k] < bound
  {
    bound := 0;
    if ks != [] {
      bound := AboveAll(l, rank, ks[1..]);
      bound := Max(bound, rank[ks[0]] + 1);
      assert ks == [ks[0]] + ks[1..];
    }
  }

  /** The placeholder is never read: any other value gives the same depths. */
  lemma PlaceholderIsNeverRead(l: TaskLookup, hole: nat)
    ensures RemainingDepths(l, CycleMembers(l), hole) == RemainingDepths(l, CycleMembers(l), 1)
  {
    hide RemainingDepths, CycleMembers, TrueDepth, Ranked;
    var rank := SearchRanks(l);
    var memo := ComputedDepths(l, CycleMembers(l), rank, hole);
    var memo1 := ComputedDepths(l, CycleMembers(l), rank, 1);
    assert forall k :: k in memo ==> memo[k] == memo1[k];
  }
}
