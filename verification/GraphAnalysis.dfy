/** The analysis of `src/metacognition/graph.rs` as it runs: recursions that update
    colours, the stack, the marks and the memo in place. */
module GraphAnalysis {
  import opened Orders
  import opened DependencyGraph
  import opened RemainingDepth

  class CycleFinder {
    var states: map<TaskKey, VisitState>
    var stack: seq<TaskKey>
    var members: set<TaskKey>

    constructor ()
      ensures View() == FRESH
    {
      states, stack, members := map[], [], {};
    }

    ghost function View(): Search
      reads this
    {
      Search(states, stack, members)
    }

    method FirstOnStack(v: TaskKey) returns (position: nat)
      requires v in stack
      ensures position == Position(stack, v)
    {
      position := 0;
      while stack[position] != v
        invariant position <= Position(stack, v)
        decreases Position(stack, v) - position
      {
        assert v !in stack[..Position(stack, v)];
        position := position + 1;
      }
    }

    /** Mark the stack from the first occurrence of `v` to its top. */
    method MarkFrom(v: TaskKey)
      requires v in stack
      modifies this`members
      ensures members == old(members) + Elements(stack[Position(stack, v)..])
    {
      var position := FirstOnStack(v);
      var i := position;
      while i < |stack|
        invariant position <= i <= |stack|
        invariant members == old(members) + Elements(stack[position..i])
      {
        members := members + {stack[i]};
        i := i + 1;
        assert stack[position..i] == stack[position..i - 1] + [stack[i - 1]];
      }
      assert stack[position..i] == stack[position..];
    }

    method VisitCycle(g: Graph, v: TaskKey)
      modifies this
      ensures View() == Visit(g, v, old(View()))
      decreases g.Keys - states.Keys, 0
    {
      if v in states {
        if states[v] == Visiting && v in stack {
          MarkFrom(v);
        }
        return;
      }
      states := states[v := Visiting];
      stack := stack + [v];
      ghost var entered := View();
      assert entered == Entered(old(View()), v);
      if v in g {
        assert v in g.Keys - old(states).Keys && v !in g.Keys - states.Keys;
        VisitDependencies(g, g[v]);
      }
      stack := stack[..|stack| - 1];
      states := states[v := Done];
    }

    method VisitDependencies(g: Graph, vs: seq<TaskKey>)
      modifies this
      ensures View() == VisitAll(g, vs, old(View()))
      decreases g.Keys - states.Keys, 1, |vs|
    {
      var i := 0;
      while i < |vs|
        invariant 0 <= i <= |vs|
        invariant VisitAll(g, vs[i..], View()) == VisitAll(g, vs, old(View()))
        invariant old(states).Keys <= states.Keys
      {
        assert vs[i..][1..] == vs[i + 1..];
        ghost var before := View();
        VisitCycle(g, vs[i]);
        assert before.states.Keys <= View().states.Keys;
        i := i + 1;
      }
      assert vs[i..] == [];
    }
  }

  method DependencyCycleMembers(l: TaskLookup) returns (members: set<TaskKey>)
    ensures members == CycleMembers(l)
  {
    KeyLeTotalOrder();
    var finder := new CycleFinder();
    finder.VisitDependencies(GraphOf(l), Ascending(KeyLe, l.Keys));
    members := finder.members;
  }

  class DepthTable {
    var memo: map<TaskKey, nat>

    constructor ()
      ensures memo == map[]
    {
      memo := map[];
    }

    method DepthOf(l: TaskLookup, members: set<TaskKey>, k: TaskKey) returns (depth: nat)
      modifies this
      ensures DepthResult(depth, memo) == Remaining(l, members, 1, k, old(memo))
      decreases l.Keys - memo.Keys, 0
    {
      if k in memo { return memo[k]; }
      if k !in l { return 0; }
      if l[k].status.Succeeded? {
        memo := memo[k := 0];
        return 0;
      }
      if k in members {
        memo := memo[k := 1];
        return 1;
      }
      memo := memo[k := 1];
      assert k in l.Keys - old(memo).Keys && k !in l.Keys - memo.Keys;
      var below := DeepestOf(l, members, Dependencies(l, k));
      depth := below + 1;
      memo := memo[k := depth];
    }

    method DeepestOf(l: TaskLookup, members: set<TaskKey>, ks: seq<TaskKey>) returns (deepest: nat)
      modifies this
      ensures DepthResult(deepest, memo) == RemainingMax(l, members, 1, ks, old(memo))
      decreases l.Keys - memo.Keys, 1, |ks|
    {
      deepest := 0;
      var i := 0;
      ghost var whole := RemainingMax(l, members, 1, ks, memo);
      while i < |ks|
        invariant 0 <= i <= |ks|
        invariant old(memo).Keys <= memo.Keys
        invariant RemainingMax(l, members, 1, ks[i..], memo).memo == whole.memo
        invariant Max(deepest, RemainingMax(l, members, 1, ks[i..], memo).depth) == whole.depth
      {
        assert ks[i..][1..] == ks[i + 1..];
        ghost var before := memo;
        var depth := DepthOf(l, members, ks[i]);
        assert before.Keys <= memo.Keys;
        deepest := Max(deepest, depth);
        i := i + 1;
      }
      assert ks[i..] == [];
    }
  }

  lemma DepthsAreLongestChains(l: TaskLookup, depths: map<TaskKey, nat>)
    requires depths == RemainingDepths(l, CycleMembers(l), 1)
    ensures depths.Keys == l.Keys
    ensures forall k :: k in l ==> LongestChain(l, CycleMembers(l), k, depths[k])
  {
    hide RemainingDepths, CycleMembers, LongestChain;
    forall k
      ensures k in depths <==> k in l
      ensures k in l ==> LongestChain(l, CycleMembers(l), k, depths[k])
    {
      RemainingDepthsAreLongestChains(l, 1, k);
    }
  }

  /** The whole computation: for exactly the retained tasks, the length of the longest
      chain of unfinished tasks that starts there. */
  method LongestRemainingChains(l: TaskLookup) returns (depths: map<TaskKey, nat>)
    ensures depths == RemainingDepths(l, CycleMembers(l), 1)
    ensures depths.Keys == l.Keys
    ensures forall k :: k in l ==> LongestChain(l, CycleMembers(l), k, depths[k])
  {
    KeyLeTotalOrder();
    var members := DependencyCycleMembers(l);
    var table := new DepthTable();
    var _ := table.DeepestOf(l, members, Ascending(KeyLe, l.Keys));
    depths := table.memo;
    DepthsAreLongestChains(l, depths);
  }
}
