/** When cycle marking finds every task on a cycle. */
module MarkingCompleteness {
  import opened Orders
  import opened DependencyGraph

  /** `w` is a dependency of `v` from which dependencies lead back to `v`. */
  ghost predicate LeadsBack(g: Graph, v: TaskKey, w: TaskKey) {
    v in g && w in g[v] && exists p :: |p| > 0 && IsPath(g, p) && p[0] == w && p[|p| - 1] == v
  }

  /** No task has two different dependencies that both lead back to it. */
  ghost predicate OneWayBack(g: Graph) {
    forall v, w, w' :: LeadsBack(g, v, w) && LeadsBack(g, v, w') ==> w == w'
  }

  function After(c: seq<TaskKey>, i: nat): (j: nat)
    requires i < |c|
    ensures j < |c|
  {
    if i + 1 < |c| then i + 1 else 0
  }

  lemma NextLeadsBack(g: Graph, c: seq<TaskKey>, i: nat)
    requires IsCycle(g, c) && i < |c|
    ensures LeadsBack(g, c[i], c[After(c, i)])
  {
    var p := c[i + 1..] + c[..i + 1];
    assert p[|p| - 1] == c[i] && p[0] == c[After(c, i)];
    forall k | 0 <= k < |p| - 1 ensures p[k] in g && p[k + 1] in g[p[k]] {
      var n := i + 1 + k;
      if n < |c| - 1 { assert c[n + 1] in g[c[n]]; } else if n >= |c| { assert c[n - |c| + 1] in g[c[n - |c|]]; }
    }
    assert IsPath(g, p);
    if i < |c| - 1 { assert c[i + 1] in g[c[i]]; }
  }

  /** Two cycles that share a task share all of them: from the common task both walk the
      same way. */
  lemma {:induction false} CyclesCoincide(g: Graph, c: seq<TaskKey>, i: nat, d: seq<TaskKey>, j: nat, k: nat)
    requires OneWayBack(g) && IsCycle(g, c) && IsCycle(g, d)
    requires i < |c| && k < |c| && j < |d| && c[i] == d[j]
    ensures c[k] in d
    decreases if i <= k then k - i else |c| - i + k
  {
    if i != k {
      NextLeadsBack(g, c, i);
      NextLeadsBack(g, d, j);
      hide LeadsBack, IsCycle;
      CyclesCoincide(g, c, After(c, i), d, After(d, j), k);
    }
  }

  /** Where no task has two different retained dependencies that both lead back to it, the
      marked tasks are exactly the tasks on cycles.  A converse in terms of the graph is
      impossible: `MarkingExamples.SampleMarks` gives two lookups with one graph, of which
      only one is marked completely. */
  lemma MarkingIsCompleteWithOneWayBack(l: TaskLookup, x: TaskKey)
    requires OneWayBack(GraphOf(l))
    ensures x in CycleMembers(l) <==> exists c :: IsCycle(GraphOf(l), c) && x in c
  {
    var g, members := GraphOf(l), CycleMembers(l);
    hide CycleMembers, GraphOf, IsCycle, OneWayBack;
    MarkedTasksLieOnMarkedCycles(l, x);
    forall c | IsCycle(g, c) && x in c ensures x in members {
      EveryCycleIsHit(l, c);
      var y :| y in c && y in members;
      MarkedTasksLieOnMarkedCycles(l, y);
      var d :| IsCycle(g, d) && y in d && Elements(d) <= members;
      var i, j, k :| 0 <= i < |c| && c[i] == y && 0 <= j < |d| && d[j] == y && 0 <= k < |c| && c[k] == x;
      CyclesCoincide(g, c, i, d, j, k);
    }
  }
}
