/** Task graphs on which cycle marking misses a task, and on which the order inside a
    dependency list decides what is marked. */
module MarkingExamples {
  import opened Model
  import opened Orders
  import opened DependencyGraph

  lemma VisitOne(g: Graph, v: TaskKey, d: Search)
    ensures VisitAll(g, [v], d) == Visit(g, v, d)
  {}

  lemma VisitTwo(g: Graph, v: TaskKey, w: TaskKey, d: Search)
    ensures VisitAll(g, [v, w], d) == Visit(g, w, Visit(g, v, d))
  {
    assert [v, w][1..] == [w];
    VisitOne(g, w, Visit(g, v, d));
  }

  /** The dependencies are a -> [b, c], b -> [a] and c -> [b]. */
  ghost predicate Tangled(g: Graph, a: TaskKey, b: TaskKey, c: TaskKey) {
    a != b && b != c && a != c && g == map[a := [b, c], b := [a], c := [b]]
  }

  lemma TangledVisitB(g: Graph, a: TaskKey, b: TaskKey, c: TaskKey)
    requires Tangled(g, a, b, c)
    ensures Visit(g, b, Entered(FRESH, a)) == Search(map[a := Visiting, b := Done], [a], {a, b})
  {
    var atA := Entered(FRESH, a);
    var atB := Entered(atA, b);
    VisitOne(g, a, atB);
    assert atB.stack == [a, b] && atB.stack[0..] == [a, b];
    assert Elements([a, b]) == {a, b};
    assert Visit(g, a, atB) == Search(map[a := Visiting, b := Visiting], [a, b], {a, b});
  }

  lemma TangledVisitC(g: Graph, a: TaskKey, b: TaskKey, c: TaskKey, d: Search)
    requires Tangled(g, a, b, c) && d == Search(map[a := Visiting, b := Done], [a], {a, b})
    ensures Visit(g, c, d) == Search(map[a := Visiting, b := Done, c := Done], [a], {a, b})
  {
    VisitOne(g, b, Entered(d, c));
  }

  lemma TangledVisitA(g: Graph, a: TaskKey, b: TaskKey, c: TaskKey)
    requires Tangled(g, a, b, c)
    ensures Visit(g, a, FRESH) == Search(map[a := Done, b := Done, c := Done], [], {a, b})
  {
    VisitTwo(g, b, c, Entered(FRESH, a));
    TangledVisitB(g, a, b, c);
    TangledVisitC(g, a, b, c, Visit(g, b, Entered(FRESH, a)));
  }

  lemma TangledRoots(a: TaskKey, b: TaskKey, c: TaskKey)
    requires a != b && b != c && a != c && KeyLe(a, b) && KeyLe(b, c)
    ensures TotalOrder(KeyLe) && Ascending(KeyLe, {a, b, c}) == [a, b, c]
  {
    KeyLeTotalOrder();
    var r := Ascending(KeyLe, {a, b, c});
    assert |r| == |{a, b, c}| == 3;
    assert a in r && b in r && c in r;
    assert KeyLe(r[0], r[1]) && KeyLe(r[1], r[2]);
    assert r == [r[0], r[1], r[2]];
  }

  lemma TangledSearch(g: Graph, a: TaskKey, b: TaskKey, c: TaskKey)
    requires Tangled(g, a, b, c)
    ensures a != b && b != c && a != c && g.Keys == {a, b, c} && IsCycle(g, [c, b, a])
    ensures VisitAll(g, [a, b, c], FRESH).members == {a, b}
  {
    TangledVisitA(g, a, b, c);
    var done := Visit(g, a, FRESH);
    assert [a, b, c][1..] == [b, c];
    VisitTwo(g, b, c, done);
    assert Visit(g, b, done) == done == Visit(g, c, done);
  }

  /** A task can lie on a cycle and stay unmarked: with a -> [b, c], b -> [a] and
      c -> [b], the search leaves c unmarked although c -> b -> a -> c is a cycle. */
  lemma MarkingMissesSomeCycleTasks(l: TaskLookup, a: TaskKey, b: TaskKey, c: TaskKey)
    requires Tangled(GraphOf(l), a, b, c) && KeyLe(a, b) && KeyLe(b, c)
    ensures CycleMembers(l) == {a, b}
    ensures IsCycle(GraphOf(l), [c, b, a]) && c !in CycleMembers(l)
  {
    hide VisitAll, Visit, TotalOrder, KeyLe, Ascending, GraphOf, Tangled, IsCycle;
    TangledSearch(GraphOf(l), a, b, c);
    TangledRoots(a, b, c);
  }

  /** The same dependencies with a's list the other way round: a -> [c, b]. */
  ghost predicate Retangled(g: Graph, a: TaskKey, b: TaskKey, c: TaskKey) {
    a != b && b != c && a != c && g == map[a := [c, b], b := [a], c := [b]]
  }

  lemma RetangledVisitB(g: Graph, a: TaskKey, b: TaskKey, c: TaskKey)
    requires Retangled(g, a, b, c)
    ensures Visit(g, b, Entered(Entered(FRESH, a), c))
            == Search(map[a := Visiting, c := Visiting, b := Done], [a, c], {a, b, c})
  {
    var atB := Entered(Entered(Entered(FRESH, a), c), b);
    VisitOne(g, a, atB);
    assert atB.stack == [a, c, b] && atB.stack[0..] == [a, c, b];
    assert Elements([a, c, b]) == {a, b, c};
    assert Visit(g, a, atB) == Search(map[a := Visiting, c := Visiting, b := Visiting], [a, c, b], {a, b, c});
  }

  lemma RetangledVisitC(g: Graph, a: TaskKey, b: TaskKey, c: TaskKey)
    requires Retangled(g, a, b, c)
    ensures Visit(g, c, Entered(FRESH, a)).members == {a, b, c}
  {
    VisitOne(g, b, Entered(Entered(FRESH, a), c));
    RetangledVisitB(g, a, b, c);
  }

  lemma RetangledSearch(g: Graph, a: TaskKey, b: TaskKey, c: TaskKey)
    requires Retangled(g, a, b, c)
    ensures a != b && b != c && a != c && g.Keys == {a, b, c}
    ensures {a, b, c} <= VisitAll(g, [a, b, c], FRESH).members
  {
    RetangledVisitC(g, a, b, c);
    VisitTwo(g, c, b, Entered(FRESH, a));
    assert {a, b, c} <= Visit(g, a, FRESH).members;
    assert [a, b, c][1..] == [b, c];
  }

  lemma RetangledMarks(l: TaskLookup, a: TaskKey, b: TaskKey, c: TaskKey)
    requires Retangled(GraphOf(l), a, b, c) && KeyLe(a, b) && KeyLe(b, c)
    ensures CycleMembers(l) == {a, b, c}
  {
    hide VisitAll, Visit, TotalOrder, KeyLe, Ascending, GraphOf, Retangled, UnmarkedAreOrdered, MarksLieOnCycles;
    RetangledSearch(GraphOf(l), a, b, c);
    TangledRoots(a, b, c);
    var f := SearchNumbers(l);
  }

  ghost predicate SameEdges(g: Graph, g': Graph) {
    g.Keys == g'.Keys && forall v, w :: v in g ==> (w in g[v] <==> w in g'[v])
  }

  lemma TangledEdges(g: Graph, g': Graph, a: TaskKey, b: TaskKey, c: TaskKey)
    requires Tangled(g, a, b, c) && Retangled(g', a, b, c)
    ensures SameEdges(g, g')
  {}

  /** Marking is not a property of the graph alone: two lookups with the same tasks and the
      same dependencies, listed in different order, are marked differently. */
  lemma MarkingDependsOnListOrder(l: TaskLookup, l': TaskLookup, a: TaskKey, b: TaskKey, c: TaskKey)
    requires Tangled(GraphOf(l), a, b, c) && Retangled(GraphOf(l'), a, b, c) && KeyLe(a, b) && KeyLe(b, c)
    ensures SameEdges(GraphOf(l), GraphOf(l'))
    ensures CycleMembers(l) == {a, b} && CycleMembers(l') == {a, b, c}
  {
    hide CycleMembers, SameEdges, Tangled, Retangled, KeyLe, GraphOf;
    TangledEdges(GraphOf(l), GraphOf(l'), a, b, c);
    MarkingMissesSomeCycleTasks(l, a, b, c);
    RetangledMarks(l', a, b, c);
  }

  // ---------- the lookups themselves ----------

  function SampleTask(id: string, dependsOn: seq<string>): TaskState {
    TaskState(TaskSpec(id, id, None, dependsOn, [], None), "agent", TaskStatus.Pending, 0.0, 0, None, None, None, None,
              None, None, None, [], false, 0, 0, None, None, 0)
  }

  /** Three tasks of one agent; the dependencies of the first are a parameter. */
  function Sample(first: seq<string>): TaskLookup {
    map[TaskKey("agent", "a") := SampleTask("a", first),
        TaskKey("agent", "b") := SampleTask("b", ["a"]),
        TaskKey("agent", "c") := SampleTask("c", ["b"])]
  }

  lemma RetainedOne(l: TaskLookup, agent: string, x: string)
    requires TaskKey(agent, x) in l
    ensures Retained(l, agent, [x]) == [TaskKey(agent, x)]
  {
    assert [x][1..] == [];
  }

  lemma RetainedTwo(l: TaskLookup, agent: string, x: string, y: string)
    requires TaskKey(agent, x) in l && TaskKey(agent, y) in l
    ensures Retained(l, agent, [x, y]) == [TaskKey(agent, x), TaskKey(agent, y)]
  {
    assert [x, y][1..] == [y];
    RetainedOne(l, agent, y);
  }

  lemma SampleKeys()
    ensures var a, b, c := TaskKey("agent", "a"), TaskKey("agent", "b"), TaskKey("agent", "c");
            a != b && b != c && a != c && KeyLe(a, b) && KeyLe(b, c)
  {
    assert "a"[0] != "b"[0] && "b"[0] != "c"[0] && "a"[0] != "c"[0];
  }

  lemma GraphOfThree(l: TaskLookup, a: TaskKey, b: TaskKey, c: TaskKey, g: Graph)
    requires a != b && b != c && a != c && l.Keys == {a, b, c}
    requires g == map[a := Dependencies(l, a), b := Dependencies(l, b), c := Dependencies(l, c)]
    ensures GraphOf(l) == g
  {
    hide Dependencies;
  }

  lemma SampleGraph(x: string, y: string)
    requires x in ["a", "b", "c"] && y in ["a", "b", "c"]
    ensures var a, b, c := TaskKey("agent", "a"), TaskKey("agent", "b"), TaskKey("agent", "c");
            GraphOf(Sample([x, y])) == map[a := [TaskKey("agent", x), TaskKey("agent", y)], b := [a], c := [b]]
  {
    var a, b, c := TaskKey("agent", "a"), TaskKey("agent", "b"), TaskKey("agent", "c");
    var l := Sample([x, y]);
    SampleKeys();
    assert l.Keys == {a, b, c};
    hide Retained, GraphOf, KeyLe;
    RetainedTwo(l, "agent", x, y);
    RetainedOne(l, "agent", "a");
    RetainedOne(l, "agent", "b");
    GraphOfThree(l, a, b, c, map[a := Dependencies(l, a), b := Dependencies(l, b), c := Dependencies(l, c)]);
  }

  /** A lookup whose cycle task "c" stays unmarked, and the same tasks with one dependency
      list reversed, where it is marked. */
  lemma SampleMarks()
    ensures var a, b, c := TaskKey("agent", "a"), TaskKey("agent", "b"), TaskKey("agent", "c");
            var l, l' := Sample(["b", "c"]), Sample(["c", "b"]);
            && IsCycle(GraphOf(l), [c, b, a]) && SameEdges(GraphOf(l), GraphOf(l'))
            && CycleMembers(l) == {a, b} && CycleMembers(l') == {a, b, c}
  {
    var a, b, c := TaskKey("agent", "a"), TaskKey("agent", "b"), TaskKey("agent", "c");
    var l, l' := Sample(["b", "c"]), Sample(["c", "b"]);
    hide CycleMembers, GraphOf, Sample, SameEdges, IsCycle, KeyLe;
    SampleKeys();
    SampleGraph("b", "c");
    SampleGraph("c", "b");
    MarkingMissesSomeCycleTasks(l, a, b, c);
    MarkingDependsOnListOrder(l, l', a, b, c);
  }
}
