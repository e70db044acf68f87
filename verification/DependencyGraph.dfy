/** Cycle marking over task dependencies (`src/metacognition/graph.rs`).

    Dependencies are scoped to the owning agent, so the per-agent graphs that the source
    walks one after another are disjoint; here they are one graph whose nodes carry
    their owner. */
module DependencyGraph {
  import opened Model
  import opened Orders

  type TaskLookup = map<TaskKey, TaskState>

  type Graph = map<TaskKey, seq<TaskKey>>

  /** The dependencies of an agent's task that are themselves retained. */
  function Retained(l: TaskLookup, agent: string, dependsOn: seq<string>): (r: seq<TaskKey>)
    ensures forall k :: k in r <==> k in l && k.agent == agent && k.task in dependsOn
  {
    if dependsOn == [] then []
    else
      var key := TaskKey(agent, dependsOn[0]);
      (if key in l then [key] else []) + Retained(l, agent, dependsOn[1..])
  }

  function Dependencies(l: TaskLookup, k: TaskKey): (r: seq<TaskKey>)
    requires k in l
    ensures forall d :: d in r ==> d in l && d.agent == k.agent
  {
    Retained(l, k.agent, l[k].task.dependsOn)
  }

  function GraphOf(l: TaskLookup): (g: Graph)
    ensures Closed(g) && g.Keys == l.Keys
  {
    map k | k in l :: Dependencies(l, k)
  }

  ghost predicate Closed(g: Graph) {
    forall v, w :: v in g && w in g[v] ==> w in g
  }

  // ---------- the depth-first search ----------

  datatype VisitState = Visiting | Done

  datatype Search = Search(states: map<TaskKey, VisitState>, stack: seq<TaskKey>, members: set<TaskKey>)

  const FRESH := Search(map[], [], {})

  function Position(s: seq<TaskKey>, v: TaskKey): (i: nat)
    requires v in s
    ensures i < |s| && s[i] == v && v !in s[..i]
  {
    if s[0] == v then 0 else 1 + Position(s[1..], v)
  }

  function Elements(s: seq<TaskKey>): (r: set<TaskKey>)
    ensures forall x :: x in r <==> x in s
  {
    set x | x in s
  }

  function Entered(d: Search, v: TaskKey): Search {
    Search(d.states[v := Visiting], d.stack + [v], d.members)
  }

  function Left(d: Search, v: TaskKey, stack: seq<TaskKey>): Search {
    Search(d.states[v := Done], stack, d.members)
  }

  function Visit(g: Graph, v: TaskKey, d: Search): (r: Search)
    ensures d.states.Keys <= r.states.Keys && r.stack == d.stack && d.members <= r.members
    decreases g.Keys - d.states.Keys, 0
  {
    if v in d.states then
      if d.states[v] == Visiting && v in d.stack
      then d.(members := d.members + Elements(d.stack[Position(d.stack, v)..]))
      else d
    else
      var entered := Entered(d, v);
      assert v in g ==> v in g.Keys - d.states.Keys && v !in g.Keys - entered.states.Keys;
      var left := if v in g then VisitAll(g, g[v], entered) else entered;
      Left(left, v, left.stack[..|left.stack| - 1])
  }

  function VisitAll(g: Graph, vs: seq<TaskKey>, d: Search): (r: Search)
    ensures d.states.Keys <= r.states.Keys && r.stack == d.stack && d.members <= r.members
    decreases g.Keys - d.states.Keys, |vs|
  {
    if vs == [] then d
    else
      VisitAll(g, vs[1..], Visit(g, vs[0], d))
  }

  /** The marked tasks: one search rooted at every task in key order. */
  function CycleMembers(l: TaskLookup): (r: set<TaskKey>) {
    KeyLeTotalOrder();
    VisitAll(GraphOf(l), Ascending(KeyLe, l.Keys), FRESH).members
  }

  // ---------- cycles and paths ----------

  /** `c` is a closed walk along dependency edges. */
  ghost predicate IsCycle(g: Graph, c: seq<TaskKey>) {
    && |c| > 0
    && IsPath(g, c)
    && c[|c| - 1] in g && c[0] in g[c[|c| - 1]]
  }

  ghost predicate IsPath(g: Graph, p: seq<TaskKey>) {
    forall i :: 0 <= i < |p| - 1 ==> p[i] in g && p[i + 1] in g[p[i]]
  }

  ghost predicate Acyclic(g: Graph) {
    forall c :: !IsCycle(g, c)
  }

  /** `m` lies on a cycle all of whose tasks belong to `s`. */
  ghost predicate OnCycleWithin(g: Graph, s: set<TaskKey>, m: TaskKey) {
    exists c :: IsCycle(g, c) && m in c && Elements(c) <= s
  }

  // ---------- what the search keeps ----------

  /** A numbering of the finished tasks in the order in which they finished; `next` is
      the number the next one gets. */
  datatype Finish = Finish(rank: map<TaskKey, nat>, next: nat)

  ghost predicate StackIsPath(g: Graph, d: Search) {
    && (forall i, j :: 0 <= i < j < |d.stack| ==> d.stack[i] != d.stack[j])
    && (forall v :: v in d.stack <==> v in d.states && d.states[v] == Visiting)
    && IsPath(g, d.stack)
  }

  /** Every dependency of `v` finished before `v` did. */
  ghost predicate AfterItsDependencies(g: Graph, f: Finish, v: TaskKey) {
    v in f.rank && forall w :: v in g && w in g[v] ==> w in f.rank && f.rank[w] < f.rank[v]
  }

  ghost predicate NumbersFinished(d: Search, f: Finish) {
    && (forall v :: v in f.rank <==> v in d.states && d.states[v] == Done)
    && (forall v :: v in f.rank ==> f.rank[v] < f.next)
  }

  ghost predicate UnmarkedAreOrdered(g: Graph, members: set<TaskKey>, f: Finish) {
    forall v :: v in f.rank && v !in members ==> AfterItsDependencies(g, f, v)
  }

  ghost predicate MarksLieOnCycles(g: Graph, members: set<TaskKey>) {
    forall m :: m in members ==> OnCycleWithin(g, members, m)
  }

  ghost predicate SearchInvariant(g: Graph, d: Search, f: Finish) {
    && Closed(g) && d.states.Keys <= g.Keys
    && StackIsPath(g, d)
    && NumbersFinished(d, f)
    && UnmarkedAreOrdered(g, d.members, f)
    && MarksLieOnCycles(g, d.members)
  }

  /** The task being expanded, if any, depends on `v`. */
  ghost predicate Expanding(g: Graph, stack: seq<TaskKey>, v: TaskKey) {
    v in g && (stack != [] ==> stack[|stack| - 1] in g && v in g[stack[|stack| - 1]])
  }

  /** `v` has finished, or the task being expanded has been marked. */
  ghost predicate Settled(stack: seq<TaskKey>, members: set<TaskKey>, f: Finish, v: TaskKey) {
    v in f.rank || (stack != [] && stack[|stack| - 1] in members)
  }

  lemma MarkingStackSegment(g: Graph, d: Search, v: TaskKey)
    requires StackIsPath(g, d) && MarksLieOnCycles(g, d.members)
    requires v in d.states && d.states[v] == Visiting && Expanding(g, d.stack, v)
    ensures v in d.stack && Visit(g, v, d).states == d.states
    ensures d.stack[|d.stack| - 1] in Visit(g, v, d).members
    ensures MarksLieOnCycles(g, Visit(g, v, d).members)
  {}

  lemma EnterKeepsStack(g: Graph, v: TaskKey, d: Search)
    requires StackIsPath(g, d) && v !in d.states && Expanding(g, d.stack, v)
    ensures StackIsPath(g, Entered(d, v))
  {}

  lemma FinishKeepsStack(g: Graph, v: TaskKey, d: Search, left: Search)
    requires StackIsPath(g, left) && left.stack == d.stack + [v]
    ensures StackIsPath(g, Left(left, v, d.stack))
  {
    var r := Left(left, v, d.stack);
    assert forall i :: 0 <= i < |d.stack| ==> left.stack[i] == d.stack[i];
    assert left.stack[|d.stack|] == v;
    forall x ensures x in r.stack <==> x in r.states && r.states[x] == Visiting {
      assert x in left.stack <==> x in d.stack || x == v;
    }
  }

  function Finished(f: Finish, v: TaskKey): Finish {
    Finish(f.rank[v := f.next], f.next + 1)
  }

  lemma FinishKeepsOrder(g: Graph, v: TaskKey, members: set<TaskKey>, f: Finish)
    requires UnmarkedAreOrdered(g, members, f) && v in g && v !in f.rank
    requires forall w :: w in f.rank ==> f.rank[w] < f.next
    requires v in members || forall w :: w in g[v] ==> w in f.rank
    ensures UnmarkedAreOrdered(g, members, Finished(f, v))
  {}

  lemma EnterKeeps(g: Graph, v: TaskKey, d: Search, f: Finish)
    requires SearchInvariant(g, d, f) && v !in d.states && Expanding(g, d.stack, v)
    ensures SearchInvariant(g, Entered(d, v), f)
    ensures forall w :: w in g[v] ==> Expanding(g, Entered(d, v).stack, w)
  {
    hide StackIsPath, UnmarkedAreOrdered, MarksLieOnCycles;
    EnterKeepsStack(g, v, d);
  }

  lemma LeaveKeeps(g: Graph, v: TaskKey, d: Search, left: Search, f: Finish)
    requires SearchInvariant(g, left, f) && v in g && left.stack == d.stack + [v]
    requires forall w :: w in g[v] ==> Settled(left.stack, left.members, f, w)
    ensures SearchInvariant(g, Left(left, v, d.stack), Finished(f, v))
  {
    hide StackIsPath, UnmarkedAreOrdered, MarksLieOnCycles;
    FinishKeepsStack(g, v, d, left);
    OnStackIsVisiting(g, left, v);
    FinishKeepsOrder(g, v, left.members, f);
  }

  lemma MarkKeeps(g: Graph, v: TaskKey, d: Search, f: Finish)
    requires SearchInvariant(g, d, f) && v in d.states && Expanding(g, d.stack, v)
    ensures SearchInvariant(g, Visit(g, v, d), f)
    ensures Settled(d.stack, Visit(g, v, d).members, f, v)
  {
    hide UnmarkedAreOrdered, MarksLieOnCycles, StackIsPath;
    if d.states[v] == Visiting {
      MarkingStackSegment(g, d, v);
      MarkingKeepsOrder(g, d.members, Visit(g, v, d).members, f);
      MarkingKeepsStack(g, d, Visit(g, v, d));
    }
  }

  lemma {:induction false} VisitKeeps(g: Graph, v: TaskKey, d: Search, f: Finish) returns (f': Finish)
    requires SearchInvariant(g, d, f) && Expanding(g, d.stack, v)
    ensures SearchInvariant(g, Visit(g, v, d), f') && f.rank.Keys <= f'.rank.Keys
    ensures Settled(d.stack, Visit(g, v, d).members, f', v)
    decreases g.Keys - d.states.Keys, 0
  {
    hide SearchInvariant;
    if v in d.states {
      f' := f;
      MarkKeeps(g, v, d, f);
    } else {
      EnterKeeps(g, v, d, f);
      assert v in g.Keys - d.states.Keys && v !in g.Keys - Entered(d, v).states.Keys;
      var inner := VisitAllKeeps(g, g[v], Entered(d, v), f);
      LeaveKeeps(g, v, d, VisitAll(g, g[v], Entered(d, v)), inner);
      f' := Finished(inner, v);
    }
  }

  lemma OnStackIsVisiting(g: Graph, d: Search, v: TaskKey)
    requires StackIsPath(g, d) && v in d.stack
    ensures v in d.states && d.states[v] == Visiting
  {}

  lemma MarkingKeepsOrder(g: Graph, members: set<TaskKey>, more: set<TaskKey>, f: Finish)
    requires UnmarkedAreOrdered(g, members, f) && members <= more
    ensures UnmarkedAreOrdered(g, more, f)
  {}

  lemma MarkingKeepsStack(g: Graph, d: Search, r: Search)
    requires StackIsPath(g, d) && r.stack == d.stack && r.states == d.states
    ensures StackIsPath(g, r)
  {}

  lemma {:induction false} VisitAllKeeps(g: Graph, vs: seq<TaskKey>, d: Search, f: Finish) returns (f': Finish)
    requires SearchInvariant(g, d, f)
    requires forall v :: v in vs ==> Expanding(g, d.stack, v)
    ensures SearchInvariant(g, VisitAll(g, vs, d), f') && f.rank.Keys <= f'.rank.Keys
    ensures forall v :: v in vs ==> Settled(d.stack, VisitAll(g, vs, d).members, f', v)
    decreases g.Keys - d.states.Keys, |vs|
  {
    hide SearchInvariant, Expanding;
    f' := f;
    if vs != [] {
      var first := VisitKeeps(g, vs[0], d, f);
      f' := VisitAllKeeps(g, vs[1..], Visit(g, vs[0], d), first);
      assert vs == [vs[0]] + vs[1..];
    }
  }

  // ---------- what cycle marking guarantees ----------

  lemma FreshSearch(g: Graph)
    requires Closed(g)
    ensures SearchInvariant(g, FRESH, Finish(map[], 0))
  {}

  lemma MarkedAreTasks(g: Graph, members: set<TaskKey>)
    requires MarksLieOnCycles(g, members)
    ensures members <= g.Keys
  {
    forall m | m in members ensures m in g {
      var c :| IsCycle(g, c) && m in c && Elements(c) <= members;
      CycleStaysInside(g, c);
    }
  }

  /** A search that settled roots covering the graph has numbered every task. */
  lemma WholeSearch(g: Graph, roots: seq<TaskKey>, d: Search, f: Finish)
    requires SearchInvariant(g, d, f) && forall k :: k in roots <==> k in g
    requires forall k :: k in roots ==> Settled([], d.members, f, k)
    ensures f.rank.Keys == g.Keys && UnmarkedAreOrdered(g, d.members, f) && MarksLieOnCycles(g, d.members)
  {
    hide UnmarkedAreOrdered, MarksLieOnCycles, StackIsPath, Closed;
    forall k | k in g ensures k in f.rank { assert Settled([], d.members, f, k); }
  }

  lemma RootsAreExpanding(g: Graph, roots: seq<TaskKey>)
    requires forall k :: k in roots ==> k in g
    ensures forall k :: k in roots ==> Expanding(g, [], k)
  {}

  /** The numbering that a whole search leaves behind. */
  lemma SearchNumbers(l: TaskLookup) returns (f: Finish)
    ensures f.rank.Keys == l.Keys
    ensures UnmarkedAreOrdered(GraphOf(l), CycleMembers(l), f)
    ensures MarksLieOnCycles(GraphOf(l), CycleMembers(l)) && CycleMembers(l) <= l.Keys
  {
    hide UnmarkedAreOrdered, MarksLieOnCycles, VisitAll, Closed, GraphOf, TotalOrder, KeyLe, Sorted, SearchInvariant,
      Settled, Expanding;
    KeyLeTotalOrder();
    var g, roots := GraphOf(l), Ascending(KeyLe, l.Keys);
    FreshSearch(g);
    RootsAreExpanding(g, roots);
    f := VisitAllKeeps(g, roots, FRESH, Finish(map[], 0));
    WholeSearch(g, roots, VisitAll(g, roots, FRESH), f);
    MarkedAreTasks(g, CycleMembers(l));
  }

  lemma CycleStaysInside(g: Graph, c: seq<TaskKey>)
    requires IsCycle(g, c)
    ensures forall x :: x in c ==> x in g
  {}

  /** Marking is sound: a marked task lies on a cycle, and that whole cycle is marked. */
  lemma MarkedTasksLieOnMarkedCycles(l: TaskLookup, m: TaskKey)
    ensures m in CycleMembers(l) ==> m in l && OnCycleWithin(GraphOf(l), CycleMembers(l), m)
  {
    var f := SearchNumbers(l);
  }

  /** Going once around a cycle of unmarked tasks would lower a finishing number
      below itself. */
  lemma {:induction false} UnmarkedPathDescends(g: Graph, members: set<TaskKey>, f: Finish, c: seq<TaskKey>, i: nat)
    requires UnmarkedAreOrdered(g, members, f) && IsPath(g, c)
    requires i < |c| && forall x :: x in c ==> x in f.rank && x !in members
    ensures f.rank[c[i]] <= f.rank[c[0]]
  {
    if i > 0 {
      UnmarkedPathDescends(g, members, f, c, i - 1);
      assert c[i - 1] in c && AfterItsDependencies(g, f, c[i - 1]);
      assert c[i - 1 + 1] in g[c[i - 1]];
    }
  }

  /** Every cycle is hit: a closed walk along dependencies passes a marked task. */
  lemma EveryCycleIsHit(l: TaskLookup, c: seq<TaskKey>)
    requires IsCycle(GraphOf(l), c)
    ensures exists x :: x in c && x in CycleMembers(l)
  {
    var g, members := GraphOf(l), CycleMembers(l);
    var f := SearchNumbers(l);
    CycleStaysInside(g, c);
    if forall x :: x in c ==> x !in members {
      assert AfterItsDependencies(g, f, c[|c| - 1]);
      UnmarkedPathDescends(g, members, f, c, |c| - 1);
      assert false;
    }
  }

  /** Nothing is marked exactly when the dependency graph has no cycle. */
  lemma NothingMarkedIffAcyclic(l: TaskLookup)
    ensures CycleMembers(l) == {} <==> Acyclic(GraphOf(l))
  {
    if CycleMembers(l) == {} {
      forall c ensures !IsCycle(GraphOf(l), c) {
        if IsCycle(GraphOf(l), c) {
          EveryCycleIsHit(l, c);
          assert false;
        }
      }
    } else {
      var m :| m in CycleMembers(l);
      MarkedTasksLieOnMarkedCycles(l, m);
    }
  }

  /** The graph without the marked tasks. */
  function Unmarked(l: TaskLookup): (g: Graph) {
    map k | k in l && k !in CycleMembers(l) :: Dependencies(l, k)
  }

  lemma UnmarkedGraphIsAcyclic(l: TaskLookup, c: seq<TaskKey>)
    ensures !IsCycle(Unmarked(l), c)
  {
    if IsCycle(Unmarked(l), c) {
      CycleStaysInside(Unmarked(l), c);
      assert IsPath(GraphOf(l), c);
      EveryCycleIsHit(l, c);
      assert false;
    }
  }
}
