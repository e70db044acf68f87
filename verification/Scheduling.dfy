/** Ordering candidates and agents, and the scheduler loop of `src/coordination.rs`. */
module Scheduling {
  import opened Sequences
  import opened Orders
  import opened Recency
  import opened FairShare

  // ---------- orderings ----------

  /** Higher priority first, then agent, task and id. */
  predicate AssignmentLe(x: Assignment, y: Assignment) {
    if x.priority != y.priority then x.priority > y.priority
    else if x.key != y.key then KeyLe(x.key, y.key)
    else StrLe(x.assignmentId, y.assignmentId)
  }

  lemma AssignmentLeTransitive(x: Assignment, y: Assignment, z: Assignment)
    requires AssignmentLe(x, y) && AssignmentLe(y, z)
    ensures AssignmentLe(x, z)
  {
    KeyLeTotalOrder();
    if x.priority == y.priority == z.priority {
      if x.key == y.key == z.key {
        StrLeTransitive(x.assignmentId, y.assignmentId, z.assignmentId);
      } else {
        assert KeyLe(x.key, y.key) && KeyLe(y.key, z.key);
        KeyLeTransitive(x.key, y.key, z.key);
      }
    }
  }

  lemma AssignmentLeTotal(x: Assignment, y: Assignment)
    ensures AssignmentLe(x, y) || AssignmentLe(y, x)
  {
    KeyLeTotalOrder();
    StrLeTotal(x.assignmentId, y.assignmentId);
  }

  lemma AssignmentLeIsPreorder()
    ensures TotalPreorder(AssignmentLe)
  {
    forall x, y ensures AssignmentLe(x, y) || AssignmentLe(y, x) { AssignmentLeTotal(x, y); }
    forall x, y, z | AssignmentLe(x, y) && AssignmentLe(y, z) ensures AssignmentLe(x, z) {
      AssignmentLeTransitive(x, y, z);
    }
  }

  lemma StrLeTotalOrder()
    ensures TotalOrder(StrLe)
  {
    forall x, y ensures StrLe(x, y) || StrLe(y, x) { StrLeTotal(x, y); }
    forall x, y | StrLe(x, y) && StrLe(y, x) ensures x == y { StrLeAntisymmetric(x, y); }
    forall x, y, z | StrLe(x, y) && StrLe(y, z) ensures StrLe(x, z) { StrLeTransitive(x, y, z); }
  }

  /** The priority of an agent's best candidate. */
  function Front(g: Groups, a: string): nat {
    if a in g && g[a] != [] then g[a][0].priority else 0
  }

  predicate FrontLe(g: Groups, x: string, y: string) {
    if Front(g, x) != Front(g, y) then Front(g, x) > Front(g, y) else StrLe(x, y)
  }

  function ByFront(g: Groups): (string, string) -> bool {
    (x, y) => FrontLe(g, x, y)
  }

  lemma ByFrontIsTotalOrder(g: Groups)
    ensures TotalOrder(ByFront(g)) && TotalPreorder(ByFront(g))
  {
    var le := ByFront(g);
    forall x, y ensures le(x, y) || le(y, x) { StrLeTotal(x, y); }
    forall x, y | le(x, y) && le(y, x) ensures x == y { StrLeAntisymmetric(x, y); }
    forall x, y, z | le(x, y) && le(y, z) ensures le(x, z) {
      if Front(g, x) == Front(g, y) == Front(g, z) { StrLeTransitive(x, y, z); }
    }
  }

  /** Agents by best candidate, ties by name. */
  function AgentOrder(g: Groups): seq<string> {
    StrLeTotalOrder();
    Sort(ByFront(g), Ascending(StrLe, g.Keys))
  }

  // ---------- the order lists each agent once ----------

  lemma {:induction false} AsManyAsMembers<T(!new)>(s: seq<T>, members: set<T>)
    requires (forall x :: x in s <==> x in members) && |s| <= |members|
    ensures Distinct(s)
  {
    if s != [] {
      var x, rest := s[0], s[1..];
      if x in rest {
        TooFew(rest, members);
      } else {
        assert forall y :: y in rest <==> y in members - {x};
        AsManyAsMembers(rest, members - {x});
      }
    }
  }

  lemma {:induction false} TooFew<T(!new)>(s: seq<T>, members: set<T>)
    requires forall x :: x in members ==> x in s
    ensures |members| <= |s|
  {
    if s == [] {
      assert members == {};
    } else {
      TooFew(s[1..], members - {s[0]});
      if s[0] in members { assert members == (members - {s[0]}) + {s[0]}; } else { assert members - {s[0]} == members; }
    }
  }

  lemma AgentOrderListsAgents(s: seq<Assignment>)
    ensures Grouped(AgentOrder(Group(s)), Group(s))
    ensures |AgentOrder(Group(s))| == |AgentsOf(s)|
    ensures Sorted(ByFront(Group(s)), AgentOrder(Group(s)))
  {
    var g := Group(s);
    StrLeTotalOrder();
    var names := Ascending(StrLe, g.Keys);
    SortMultiset(ByFront(g), names);
    SameMembers(names, AgentOrder(g));
    ByFrontIsTotalOrder(g);
    SortSorted(ByFront(g), names);
    AsManyAsMembers(AgentOrder(g), g.Keys);
  }

  // ---------- the best candidate comes first ----------

  lemma {:induction false} RoundsStart(order: seq<string>, g: Groups, cap: nat, k: nat)
    requires k > 0 && order != [] && Quota(g, cap, order[0]) > 0
    ensures |Rounds(order, g, cap, k)| > 0 && Rounds(order, g, cap, k)[0] == g[order[0]][0]
  {
    if k > 1 {
      RoundsStart(order, g, cap, k - 1);
    } else {
      assert Rounds(order, g, cap, 1) == Picks(order, g, cap, 0);
    }
  }

  lemma FirstOf(s: seq<Assignment>)
    requires s != []
    ensures Of(s, s[0].key.agent)[0] == s[0]
  {}

  lemma BestFront(s: seq<Assignment>, b: string)
    requires s != [] && Sorted(AssignmentLe, s) && b in Group(s)
    ensures s[0].key.agent in Group(s) && FrontLe(Group(s), s[0].key.agent, b)
  {
    hide Of;
    var g, a := Group(s), s[0].key.agent;
    FirstOf(s);
    assert s[0] in s && a in g && g[a][0] == s[0];
    var y := g[b][0];
    assert y in g[b] && y in s;
    var i :| 0 <= i < |s| && s[i] == y;
    StrLeTotal(a, a);
    if i > 0 { assert AssignmentLe(s[0], s[i]); }
  }

  lemma LeastIsFirst(le: (string, string) -> bool, order: seq<string>, a: string)
    requires TotalOrder(le) && Sorted(le, order) && a in order && forall b :: b in order ==> le(a, b)
    ensures order[0] == a
  {}

  lemma BestAgentLeads(s: seq<Assignment>)
    requires s != [] && Sorted(AssignmentLe, s)
    ensures |AgentOrder(Group(s))| > 0 && AgentOrder(Group(s))[0] == s[0].key.agent
  {
    var g, a := Group(s), s[0].key.agent;
    assert s[0] in s && a in AgentsOf(s);
    AgentOrderListsAgents(s);
    ByFrontIsTotalOrder(g);
    hide Group, AgentOrder, FrontLe, TotalOrder, TotalPreorder, Sorted;
    forall b | b in AgentOrder(g) ensures ByFront(g)(a, b) {
      BestFront(s, b);
    }
    LeastIsFirst(ByFront(g), AgentOrder(g), a);
  }

  /** What the limits suppress is listed best first. */
  lemma SuppressedIsSorted(g: Groups, selected: seq<Assignment>)
    ensures Sorted(AssignmentLe, Suppressed(g, selected))
  {
    AssignmentLeIsPreorder();
    StrLeTotalOrder();
    SortSorted(AssignmentLe, Leftover(Ascending(StrLe, g.Keys), g, selected));
  }

  /** The globally best candidate is selected first. */
  lemma BestCandidateIsSelectedFirst(s: seq<Assignment>, maximum: nat, cap: nat)
    requires s != [] && Sorted(AssignmentLe, s) && maximum > 0 && cap > 0
    ensures var r := Selected(AgentOrder(Group(s)), Group(s), maximum, cap);
            |r| > 0 && r[0] == s[0]
  {
    var g := Group(s);
    BestAgentLeads(s);
    FirstOf(s);
    assert s[0] in s;
    hide Group, AgentOrder;
    RoundsStart(AgentOrder(g), g, cap, cap);
  }

  // ---------- who is served first ----------

  /** Agent `a` has a better best candidate than `b`, or an equally good one and the earlier name. */
  predicate Outranks(g: Groups, a: string, b: string) {
    && a in g && b in g && g[a] != [] && g[b] != []
    && (g[a][0].priority > g[b][0].priority || (g[a][0].priority == g[b][0].priority && StrLe(a, b)))
  }

  lemma FrontMeansOutranks(g: Groups, a: string, b: string)
    requires a in g && b in g && g[a] != [] && g[b] != [] && FrontLe(g, a, b)
    ensures Outranks(g, a, b)
  {}

  lemma OrderedPair(g: Groups, order: seq<string>, i: nat, j: nat)
    requires Sorted(ByFront(g), order) && i < j < |order|
    ensures FrontLe(g, order[i], order[j])
  {
    assert ByFront(g)(order[i], order[j]);
  }

  /** The agents are visited by the priority of their best candidate, ties by name. */
  lemma AgentsAreRanked(s: seq<Assignment>, i: nat, j: nat)
    requires i < j < |AgentOrder(Group(s))|
    ensures Outranks(Group(s), AgentOrder(Group(s))[i], AgentOrder(Group(s))[j])
  {
    hide Group, AgentOrder, Sorted, Outranks, FrontLe;
    AgentOrderListsAgents(s);
    var g, order := Group(s), AgentOrder(Group(s));
    assert order[i] in order && order[j] in order;
    OrderedPair(g, order, i, j);
    FrontMeansOutranks(g, order[i], order[j]);
  }

  lemma AheadByPosition(order: seq<string>, p: nat, a: string, b: string) returns (i: nat, j: nat)
    requires p <= |order| && a in order[..p] && b in order && b !in order[..p]
    ensures i < j < |order| && order[i] == a && order[j] == b
  {
    i :| 0 <= i < p && order[..p][i] == a;
    j :| 0 <= j < |order| && order[j] == b;
    assert forall k :: 0 <= k < p ==> order[..p][k] in order[..p];
  }

  lemma ShareDecides(order: seq<string>, g: Groups, cap: nat, k: nat, p: nat, a: string, b: string)
    requires p <= |order| && b in g
    requires Share(order, g, cap, k, p, b) < Share(order, g, cap, k, p, a)
    requires Share(order, g, cap, k, p, b) < Min(cap, |g[b]|)
    ensures a in order[..p] && b !in order[..p]
  {}

  /** How much of its queue an agent gets. */
  lemma ServedShare(order: seq<string>, g: Groups, maximum: nat, cap: nat) returns (k: nat, p: nat)
    requires Grouped(order, g)
    ensures p <= |order|
    ensures forall a :: a in g ==> |Of(Selected(order, g, maximum, cap), a)| == Share(order, g, cap, k, p, a)
  {
    hide Selected, Of, Grouped, Picks, Rounds;
    k, p := SelectionIsFairShare(order, g, maximum, cap);
    forall a | a in g ensures |Of(Selected(order, g, maximum, cap), a)| == Share(order, g, cap, k, p, a) {
      QuotaIsInside(g, cap, a);
    }
  }

  /** An agent that gets fewer candidates than another although it has more, and is below the
      cap, is outranked by it; in particular an unserved agent never outranks a served one. */
  lemma FewerMeansOutranked(s: seq<Assignment>, maximum: nat, cap: nat, a: string, b: string)
    requires a in Group(s) && b in Group(s)
    requires var r := Selected(AgentOrder(Group(s)), Group(s), maximum, cap);
             |Of(r, b)| < |Of(r, a)| && |Of(r, b)| < Min(cap, |Group(s)[b]|)
    ensures Outranks(Group(s), a, b)
  {
    hide Group, AgentOrder, Selected, Of, Outranks, Share;
    AgentOrderListsAgents(s);
    var g, order := Group(s), AgentOrder(Group(s));
    assert b in order;
    var k, p := ServedShare(order, g, maximum, cap);
    ShareDecides(order, g, cap, k, p, a, b);
    var i, j := AheadByPosition(order, p, a, b);
    AgentsAreRanked(s, i, j);
  }

  /** The candidates are considered by priority, ties by agent, task and id. */
  lemma CandidatesAreRanked(s: seq<Assignment>, i: nat, j: nat)
    requires i < j < |Sort(AssignmentLe, s)|
    ensures var x, y := Sort(AssignmentLe, s)[i], Sort(AssignmentLe, s)[j];
            && x.priority >= y.priority
            && (x.priority == y.priority ==> StrLe(x.key.agent, y.key.agent))
            && (x.priority == y.priority && x.key.agent == y.key.agent ==> StrLe(x.key.task, y.key.task))
            && (x.priority == y.priority && x.key == y.key ==> StrLe(x.assignmentId, y.assignmentId))
  {
    AssignmentLeIsPreorder();
    SortSorted(AssignmentLe, s);
    var x, y := Sort(AssignmentLe, s)[i], Sort(AssignmentLe, s)[j];
    assert AssignmentLe(x, y);
    StrLeTotal(x.key.agent, x.key.agent);
    StrLeTotal(x.key.task, x.key.task);
    hide TotalPreorder, Sort, Sorted;
  }

  // ---------- what is left over ----------

  function Leftover(agents: seq<string>, g: Groups, selected: seq<Assignment>): seq<Assignment>
    requires forall a :: a in agents ==> a in g
  {
    if agents == [] then []
    else g[agents[0]][Min(|Of(selected, agents[0])|, |g[agents[0]]|)..] + Leftover(agents[1..], g, selected)
  }

  function Suppressed(g: Groups, selected: seq<Assignment>): seq<Assignment> {
    StrLeTotalOrder();
    Sort(AssignmentLe, Leftover(Ascending(StrLe, g.Keys), g, selected))
  }

  lemma {:induction false} LeftoverOf(agents: seq<string>, g: Groups, selected: seq<Assignment>, a: string)
    requires (forall b :: b in agents ==> b in g) && Distinct(agents)
    requires forall b, x :: b in g && x in g[b] ==> x.key.agent == b
    ensures Of(Leftover(agents, g, selected), a) ==
            if a in agents then g[a][Min(|Of(selected, a)|, |g[a]|)..] else []
  {
    if agents != [] {
      var b, rest := agents[0], agents[1..];
      LeftoverOf(rest, g, selected, a);
      var head := g[b][Min(|Of(selected, b)|, |g[b]|)..];
      OfConcat(head, Leftover(rest, g, selected), a);
      OfOne(head, b, a);
      assert b !in rest;
    }
  }

  lemma {:induction false} OfOne(s: seq<Assignment>, b: string, a: string)
    requires forall x :: x in s ==> x.key.agent == b
    ensures Of(s, a) == if a == b then s else []
  {
    if s != [] { OfOne(s[1..], b, a); }
  }

  lemma {:induction false} CountByAgent(s: seq<Assignment>, x: Assignment)
    ensures multiset(s)[x] == multiset(Of(s, x.key.agent))[x]
  {
    if s != [] {
      CountByAgent(s[1..], x);
      assert s == [s[0]] + s[1..];
    }
  }

  /** Nothing is lost or duplicated: selected and suppressed together are the candidates. */
  lemma SelectionPartitionsCandidates(s: seq<Assignment>, maximum: nat, cap: nat)
    ensures var g := Group(s);
            var selected := Selected(AgentOrder(g), g, maximum, cap);
            multiset(selected) + multiset(Suppressed(g, selected)) == multiset(s)
  {
    var g := Group(s);
    var selected := Selected(AgentOrder(g), g, maximum, cap);
    StrLeTotalOrder();
    var left := Leftover(Ascending(StrLe, g.Keys), g, selected);
    SortMultiset(AssignmentLe, left);
    hide Group, Leftover, Selected, AgentOrder, Ascending, Of, TotalOrder;
    forall a ensures Of(selected, a) + Of(left, a) == Of(s, a) { OneAgent(s, maximum, cap, a); }
    EachCandidate(s, selected, left);
  }

  lemma EachCandidate(s: seq<Assignment>, selected: seq<Assignment>, left: seq<Assignment>)
    requires forall a :: Of(selected, a) + Of(left, a) == Of(s, a)
    ensures multiset(selected) + multiset(left) == multiset(s)
  {
    hide Of;
    forall x ensures multiset(selected)[x] + multiset(left)[x] == multiset(s)[x] {
      OneCandidate(s, selected, left, x);
    }
  }

  /** For each agent, selected and left-over candidates split its queue. */
  lemma OneAgent(s: seq<Assignment>, maximum: nat, cap: nat, a: string)
    ensures var g := Group(s);
            var selected := Selected(AgentOrder(g), g, maximum, cap);
            TotalOrder(StrLe) &&
            Of(selected, a) + Of(Leftover(Ascending(StrLe, g.Keys), g, selected), a) == Of(s, a)
  {
    var g := Group(s);
    var order := AgentOrder(g);
    var selected := Selected(order, g, maximum, cap);
    AgentOrderListsAgents(s);
    LeftoverByAgent(s, selected, a);
    hide AgentOrder, Selected, Ascending, TotalOrder, Grouped, Leftover, Of, Sorted;
    if a in g {
      var k, p := SelectionIsFairShare(order, g, maximum, cap);
      QuotaIsInside(g, cap, a);
      SplitQueue(g[a], Share(order, g, cap, k, p, a));
    } else {
      SelectedOfStranger(order, g, maximum, cap, a);
      NoCandidates(s, a);
    }
  }

  lemma SplitQueue(queue: seq<Assignment>, n: nat)
    requires n <= |queue|
    ensures queue[..n] + queue[Min(|queue[..n]|, |queue|)..] == queue
  {}

  lemma LeftoverByAgent(s: seq<Assignment>, selected: seq<Assignment>, a: string)
    ensures var g := Group(s);
            TotalOrder(StrLe) &&
            Of(Leftover(Ascending(StrLe, g.Keys), g, selected), a) ==
            if a in g then g[a][Min(|Of(selected, a)|, |g[a]|)..] else []
  {
    var g := Group(s);
    StrLeTotalOrder();
    var names := Ascending(StrLe, g.Keys);
    AsManyAsMembers(names, g.Keys);
    GroupsAreOwned(s);
    hide TotalOrder, Group, Of;
    LeftoverOf(names, g, selected, a);
  }

  lemma GroupsAreOwned(s: seq<Assignment>)
    ensures forall b, x :: b in Group(s) && x in Group(s)[b] ==> x.key.agent == b
  {}

  lemma NoCandidates(s: seq<Assignment>, a: string)
    requires a !in Group(s)
    ensures Of(s, a) == []
  {}

  lemma OneCandidate(s: seq<Assignment>, selected: seq<Assignment>, left: seq<Assignment>, x: Assignment)
    requires Of(selected, x.key.agent) + Of(left, x.key.agent) == Of(s, x.key.agent)
    ensures multiset(selected)[x] + multiset(left)[x] == multiset(s)[x]
  {
    CountByAgent(selected, x);
    CountByAgent(left, x);
    CountByAgent(s, x);
    hide Of;
    assert multiset(Of(s, x.key.agent)) == multiset(Of(selected, x.key.agent)) + multiset(Of(left, x.key.agent));
  }

  // ---------- the loops ----------

  lemma GroupStep(s: seq<Assignment>, x: Assignment)
    ensures var g, a := Group(s), x.key.agent;
            Group(s + [x]) == g[a := (if a in g then g[a] else []) + [x]]
  {
    var g, g', a := Group(s), Group(s + [x]), x.key.agent;
    forall b
      ensures b in g' <==> b in g || b == a
      ensures b in g' ==> g'[b] == (if b in g then g[b] else []) + (if b == a then [x] else [])
    {
      GroupStepAt(s, x, b);
    }
    hide Group;
    ExtendQueue(g, g', a, x);
  }

  lemma ExtendQueue(g: Groups, g': Groups, a: string, x: Assignment)
    requires forall b :: b in g' <==> b in g || b == a
    requires forall b :: b in g' ==> g'[b] == (if b in g then g[b] else []) + (if b == a then [x] else [])
    ensures g' == g[a := (if a in g then g[a] else []) + [x]]
  {
    var h := g[a := (if a in g then g[a] else []) + [x]];
    forall b | b in g' ensures b in h && g'[b] == h[b] {
      if b != a { assert g[b] + [] == g[b]; }
    }
    assert g'.Keys == h.Keys;
  }

  lemma GroupStepAt(s: seq<Assignment>, x: Assignment, b: string)
    ensures var g, g', a := Group(s), Group(s + [x]), x.key.agent;
            && (b in g' <==> b in g || b == a)
            && (b in g' ==> g'[b] == (if b in g then g[b] else []) + (if b == a then [x] else []))
  {
    OfConcat(s, [x], b);
    OfOne([x], x.key.agent, b);
    if b !in Group(s) { NoCandidates(s, b); }
    assert x in s + [x];
    if b in AgentsOf(s) { var y :| y in s && y.key.agent == b; assert y in s + [x]; }
  }

  method GroupByAgent(candidates: seq<Assignment>) returns (grouped: Groups)
    ensures grouped == Group(candidates)
  {
    grouped := map[];
    var i := 0;
    assert Group([]) == map[];
    while i < |candidates|
      invariant 0 <= i <= |candidates|
      invariant grouped == Group(candidates[..i])
    {
      hide Group;
      var candidate := candidates[i];
      GroupStep(candidates[..i], candidate);
      assert candidates[..i + 1] == candidates[..i] + [candidate];
      var a := candidate.key.agent;
      grouped := grouped[a := (if a in grouped then grouped[a] else []) + [candidate]];
      i := i + 1;
    }
    assert candidates[..i] == candidates;
  }

  function CountOf(counts: map<string, nat>, a: string): nat {
    if a in counts then counts[a] else 0
  }

  /** The queues and counters after `k` rounds and `p` more agents. */
  ghost predicate RoundState(order: seq<string>, g: Groups, cap: nat, k: nat, p: nat, queues: Groups, counts: map<string, nat>) {
    && p <= |order| && queues.Keys == g.Keys
    && forall a :: a in g ==>
         && CountOf(counts, a) == Share(order, g, cap, k, p, a)
         && queues[a] == g[a][Share(order, g, cap, k, p, a)..]
  }

  lemma ShareStep(order: seq<string>, g: Groups, cap: nat, k: nat, p: nat, a: string)
    requires Grouped(order, g) && p < |order|
    ensures Share(order, g, cap, k, p + 1, a) ==
            if a == order[p] then Min(k + 1, Quota(g, cap, a)) else Share(order, g, cap, k, p, a)
    ensures a == order[p] ==> Share(order, g, cap, k, p, a) == Min(k, Quota(g, cap, a))
  {}

  lemma ShareNextRound(order: seq<string>, g: Groups, cap: nat, k: nat, a: string)
    requires Grouped(order, g) && a in g
    ensures Share(order, g, cap, k, |order|, a) == Share(order, g, cap, k + 1, 0, a)
  {}

  lemma {:induction false} PicksSnoc(order: seq<string>, b: string, g: Groups, cap: nat, j: nat)
    ensures Picks(order + [b], g, cap, j) ==
            Picks(order, g, cap, j) + if j < Quota(g, cap, b) then [g[b][j]] else []
  {
    if order != [] {
      assert (order + [b])[1..] == order[1..] + [b];
      PicksSnoc(order[1..], b, g, cap, j);
    }
  }

  lemma SkipAgent(order: seq<string>, g: Groups, cap: nat, k: nat, p: nat, queues: Groups, counts: map<string, nat>)
    requires Grouped(order, g) && RoundState(order, g, cap, k, p, queues, counts) && p < |order|
    requires CountOf(counts, order[p]) >= cap || (order[p] in queues && queues[order[p]] == [])
    ensures k >= Quota(g, cap, order[p])
    ensures RoundState(order, g, cap, k, p + 1, queues, counts)
  {
    hide Share;
    forall a | a in g
      ensures Share(order, g, cap, k, p + 1, a) == Share(order, g, cap, k, p, a)
    {
      ShareStep(order, g, cap, k, p, a);
      QuotaIsInside(g, cap, a);
    }
    ShareStep(order, g, cap, k, p, order[p]);
  }

  lemma ServeAgent(order: seq<string>, g: Groups, cap: nat, k: nat, p: nat, queues: Groups, counts: map<string, nat>)
    requires Grouped(order, g) && RoundState(order, g, cap, k, p, queues, counts) && p < |order|
    requires CountOf(counts, order[p]) < cap && order[p] in queues && queues[order[p]] != []
    ensures k < Quota(g, cap, order[p]) && order[p] in g && k < |g[order[p]]|
    ensures queues[order[p]][0] == g[order[p]][k]
    ensures RoundState(order, g, cap, k, p + 1, queues[order[p] := queues[order[p]][1..]],
                       counts[order[p] := CountOf(counts, order[p]) + 1])
  {
    hide Share;
    var b := order[p];
    assert b in order && b in g;
    ShareStep(order, g, cap, k, p, b);
    assert k < Quota(g, cap, b);
    assert queues[b][1..] == g[b][k + 1..];
    forall a | a in g && a != b
      ensures Share(order, g, cap, k, p + 1, a) == Share(order, g, cap, k, p, a)
    {
      ShareStep(order, g, cap, k, p, a);
    }
  }

  lemma NextRound(order: seq<string>, g: Groups, cap: nat, k: nat, queues: Groups, counts: map<string, nat>)
    requires Grouped(order, g) && RoundState(order, g, cap, k, |order|, queues, counts)
    ensures RoundState(order, g, cap, k + 1, 0, queues, counts)
  {
    hide Share;
    forall a | a in g ensures Share(order, g, cap, k, |order|, a) == Share(order, g, cap, k + 1, 0, a) {
      ShareNextRound(order, g, cap, k, a);
    }
  }

  lemma {:induction false} PicksShrink(order: seq<string>, g: Groups, cap: nat, j: nat)
    requires Picks(order, g, cap, j) == []
    ensures Picks(order, g, cap, j + 1) == []
  {
    if order != [] { PicksShrink(order[1..], g, cap, j); }
  }

  lemma {:induction false} NoMoreRounds(order: seq<string>, g: Groups, cap: nat, k: nat, n: nat)
    requires k <= n && Picks(order, g, cap, k) == []
    ensures Rounds(order, g, cap, n) == Rounds(order, g, cap, k) && Picks(order, g, cap, n) == []
  {
    hide Picks;
    if k < n {
      NoMoreRounds(order, g, cap, k, n - 1);
      PicksShrink(order, g, cap, n - 1);
      assert Rounds(order, g, cap, n) == Rounds(order, g, cap, n - 1) + [];
    }
  }

  lemma {:induction false} PicksOfPrefix(order: seq<string>, g: Groups, cap: nat, j: nat, p: nat)
    requires p <= |order|
    ensures Picks(order[..p], g, cap, j) <= Picks(order, g, cap, j)
  {
    if p > 0 {
      assert order[..p][1..] == order[1..][..p - 1];
      PicksOfPrefix(order[1..], g, cap, j, p - 1);
    }
  }

  lemma {:induction false} RoundsPrefixOfMore(order: seq<string>, g: Groups, cap: nat, k: nat, n: nat)
    requires k <= n
    ensures Rounds(order, g, cap, k) <= Rounds(order, g, cap, n)
  {
    if k < n { RoundsPrefixOfMore(order, g, cap, k, n - 1); }
  }

  lemma PartialRoundIsPrefix(order: seq<string>, g: Groups, cap: nat, k: nat, p: nat)
    requires k < cap && p <= |order|
    ensures Rounds(order, g, cap, k) + Picks(order[..p], g, cap, k) <= Rounds(order, g, cap, cap)
  {
    hide Rounds, Picks;
    PicksOfPrefix(order, g, cap, k, p);
    RoundsPrefixOfMore(order, g, cap, k + 1, cap);
    RoundAppended(order, g, cap, k);
    PrefixUnder(Rounds(order, g, cap, k), Picks(order[..p], g, cap, k), Picks(order, g, cap, k), Rounds(order, g, cap, cap));
  }

  lemma RoundAppended(order: seq<string>, g: Groups, cap: nat, k: nat)
    ensures Rounds(order, g, cap, k + 1) == Rounds(order, g, cap, k) + Picks(order, g, cap, k)
  {}

  lemma PrefixUnder<T>(s: seq<T>, t: seq<T>, u: seq<T>, all: seq<T>)
    requires t <= u && s + u <= all
    ensures s + t <= all
  {}

  lemma {:induction false} NothingAtCap(order: seq<string>, g: Groups, cap: nat, j: nat)
    requires j >= cap
    ensures Picks(order, g, cap, j) == []
  {
    if order != [] { NothingAtCap(order[1..], g, cap, j); }
  }

  /** Stopping at the maximum, or when a round adds nothing, yields the selection. */
  lemma StopIsSelection(order: seq<string>, g: Groups, maximum: nat, cap: nat, k: nat, p: nat, selected: seq<Assignment>)
    requires k <= cap && p <= |order|
    requires selected == Rounds(order, g, cap, k) + Picks(order[..p], g, cap, k) && |selected| <= maximum
    requires |selected| == maximum || (p == |order| && Picks(order, g, cap, k) == [])
    ensures selected == Selected(order, g, maximum, cap)
  {
    var all := Rounds(order, g, cap, cap);
    TakeIsPrefix(all, maximum);
    assert order[..|order|] == order;
    if |selected| == maximum {
      if k < cap {
        PartialRoundIsPrefix(order, g, cap, k, p);
      } else {
        NothingAtCap(order[..p], g, cap, k);
      }
    } else {
      NoMoreRounds(order, g, cap, k, cap);
    }
  }

  /** One agent's turn: skip it at its cap or with an empty queue, else serve it. */
  method VisitAgent(order: seq<string>, ghost g: Groups, cap: nat, ghost k: nat, i: nat, selected0: seq<Assignment>,
                    queues0: Groups, counts0: map<string, nat>)
      returns (selected: seq<Assignment>, queues: Groups, counts: map<string, nat>, served: bool)
    requires Grouped(order, g) && i < |order| && RoundState(order, g, cap, k, i, queues0, counts0)
    requires selected0 == Rounds(order, g, cap, k) + Picks(order[..i], g, cap, k)
    ensures RoundState(order, g, cap, k, i + 1, queues, counts)
    ensures selected == Rounds(order, g, cap, k) + Picks(order[..i + 1], g, cap, k)
    ensures |selected| == |selected0| + if served then 1 else 0
  {
    selected, queues, counts, served := selected0, queues0, counts0, false;
    hide Grouped, RoundState, Rounds, Quota, CountOf, Picks;
    var a := order[i];
    assert order[..i + 1] == order[..i] + [a];
    PicksSnoc(order[..i], a, g, cap, k);
    QueueExists(order, g, cap, k, i, queues, counts);
    if CountOf(counts, a) >= cap || queues[a] == [] {
      SkipAgent(order, g, cap, k, i, queues, counts);
      assert Picks(order[..i], g, cap, k) + [] == Picks(order[..i], g, cap, k);
    } else {
      ServeAgent(order, g, cap, k, i, queues, counts);
      selected := selected + [queues[a][0]];
      assert selected == Rounds(order, g, cap, k) + (Picks(order[..i], g, cap, k) + [g[a][k]]);
      counts := counts[a := CountOf(counts, a) + 1];
      queues := queues[a := queues[a][1..]];
      served := true;
    }
  }

  /** One round: every agent in turn, until the maximum is reached. */
  method RunRound(order: seq<string>, ghost g: Groups, maximum: nat, cap: nat, ghost k: nat, selected0: seq<Assignment>,
                  queues0: Groups, counts0: map<string, nat>)
      returns (selected: seq<Assignment>, queues: Groups, counts: map<string, nat>, madeProgress: bool, ghost p: nat)
    requires Grouped(order, g) && RoundState(order, g, cap, k, 0, queues0, counts0)
    requires selected0 == Rounds(order, g, cap, k) && |selected0| <= maximum
    ensures p <= |order| && RoundState(order, g, cap, k, p, queues, counts)
    ensures selected == Rounds(order, g, cap, k) + Picks(order[..p], g, cap, k) && |selected| <= maximum
    ensures |selected| < maximum ==> p == |order|
    ensures madeProgress <==> |selected| > |selected0|
  {
    selected, queues, counts, madeProgress := selected0, queues0, counts0, false;
    var i := 0;
    assert Picks(order[..0], g, cap, k) == [];
    hide Grouped, RoundState, Rounds, Picks;
    while i < |order| && |selected| < maximum
      invariant 0 <= i <= |order|
      invariant RoundState(order, g, cap, k, i, queues, counts)
      invariant selected == Rounds(order, g, cap, k) + Picks(order[..i], g, cap, k)
      invariant |selected0| <= |selected| <= maximum
      invariant madeProgress <==> |selected| > |selected0|
    {
      var served;
      selected, queues, counts, served := VisitAgent(order, g, cap, k, i, selected, queues, counts);
      madeProgress := madeProgress || served;
      i := i + 1;
    }
    p := i;
  }

  lemma QueueExists(order: seq<string>, g: Groups, cap: nat, k: nat, p: nat, queues: Groups, counts: map<string, nat>)
    requires Grouped(order, g) && RoundState(order, g, cap, k, p, queues, counts) && p < |order|
    ensures order[p] in queues
  {}

  lemma InitialRound(order: seq<string>, g: Groups, cap: nat)
    ensures RoundState(order, g, cap, 0, 0, g, map[]) && Rounds(order, g, cap, 0) == []
  {}

  lemma ProgressStaysBelowCap(order: seq<string>, g: Groups, cap: nat, k: nat)
    requires Picks(order, g, cap, k) != []
    ensures k < cap
  {
    if k >= cap { NothingAtCap(order, g, cap, k); }
  }

  lemma {:induction false} LeftoverIsQueues(agents: seq<string>, order: seq<string>, g: Groups, cap: nat, k: nat, p: nat,
                                            queues: Groups, counts: map<string, nat>, selected: seq<Assignment>)
    requires Grouped(order, g) && RoundState(order, g, cap, k, p, queues, counts)
    requires selected == Rounds(order, g, cap, k) + Picks(order[..p], g, cap, k)
    requires forall a :: a in agents ==> a in g
    ensures Flatten(agents, queues) == Leftover(agents, g, selected)
  {
    if agents != [] {
      var a := agents[0];
      LeftoverIsQueues(agents[1..], order, g, cap, k, p, queues, counts, selected);
      hide Of, Picks, Rounds, Grouped;
      PartialRoundOf(order, g, cap, k, p, a);
      QuotaIsInside(g, cap, a);
    }
  }

  function Flatten(agents: seq<string>, queues: Groups): seq<Assignment>
    requires forall a :: a in agents ==> a in queues
  {
    if agents == [] then [] else queues[agents[0]] + Flatten(agents[1..], queues)
  }

  /** Rounds until the maximum is reached or a round adds nothing. */
  method RunRounds(order: seq<string>, g: Groups, maximum: nat, cap: nat)
      returns (selected: seq<Assignment>, queues: Groups, ghost counts': map<string, nat>, ghost k: nat, ghost p: nat)
    requires Grouped(order, g)
    ensures p <= |order| && RoundState(order, g, cap, k, p, queues, counts')
    ensures selected == Rounds(order, g, cap, k) + Picks(order[..p], g, cap, k)
    ensures selected == Selected(order, g, maximum, cap)
  {
    hide Picks, Grouped, RoundState, Rounds, Selected;
    InitialRound(order, g, cap);
    selected, queues := [], g;
    var counts: map<string, nat> := map[];
    k, p := 0, 0;
    var running := true;
    while running
      invariant k <= cap && |selected| <= maximum
      invariant running ==> selected == Rounds(order, g, cap, k) && RoundState(order, g, cap, k, 0, queues, counts)
      invariant !running ==> p <= |order| && RoundState(order, g, cap, k, p, queues, counts)
      invariant !running ==> selected == Rounds(order, g, cap, k) + Picks(order[..p], g, cap, k)
      invariant !running ==> selected == Selected(order, g, maximum, cap)
      decreases running, cap - k
    {
      var madeProgress;
      selected, queues, counts, madeProgress, p := RunRound(order, g, maximum, cap, k, selected, queues, counts);
      if |selected| >= maximum || !madeProgress {
        assert order[..|order|] == order;
        StopIsSelection(order, g, maximum, cap, k, p, selected);
        running := false;
      } else {
        assert order[..p] == order;
        ProgressStaysBelowCap(order, g, cap, k);
        NextRound(order, g, cap, k, queues, counts);
        RoundsUnfold(order, g, cap, k);
        k := k + 1;
      }
    }
    counts' := counts;
  }

  /** The scheduler of `plan_from_analysis`. */
  method SelectAssignments(candidates: seq<Assignment>, maximum: nat, maximumPerAgent: nat)
      returns (selected: seq<Assignment>, suppressed: seq<Assignment>)
    ensures selected == Selected(AgentOrder(Group(candidates)), Group(candidates), maximum, maximumPerAgent)
    ensures suppressed == Suppressed(Group(candidates), selected)
  {
    var g := GroupByAgent(candidates);
    var order := AgentOrder(g);
    AgentOrderListsAgents(candidates);
    hide Group, AgentOrder, Picks, Grouped, Sorted, RoundState, Rounds, Selected, Suppressed;
    var queues;
    ghost var counts, k, p;
    selected, queues, counts, k, p := RunRounds(order, g, maximum, maximumPerAgent);
    suppressed := Remaining(g, order, maximumPerAgent, k, p, queues, counts, selected);
  }

  lemma RoundsUnfold(order: seq<string>, g: Groups, cap: nat, k: nat)
    ensures Rounds(order, g, cap, k + 1) == Rounds(order, g, cap, k) + Picks(order, g, cap, k)
  {}

  method Remaining(ghost g: Groups, ghost order: seq<string>, ghost cap: nat, ghost k: nat, ghost p: nat,
                   queues: Groups, ghost counts: map<string, nat>, ghost selected: seq<Assignment>)
      returns (suppressed: seq<Assignment>)
    requires Grouped(order, g) && RoundState(order, g, cap, k, p, queues, counts)
    requires selected == Rounds(order, g, cap, k) + Picks(order[..p], g, cap, k)
    ensures suppressed == Suppressed(g, selected)
  {
    StrLeTotalOrder();
    var names := Ascending(StrLe, queues.Keys);
    LeftoverIsQueues(names, order, g, cap, k, p, queues, counts, selected);
    suppressed := Sort(AssignmentLe, Flatten(names, queues));
  }
}
