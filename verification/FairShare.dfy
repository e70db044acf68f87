/** The fair-share scheduler of `src/coordination.rs`: rounds over the agents in order of
    their best candidate, under a global cap and a per-agent cap. */
module FairShare {
  import opened Sequences
  import opened Model
  import opened Orders
  import opened Recency

  datatype Action = StartTask | ContinueTask | ResolveBlocker | RequestCheckpoint | ChangeStrategy | GatherEvidence
                  | DefineNextAction

  datatype Assignment = Assignment(
    assignmentId: string,
    key: TaskKey,
    goalId: Option<string>,
    action: Action,
    priority: nat,
    onCriticalPath: bool,
    diagnosticIds: seq<string>,
    sourceEventIds: seq<Uuid>,
    sourceEventsRetained: bool)

  type Groups = map<string, seq<Assignment>>

  function Min(a: nat, b: nat): nat { if a < b then a else b }

  // ---------- candidates by agent ----------

  /** The candidates of one agent, in order. */
  function Of(s: seq<Assignment>, a: string): (r: seq<Assignment>)
    ensures |r| <= |s| && forall x :: x in r <==> x in s && x.key.agent == a
  {
    if s == [] then [] else (if s[0].key.agent == a then [s[0]] else []) + Of(s[1..], a)
  }

  function AgentsOf(s: seq<Assignment>): set<string> {
    set x | x in s :: x.key.agent
  }

  function Group(s: seq<Assignment>): (g: Groups)
    ensures g.Keys == AgentsOf(s)
    ensures forall a :: a in g ==> g[a] == Of(s, a) && |g[a]| > 0
  {
    var g := map a | a in AgentsOf(s) :: Of(s, a);
    assert forall a :: a in g ==> |g[a]| > 0 by {
      forall a | a in g ensures |g[a]| > 0 {
        var x :| x in s && x.key.agent == a;
        assert x in Of(s, a);
      }
    }
    g
  }

  lemma {:induction false} OfConcat(s: seq<Assignment>, t: seq<Assignment>, a: string)
    ensures Of(s + t, a) == Of(s, a) + Of(t, a)
  {
    if s == [] {
      assert s + t == t;
    } else {
      assert (s + t)[1..] == s[1..] + t;
      OfConcat(s[1..], t, a);
    }
  }

  // ---------- rounds ----------

  function Quota(g: Groups, cap: nat, a: string): nat {
    if a in g then Min(cap, |g[a]|) else 0
  }

  /** What round `j` adds: the next candidate of every agent that still has one. */
  function Picks(order: seq<string>, g: Groups, cap: nat, j: nat): seq<Assignment> {
    if order == [] then []
    else (if j < Quota(g, cap, order[0]) then [g[order[0]][j]] else []) + Picks(order[1..], g, cap, j)
  }

  function Rounds(order: seq<string>, g: Groups, cap: nat, k: nat): seq<Assignment> {
    if k == 0 then [] else Rounds(order, g, cap, k - 1) + Picks(order, g, cap, k - 1)
  }

  /** The selection: the rounds one after another, cut at the global maximum. */
  function Selected(order: seq<string>, g: Groups, maximum: nat, cap: nat): seq<Assignment> {
    Take(Rounds(order, g, cap, cap), maximum)
  }

  /** Every group holds its own agent's candidates and the order lists each agent once. */
  ghost predicate Grouped(order: seq<string>, g: Groups) {
    && (forall i, j :: 0 <= i < j < |order| ==> order[i] != order[j])
    && (forall a :: a in order <==> a in g)
    && (forall a, x :: a in g && x in g[a] ==> x.key.agent == a)
  }

  /** How much of agent `a`'s queue is consumed after `k` full rounds and `p` more agents. */
  function Share(order: seq<string>, g: Groups, cap: nat, k: nat, p: nat, a: string): nat
    requires p <= |order|
  {
    Min(if a in order[..p] then k + 1 else k, Quota(g, cap, a))
  }

  lemma {:induction false} PicksOf(order: seq<string>, g: Groups, cap: nat, j: nat, a: string)
    requires forall i, j :: 0 <= i < j < |order| ==> order[i] != order[j]
    requires forall b, x :: b in g && x in g[b] ==> x.key.agent == b
    ensures Of(Picks(order, g, cap, j), a) == if a in order && j < Quota(g, cap, a) then [g[a][j]] else []
  {
    if order != [] {
      var b, rest := order[0], order[1..];
      PicksOf(rest, g, cap, j, a);
      var head := if j < Quota(g, cap, b) then [g[b][j]] else [];
      OfConcat(head, Picks(rest, g, cap, j), a);
      assert b !in rest;
      if j < Quota(g, cap, b) {
        assert g[b][j] in g[b];
        assert Of(head, a) == if a == b then head else [];
      }
    }
  }

  lemma RoundOf(order: seq<string>, g: Groups, cap: nat, j: nat, a: string)
    requires Grouped(order, g) && a in g
    ensures Of(Picks(order, g, cap, j), a) == if j < Quota(g, cap, a) then [g[a][j]] else []
  {
    PicksOf(order, g, cap, j, a);
  }

  lemma QuotaIsInside(g: Groups, cap: nat, a: string)
    requires a in g
    ensures Quota(g, cap, a) <= |g[a]|
  {}

  lemma NoRounds(order: seq<string>, g: Groups, cap: nat, a: string)
    ensures Of(Rounds(order, g, cap, 0), a) == []
  {}

  lemma OneMoreRound(order: seq<string>, g: Groups, cap: nat, k: nat, a: string)
    requires Grouped(order, g) && a in g
    ensures Of(Rounds(order, g, cap, k + 1), a)
            == Of(Rounds(order, g, cap, k), a) + if k < Quota(g, cap, a) then [g[a][k]] else []
  {
    hide Picks, Quota, Grouped, Of;
    RoundOf(order, g, cap, k, a);
    OfConcat(Rounds(order, g, cap, k), Picks(order, g, cap, k), a);
  }

  lemma {:induction false} RoundsOf(order: seq<string>, g: Groups, cap: nat, k: nat, a: string)
    requires Grouped(order, g) && a in g
    ensures Of(Rounds(order, g, cap, k), a) == g[a][..Min(k, Quota(g, cap, a))]
  {
    QuotaIsInside(g, cap, a);
    var quota := Quota(g, cap, a);
    NoRounds(order, g, cap, a);
    hide Quota, Grouped, Of, Rounds;
    if k == 0 {
      assert g[a][..0] == [];
    } else {
      var n := k - 1;
      RoundsOf(order, g, cap, n, a);
      OneMoreRound(order, g, cap, n, a);
      OneMore(g[a], n, quota);
      assert Of(Rounds(order, g, cap, n + 1), a) == g[a][..Min(n + 1, quota)];
    }
  }

  lemma OneMore<T>(queue: seq<T>, k: nat, quota: nat)
    requires quota <= |queue|
    ensures queue[..Min(k, quota)] + (if k < quota then [queue[k]] else []) == queue[..Min(k + 1, quota)]
  {}

  /** After `k` rounds and `p` agents, each agent has exactly its share, in queue order. */
  lemma PartialRoundOf(order: seq<string>, g: Groups, cap: nat, k: nat, p: nat, a: string)
    requires Grouped(order, g) && a in g && p <= |order|
    ensures Of(Rounds(order, g, cap, k) + Picks(order[..p], g, cap, k), a) == g[a][..Share(order, g, cap, k, p, a)]
  {
    RoundsOf(order, g, cap, k, a);
    PicksOf(order[..p], g, cap, k, a);
    hide Of, Picks, Quota, Rounds, Grouped;
    OfConcat(Rounds(order, g, cap, k), Picks(order[..p], g, cap, k), a);
    QuotaIsInside(g, cap, a);
    OneMore(g[a], k, Quota(g, cap, a));
  }

  // ---------- every cut of the rounds is a partial round ----------

  lemma {:induction false} PicksPrefix(order: seq<string>, g: Groups, cap: nat, j: nat, m: nat) returns (p: nat)
    requires m <= |Picks(order, g, cap, j)|
    ensures p <= |order| && Picks(order, g, cap, j)[..m] == Picks(order[..p], g, cap, j)
  {
    p := 0;
    if m > 0 {
      var taken := if j < Quota(g, cap, order[0]) then 1 else 0;
      var q := PicksPrefix(order[1..], g, cap, j, m - taken);
      p := q + 1;
      assert order[..p][1..] == order[1..][..q];
    }
  }

  lemma {:induction false} RoundsPrefix(order: seq<string>, g: Groups, cap: nat, n: nat, m: nat) returns (k: nat, p: nat)
    requires m <= |Rounds(order, g, cap, n)|
    ensures k <= n && p <= |order|
    ensures Rounds(order, g, cap, n)[..m] == Rounds(order, g, cap, k) + Picks(order[..p], g, cap, k)
    ensures m < |Rounds(order, g, cap, n)| ==> k < n
  {
    k, p := 0, 0;
    if n > 0 {
      var before := Rounds(order, g, cap, n - 1);
      if m < |before| {
        k, p := RoundsPrefix(order, g, cap, n - 1, m);
        assert Rounds(order, g, cap, n)[..m] == before[..m];
      } else if m == |Rounds(order, g, cap, n)| {
        k, p := n, 0;
      } else {
        k := n - 1;
        p := PicksPrefix(order, g, cap, n - 1, m - |before|);
      }
    }
  }

  // ---------- sizes ----------

  function TotalQuota(order: seq<string>, g: Groups, cap: nat, k: nat): nat {
    if order == [] then 0 else Min(k, Quota(g, cap, order[0])) + TotalQuota(order[1..], g, cap, k)
  }

  lemma {:induction false} PicksSize(order: seq<string>, g: Groups, cap: nat, k: nat)
    ensures TotalQuota(order, g, cap, k) + |Picks(order, g, cap, k)| == TotalQuota(order, g, cap, k + 1)
  {
    if order != [] { PicksSize(order[1..], g, cap, k); }
  }

  lemma {:induction false} NoRoundsNoQuota(order: seq<string>, g: Groups, cap: nat)
    ensures TotalQuota(order, g, cap, 0) == 0
  {
    if order != [] { NoRoundsNoQuota(order[1..], g, cap); }
  }

  lemma {:induction false} RoundsSize(order: seq<string>, g: Groups, cap: nat, k: nat)
    ensures |Rounds(order, g, cap, k)| == TotalQuota(order, g, cap, k)
  {
    hide Picks, TotalQuota, Quota;
    if k == 0 {
      NoRoundsNoQuota(order, g, cap);
    } else {
      RoundsSize(order, g, cap, k - 1);
      PicksSize(order, g, cap, k - 1);
    }
  }

  // ---------- the closed form ----------

  /** There are a round `k` and a prefix of `p` agents such that every agent gets
      min(k + 1, cap, n) inside the prefix and min(k, cap, n) outside it, taken from the
      front of its queue; the total is min(maximum, sum of min(cap, n)). */
  lemma SelectionIsFairShare(order: seq<string>, g: Groups, maximum: nat, cap: nat) returns (k: nat, p: nat)
    requires Grouped(order, g)
    ensures k <= cap && p <= |order|
    ensures Selected(order, g, maximum, cap) == Rounds(order, g, cap, k) + Picks(order[..p], g, cap, k)
    ensures forall a :: a in g ==> Of(Selected(order, g, maximum, cap), a) == g[a][..Share(order, g, cap, k, p, a)]
    ensures |Selected(order, g, maximum, cap)| == Min(maximum, TotalQuota(order, g, cap, cap))
  {
    var all := Rounds(order, g, cap, cap);
    TakeIsPrefix(all, maximum);
    RoundsSize(order, g, cap, cap);
    hide Rounds, Picks, Of, Grouped;
    k, p := RoundsPrefix(order, g, cap, cap, Min(maximum, |all|));
    assert all[..|all|] == all;
    forall a | a in g
      ensures Of(Selected(order, g, maximum, cap), a) == g[a][..Share(order, g, cap, k, p, a)]
    {
      PartialRoundOf(order, g, cap, k, p, a);
    }
  }

  lemma StrangerPicksNothing(order: seq<string>, g: Groups, cap: nat, k: nat, a: string)
    requires Grouped(order, g) && a !in g
    ensures Of(Picks(order, g, cap, k), a) == []
  {
    PicksOf(order, g, cap, k, a);
  }

  lemma {:induction false} RoundsOfStranger(order: seq<string>, g: Groups, cap: nat, k: nat, a: string)
    requires Grouped(order, g) && a !in g
    ensures Of(Rounds(order, g, cap, k), a) == []
  {
    hide Of, Picks, Grouped, Quota;
    if k == 0 {
      NoRounds(order, g, cap, a);
    } else {
      RoundsOfStranger(order, g, cap, k - 1, a);
      StrangerPicksNothing(order, g, cap, k - 1, a);
      OfConcat(Rounds(order, g, cap, k - 1), Picks(order, g, cap, k - 1), a);
    }
  }

  lemma SelectedOfStranger(order: seq<string>, g: Groups, maximum: nat, cap: nat, a: string)
    requires Grouped(order, g) && a !in g
    ensures Of(Selected(order, g, maximum, cap), a) == []
  {
    var k, p := SelectionIsFairShare(order, g, maximum, cap);
    RoundsOfStranger(order, g, cap, k, a);
    assert a !in order[..p];
    PicksOf(order[..p], g, cap, k, a);
    OfConcat(Rounds(order, g, cap, k), Picks(order[..p], g, cap, k), a);
  }

  /** An agent that trails another by two or more has no candidates left. */
  lemma TrailingAgentIsExhausted(order: seq<string>, g: Groups, maximum: nat, cap: nat, a: string, b: string)
    requires Grouped(order, g) && a in g && b in g
    requires |Of(Selected(order, g, maximum, cap), b)| + 2 <= |Of(Selected(order, g, maximum, cap), a)|
    ensures |Of(Selected(order, g, maximum, cap), b)| == |g[b]|
  {
    hide Selected, Of, Grouped;
    var k, p := SelectionIsFairShare(order, g, maximum, cap);
  }

  lemma {:induction false} FirstRoundServesAll(order: seq<string>, g: Groups, cap: nat)
    requires forall a :: a in order ==> Quota(g, cap, a) > 0
    ensures |Picks(order, g, cap, 0)| == |order|
  {
    if order != [] { FirstRoundServesAll(order[1..], g, cap); }
  }

  lemma {:induction false} RoundsGrow(order: seq<string>, g: Groups, cap: nat, k: nat)
    requires k > 0
    ensures |Rounds(order, g, cap, k)| >= |Picks(order, g, cap, 0)|
  {
    if k > 1 { RoundsGrow(order, g, cap, k - 1); }
  }

  function Served(g: Groups, selected: seq<Assignment>): set<string> {
    set a | a in g && |Of(selected, a)| > 0
  }

  /** As many agents are served as the maximum allows. */
  lemma ServedAgentsCount(order: seq<string>, g: Groups, maximum: nat, cap: nat)
    requires Grouped(order, g) && cap > 0 && forall a :: a in g ==> |g[a]| > 0
    ensures |Served(g, Selected(order, g, maximum, cap))| == Min(maximum, |order|)
  {
    var s := Selected(order, g, maximum, cap);
    var k, p := SelectionIsFairShare(order, g, maximum, cap);
    var front := if k > 0 then order else order[..p];
    ServedIsFront(order, g, cap, k, p, s);
    assert Served(g, s) == Members(front);
    DistinctCount(front);
    FrontSize(order, g, maximum, cap, k, p);
  }

  lemma ServedIsFront(order: seq<string>, g: Groups, cap: nat, k: nat, p: nat, s: seq<Assignment>)
    requires Grouped(order, g) && cap > 0 && p <= |order| && forall a :: a in g ==> |g[a]| > 0
    requires forall a :: a in g ==> Of(s, a) == g[a][..Share(order, g, cap, k, p, a)]
    ensures forall a :: a in Served(g, s) <==> a in if k > 0 then order else order[..p]
  {
    hide Of;
    forall a ensures a in Served(g, s) <==> a in if k > 0 then order else order[..p] {
      assert a in order[..p] ==> a in order;
      if a in g { assert |Of(s, a)| == Share(order, g, cap, k, p, a); }
    }
  }

  lemma FrontSize(order: seq<string>, g: Groups, maximum: nat, cap: nat, k: nat, p: nat)
    requires Grouped(order, g) && cap > 0 && p <= |order| && forall a :: a in g ==> |g[a]| > 0
    requires |Rounds(order, g, cap, k) + Picks(order[..p], g, cap, k)| == Min(maximum, TotalQuota(order, g, cap, cap))
    ensures (if k > 0 then |order| else p) == Min(maximum, |order|)
  {
    assert forall a :: a in order ==> Quota(g, cap, a) > 0;
    FirstRoundServesAll(order, g, cap);
    FirstRoundServesAll(order[..p], g, cap);
    hide Grouped, Picks, Quota;
    RoundsGrow(order, g, cap, cap);
    RoundsSize(order, g, cap, cap);
    if k > 0 {
      RoundsGrow(order, g, cap, k);
    }
  }
}
