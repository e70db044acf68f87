/** The lists of a plan: their order, what the limits leave out, and the ids they cite. */
module PlanLists {
  import opened Sequences
  import opened Model
  import opened Orders
  import opened Recency
  import opened StoreTasks
  import opened Analysis
  import opened FairShare
  import opened Scheduling
  import opened Coordination
  import opened Planning

  // ---------- order ----------

  lemma InterventionLeIsPreorder()
    ensures TotalPreorder(InterventionLe)
  {
    KeyLeTotalOrder();
    forall x, y ensures InterventionLe(x, y) || InterventionLe(y, x) {
      StrLeTotal(x.interventionId, y.interventionId);
    }
    forall x, y, z | InterventionLe(x, y) && InterventionLe(y, z) ensures InterventionLe(x, z) {
      InterventionLeTransitive(x, y, z);
    }
  }

  lemma InterventionLeTransitive(x: Intervention, y: Intervention, z: Intervention)
    requires InterventionLe(x, y) && InterventionLe(y, z)
    ensures InterventionLe(x, z)
  {
    KeyLeTotalOrder();
    if x.priority == y.priority == z.priority {
      if x.key == y.key == z.key {
        StrLeTransitive(x.interventionId, y.interventionId, z.interventionId);
      } else {
        assert KeyLe(x.key, y.key) && KeyLe(y.key, z.key);
        KeyLeTransitive(x.key, y.key, z.key);
      }
    }
  }

  lemma HoldLeIsPreorder()
    ensures TotalPreorder(HoldLe)
  {
    KeyLeTotalOrder();
    forall x, y ensures HoldLe(x, y) || HoldLe(y, x) {}
    forall x, y, z | HoldLe(x, y) && HoldLe(y, z) ensures HoldLe(x, z) {
      if x.key != z.key { KeyLeTransitive(x.key, y.key, z.key); }
    }
  }

  lemma KeyOrder(x: TaskKey, y: TaskKey)
    requires KeyLe(x, y)
    ensures StrLe(x.agent, y.agent) && (x.agent == y.agent ==> StrLe(x.task, y.task))
  {
    StrLeTotal(x.agent, x.agent);
  }

  /** Interventions by priority, ties by agent and task. */
  lemma InterventionsAreRanked(ts: seq<TaskAnalysis>, statuses: map<string, AgentStatus>, policy: PlanningPolicy, i: nat, j: nat)
    requires i < j < |DraftOf(ts, statuses, policy).interventions|
    ensures var x, y := DraftOf(ts, statuses, policy).interventions[i], DraftOf(ts, statuses, policy).interventions[j];
            && x.priority >= y.priority
            && (x.priority == y.priority ==> StrLe(x.key.agent, y.key.agent))
            && (x.priority == y.priority && x.key.agent == y.key.agent ==> StrLe(x.key.task, y.key.task))
  {
    var s := Classified(ts, statuses).interventions;
    hide Classified, Selected, Suppressed, Sort, TotalPreorder;
    InterventionLeIsPreorder();
    SortSorted(InterventionLe, s);
    var x, y := Sort(InterventionLe, s)[i], Sort(InterventionLe, s)[j];
    assert InterventionLe(x, y);
    StrLeTotal(x.key.agent, x.key.agent);
    StrLeTotal(x.key.task, x.key.task);
    if x.priority == y.priority && x.key != y.key { KeyOrder(x.key, y.key); }
  }

  /** Holds by agent and task. */
  lemma HoldsAreOrdered(ts: seq<TaskAnalysis>, statuses: map<string, AgentStatus>, policy: PlanningPolicy, i: nat, j: nat)
    requires i < j < |DraftOf(ts, statuses, policy).held|
    ensures var x, y := DraftOf(ts, statuses, policy).held[i], DraftOf(ts, statuses, policy).held[j];
            StrLe(x.key.agent, y.key.agent) && (x.key.agent == y.key.agent ==> StrLe(x.key.task, y.key.task))
  {
    var c, d := Classified(ts, statuses), DraftOf(ts, statuses, policy);
    var s := Sort(HoldLe, c.held) + SuppressAll(d.suppressed);
    hide Classified, Selected, Suppressed, Sort, TotalPreorder, SuppressAll;
    HoldLeIsPreorder();
    SortSorted(HoldLe, s);
    var x, y := Sort(HoldLe, s)[i], Sort(HoldLe, s)[j];
    assert HoldLe(x, y);
    StrLeTotal(x.key.agent, x.key.agent);
    StrLeTotal(x.key.task, x.key.task);
    if x.key != y.key { KeyOrder(x.key, y.key); }
  }

  /** The plan shows the assignments as selected and the first interventions and holds. */
  lemma PlanShowsTheFirst(ts: seq<TaskAnalysis>, statuses: map<string, AgentStatus>, policy: PlanningPolicy)
    ensures var d, p := DraftOf(ts, statuses, policy), PlanOf(ts, statuses, policy);
            && p.assignments == d.assignments
            && p.interventions == d.interventions[..Min(policy.maxInterventions, |d.interventions|)]
            && p.held == d.held[..Min(policy.maxHolds, |d.held|)]
  {
    var d := DraftOf(ts, statuses, policy);
    hide DraftOf, Take;
    TakeIsPrefix(d.interventions, policy.maxInterventions);
    TakeIsPrefix(d.held, policy.maxHolds);
    assert d.interventions[..|d.interventions|] == d.interventions && d.held[..|d.held|] == d.held;
  }

  // ---------- cited events ----------

  lemma {:induction false} AboutMeans(rs: seq<EventRecord>, k: TaskKey)
    ensures forall r :: r in About(rs, k) <==> r in rs && IsAbout(r, k)
  {
    if rs != [] { AboutMeans(rs[1..], k); }
  }

  /** A task's own events are those that name it in the store, and lessons that cite it. */
  lemma AboutIsNamed(r: EventRecord, k: TaskKey)
    ensures IsAbout(r, k) <==>
              || EventKey(r.event) == Some(ScopedId(k.agent, k.task))
              || (r.event.event.LessonLearned? && r.event.agent.agentId == k.agent && r.event.event.lesson.sourceTaskId == Some(k.task))
  {}

  lemma {:induction false} ReverseIndex<T>(s: seq<T>)
    ensures |Reverse(s)| == |s| && multiset(Reverse(s)) == multiset(s)
    ensures forall i :: 0 <= i < |s| ==> Reverse(s)[i] == s[|s| - 1 - i]
  {
    if s != [] {
      ReverseIndex(s[1..]);
      assert s == [s[0]] + s[1..];
    }
  }

  lemma OldestFirstIsPreorder()
    ensures TotalPreorder(OldestFirst)
  {}

  /** `x` happened after `y`, or at the same instant with a greater id, or is the same event. */
  predicate NotOlder(x: EventRecord, y: EventRecord) {
    x.event.occurredAt > y.event.occurredAt
    || (x.event.occurredAt == y.event.occurredAt && x.event.eventId >= y.event.eventId)
  }

  /** The cited events are the twelve newest retained ones about the task, newest first. */
  lemma SourcesAreTheNewest(rs: seq<EventRecord>, k: TaskKey) returns (l: seq<EventRecord>)
    ensures multiset(l) == multiset(About(rs, k)) && forall r :: r in l <==> r in rs && IsAbout(r, k)
    ensures forall i, j :: 0 <= i < j < |l| ==> NotOlder(l[i], l[j])
    ensures |NewestIds(rs, k)| == Min(12, |l|)
    ensures forall i :: 0 <= i < |NewestIds(rs, k)| ==> NewestIds(rs, k)[i] == l[i].event.eventId
  {
    var about := About(rs, k);
    var sorted := Sort(OldestFirst, about);
    l := Reverse(sorted);
    hide About, Sort, Reverse, TotalPreorder, Take;
    OldestFirstIsPreorder();
    SortSorted(OldestFirst, about);
    SortMultiset(OldestFirst, about);
    ReverseIndex(sorted);
    TakeIsPrefix(l, 12);
    AboutMeans(rs, k);
    SameMembers(about, l);
    forall i, j | 0 <= i < j < |l| ensures NotOlder(l[i], l[j]) {
      assert OldestFirst(sorted[|sorted| - 1 - j], sorted[|sorted| - 1 - i]);
    }
  }

  lemma NatLeIsTotalOrder()
    ensures TotalOrder(NatLe)
  {}

  /** An entry cites exactly its task's source events, in id order. */
  lemma CitedEvents(a: TaskAnalysis)
    requires |a.sourceEventIds| <= 16
    ensures forall id: nat :: id in SourceIds(a) <==> id in a.sourceEventIds
    ensures forall i, j :: 0 <= i < j < |SourceIds(a)| ==> SourceIds(a)[i] <= SourceIds(a)[j]
  {
    NatLeIsTotalOrder();
    var ids := set id: nat | id in a.sourceEventIds;
    var l := Ascending(NatLe, ids);
    FewIds(a.sourceEventIds, ids);
    TakeIsPrefix(l, 16);
    assert |l| <= 16;
    assert SourceIds(a) == l;
    hide TotalOrder, Take, SourceIds;
    forall i, j | 0 <= i < j < |l| ensures l[i] <= l[j] { assert NatLe(l[i], l[j]); }
  }

  lemma FewIds(s: seq<Uuid>, ids: set<nat>)
    requires forall id: nat :: id in ids ==> id in s
    ensures |ids| <= |s|
  {
    TooFew(s, ids);
  }

  lemma {:induction false} NamesMean(fs: seq<Finding>, k: TaskKey, id: string)
    ensures id in Names(fs, k) <==> exists rule :: Has(fs, rule) && id == ScopedName(RuleName(rule), k)
  {
    if fs != [] {
      NamesMean(fs[1..], k, id);
      assert Has(fs, fs[0].rule);
    }
  }

  /** An entry names exactly the diagnostics of its task. */
  lemma CitedDiagnostics(a: TaskAnalysis, id: string)
    ensures id in DiagnosticIds(a) <==> exists rule :: Has(a.findings, rule) && id == ScopedName(RuleName(rule), a.key)
  {
    NamesMean(a.findings, a.key, id);
    var names := Names(a.findings, a.key);
    SortMultiset(StrLe, names);
    SameMembers(names, Sort(StrLe, names));
    hide Sort, Names, Has;
  }
}
