/** The plan accounts for every task exactly once. */
module PlanConservation {
  import opened Sequences
  import opened Model
  import opened Orders
  import opened Analysis
  import opened FairShare
  import opened Scheduling
  import opened Coordination

  function Map<T, U>(f: T -> U, s: seq<T>): (r: seq<U>)
    ensures |r| == |s| && forall i :: 0 <= i < |s| ==> r[i] == f(s[i])
  {
    if s == [] then [] else [f(s[0])] + Map(f, s[1..])
  }

  lemma MapConcat<T, U>(f: T -> U, s: seq<T>, t: seq<T>)
    ensures Map(f, s + t) == Map(f, s) + Map(f, t)
  {}

  lemma MapRemoveAt<T, U>(f: T -> U, t: seq<T>, i: nat)
    requires i < |t|
    ensures multiset(Map(f, t)) == multiset{f(t[i])} + multiset(Map(f, t[..i] + t[i + 1..]))
  {
    MapWithoutAt(f, t, i);
    hide Map;
    RemoveAt(Map(f, t), i);
  }

  lemma MapWithoutAt<T, U>(f: T -> U, t: seq<T>, i: nat)
    requires i < |t|
    ensures Map(f, t)[..i] + Map(f, t)[i + 1..] == Map(f, t[..i] + t[i + 1..])
  {
    hide Map;
    var m, u := Map(f, t), t[..i] + t[i + 1..];
    forall k | 0 <= k < |u| ensures (m[..i] + m[i + 1..])[k] == Map(f, u)[k] {
      assert u[k] == if k < i then t[k] else t[k + 1];
    }
  }

  lemma {:induction false} MapMultiset<T, U>(f: T -> U, s: seq<T>, t: seq<T>)
    requires multiset(s) == multiset(t)
    ensures multiset(Map(f, s)) == multiset(Map(f, t))
  {
    hide Map;
    if s == [] {
      assert |t| == |multiset(t)| == 0;
      assert Map(f, s) == Map(f, t);
    } else {
      assert s[0] in multiset(t);
      var i :| 0 <= i < |t| && t[i] == s[0];
      RemoveBoth(s, 0, t, i);
      MapMultiset(f, s[..0] + s[0 + 1..], t[..i] + t[i + 1..]);
      MapRemoveAt(f, s, 0);
      MapRemoveAt(f, t, i);
    }
  }

  function TaskKeys(ts: seq<TaskAnalysis>): seq<TaskKey> { Map((t: TaskAnalysis) => t.key, ts) }

  function AssignmentKeys(s: seq<Assignment>): seq<TaskKey> { Map((a: Assignment) => a.key, s) }

  function InterventionKeys(s: seq<Intervention>): seq<TaskKey> { Map((i: Intervention) => i.key, s) }

  function HeldKeys(s: seq<HeldTask>): seq<TaskKey> { Map((h: HeldTask) => h.key, s) }

  ghost function KeysOf(a: seq<Assignment>, i: seq<Intervention>, h: seq<HeldTask>): multiset<TaskKey> {
    multiset(AssignmentKeys(a)) + multiset(InterventionKeys(i)) + multiset(HeldKeys(h))
  }

  function ClassKey(c: Class): TaskKey {
    match c
    case Candidate(a) => a.key
    case Intervene(i) => i.key
    case Hold(h) => h.key
  }

  lemma ClassifyKeepsKey(t: TaskAnalysis, statuses: map<string, AgentStatus>)
    ensures ClassKey(Classify(t, statuses)) == t.key
  {}

  lemma AddCandidate(a: seq<Assignment>, i: seq<Intervention>, h: seq<HeldTask>, x: Assignment)
    ensures KeysOf(a + [x], i, h) == KeysOf(a, i, h) + multiset{x.key}
  {
    MapConcat((x: Assignment) => x.key, a, [x]);
    assert AssignmentKeys([x]) == [x.key];
  }

  lemma AddIntervention(a: seq<Assignment>, i: seq<Intervention>, h: seq<HeldTask>, x: Intervention)
    ensures KeysOf(a, i + [x], h) == KeysOf(a, i, h) + multiset{x.key}
  {
    MapConcat((x: Intervention) => x.key, i, [x]);
    assert InterventionKeys([x]) == [x.key];
  }

  lemma AddHold(a: seq<Assignment>, i: seq<Intervention>, h: seq<HeldTask>, x: HeldTask)
    ensures KeysOf(a, i, h + [x]) == KeysOf(a, i, h) + multiset{x.key}
  {
    MapConcat((x: HeldTask) => x.key, h, [x]);
    assert HeldKeys([x]) == [x.key];
  }

  lemma AddTask(ts: seq<TaskAnalysis>, t: TaskAnalysis)
    ensures multiset(TaskKeys(ts + [t])) == multiset(TaskKeys(ts)) + multiset{t.key}
  {
    MapConcat((x: TaskAnalysis) => x.key, ts, [t]);
    assert TaskKeys([t]) == [t.key];
  }

  lemma NoKeys()
    ensures KeysOf([], [], []) == multiset{} && TaskKeys([]) == []
  {}

  lemma {:induction false} ClassificationIsTotal(ts: seq<TaskAnalysis>, statuses: map<string, AgentStatus>)
    ensures var c := Classified(ts, statuses);
            KeysOf(c.candidates, c.interventions, c.held) == multiset(TaskKeys(ts))
  {
    NoKeys();
    hide Classify, KeysOf, TaskKeys;
    if ts == [] {
      assert Classified(ts, statuses) == Sorted3([], [], []);
    } else {
      var before, t := ts[..|ts| - 1], ts[|ts| - 1];
      ClassificationIsTotal(before, statuses);
      assert ts == before + [t];
      var r := Classified(before, statuses);
      AddTask(before, t);
      ClassifyKeepsKey(t, statuses);
      match Classify(t, statuses)
      case Candidate(a) => AddCandidate(r.candidates, r.interventions, r.held, a);
      case Intervene(i) => AddIntervention(r.candidates, r.interventions, r.held, i);
      case Hold(h) => AddHold(r.candidates, r.interventions, r.held, h);
    }
  }

  lemma {:induction false} SuppressKeepsKeys(s: seq<Assignment>)
    ensures HeldKeys(SuppressAll(s)) == AssignmentKeys(s)
  {
    if s != [] { SuppressKeepsKeys(s[1..]); }
  }

  lemma SelectionKeys(candidates: seq<Assignment>, selected: seq<Assignment>, suppressed: seq<Assignment>)
    requires multiset(selected) + multiset(suppressed) == multiset(candidates)
    ensures multiset(AssignmentKeys(selected)) + multiset(AssignmentKeys(suppressed)) == multiset(AssignmentKeys(candidates))
    ensures |selected| + |suppressed| == |candidates|
  {
    var f := (a: Assignment) => a.key;
    assert multiset(selected + suppressed) == multiset(candidates);
    assert |multiset(selected + suppressed)| == |multiset(candidates)|;
    MapMultiset(f, selected + suppressed, candidates);
    MapConcat(f, selected, suppressed);
  }

  lemma HeldDraftKeys(held: seq<HeldTask>, suppressed: seq<Assignment>)
    ensures var all := Sort(HoldLe, Sort(HoldLe, held) + SuppressAll(suppressed));
            && multiset(HeldKeys(all)) == multiset(HeldKeys(held)) + multiset(AssignmentKeys(suppressed))
            && |all| == |held| + |suppressed|
  {
    var f := (h: HeldTask) => h.key;
    var sorted := Sort(HoldLe, held);
    var joined := sorted + SuppressAll(suppressed);
    SortMultiset(HoldLe, held);
    SortMultiset(HoldLe, joined);
    MapMultiset(f, held, sorted);
    MapMultiset(f, joined, Sort(HoldLe, joined));
    MapConcat(f, sorted, SuppressAll(suppressed));
    SuppressKeepsKeys(suppressed);
  }

  /** Every task lands in exactly one of the three lists, before they are cut. */
  lemma DraftAccountsForEveryTask(ts: seq<TaskAnalysis>, statuses: map<string, AgentStatus>, policy: PlanningPolicy)
    ensures var d := DraftOf(ts, statuses, policy);
            KeysOf(d.assignments, d.interventions, d.held) == multiset(TaskKeys(ts))
  {
    var c := Classified(ts, statuses);
    var d := DraftOf(ts, statuses, policy);
    ClassificationIsTotal(ts, statuses);
    SortMultiset(AssignmentLe, c.candidates);
    MapMultiset((a: Assignment) => a.key, c.candidates, d.candidates);
    SelectionPartitionsCandidates(d.candidates, policy.maxAssignments, policy.maxPerAgent);
    SelectionKeys(d.candidates, d.assignments, d.suppressed);
    SortMultiset(InterventionLe, c.interventions);
    MapMultiset((i: Intervention) => i.key, c.interventions, d.interventions);
    HeldDraftKeys(c.held, d.suppressed);
  }

  lemma KeysOfSize(a: seq<Assignment>, i: seq<Intervention>, h: seq<HeldTask>)
    ensures |KeysOf(a, i, h)| == |a| + |i| + |h|
  {}

  /** Total tasks = assignments + interventions shown and omitted + holds shown and omitted;
      candidates = assignments + suppressed. */
  lemma PlanConservesTasks(ts: seq<TaskAnalysis>, statuses: map<string, AgentStatus>, policy: PlanningPolicy)
    ensures var s := PlanOf(ts, statuses, policy).summary;
            && s.totalTasks == s.assignments + s.interventions + s.omittedInterventions + s.heldTasks + s.omittedHolds
            && s.candidates == s.assignments + s.suppressed
            && s.assignments <= policy.maxAssignments && s.interventions <= policy.maxInterventions
            && s.heldTasks <= policy.maxHolds
  {
    var c := Classified(ts, statuses);
    var d := DraftOf(ts, statuses, policy);
    DraftAccountsForEveryTask(ts, statuses, policy);
    KeysOfSize(d.assignments, d.interventions, d.held);
    assert |multiset(TaskKeys(ts))| == |ts|;
    SelectionPartitionsCandidates(d.candidates, policy.maxAssignments, policy.maxPerAgent);
    SelectionKeys(d.candidates, d.assignments, d.suppressed);
  }
}
