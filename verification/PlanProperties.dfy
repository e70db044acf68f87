/** The plan does not depend on the order of the snapshot, never assigns a task before its
    dependencies, and reconciles exactly the contested completions. */
module PlanProperties {
  import opened Sequences
  import opened Model
  import opened Orders
  import opened DependencyGraph
  import opened Analysis
  import opened FairShare
  import opened Scheduling
  import opened Coordination
  import opened Planning

  // ---------- independence of the snapshot's order ----------

  /** The same snapshot with its lists rearranged. */
  ghost predicate Rearranged(x: Input, y: Input) {
    && x.now == y.now
    && multiset(x.agents) == multiset(y.agents) && multiset(x.goals) == multiset(y.goals)
    && multiset(x.tasks) == multiset(y.tasks) && multiset(x.events) == multiset(y.events)
  }

  lemma LookupIgnoresOrder(s: seq<TaskState>, t: seq<TaskState>)
    requires UniqueTasks(s) && UniqueTasks(t) && multiset(s) == multiset(t)
    ensures LookupOf(s) == LookupOf(t)
  {
    var l, m := LookupOf(s), LookupOf(t);
    SameMembers(s, t);
    forall k
      ensures k in l <==> k in m
      ensures k in l && k in m ==> l[k] == m[k]
    {
      LookupIsExact(s, k);
      LookupIsExact(t, k);
    }
    assert l.Keys == m.Keys;
  }

  lemma StatusesIgnoreOrder(s: seq<AgentState>, t: seq<AgentState>)
    requires UniqueAgents(s) && UniqueAgents(t) && multiset(s) == multiset(t)
    ensures StatusesOf(s) == StatusesOf(t)
  {
    var l, m := StatusesOf(s), StatusesOf(t);
    SameMembers(s, t);
    forall a
      ensures a in l <==> a in m
      ensures a in l && a in m ==> l[a] == m[a]
    {
      StatusesAreExact(s, a);
      StatusesAreExact(t, a);
    }
    assert l.Keys == m.Keys;
  }

  lemma GoalsIgnoreOrder(s: seq<GoalState>, t: seq<GoalState>)
    requires multiset(s) == multiset(t)
    ensures GoalsOf(s) == GoalsOf(t)
  {
    SameMembers(s, t);
  }

  lemma {:induction false} AboutCounts(rs: seq<EventRecord>, k: TaskKey, x: EventRecord)
    ensures multiset(About(rs, k))[x] == if IsAbout(x, k) then multiset(rs)[x] else 0
  {
    if rs != [] {
      AboutCounts(rs[1..], k, x);
      assert rs == [rs[0]] + rs[1..];
    }
  }

  lemma AboutIgnoresOrder(s: seq<EventRecord>, t: seq<EventRecord>, k: TaskKey)
    requires multiset(s) == multiset(t)
    ensures multiset(About(s, k)) == multiset(About(t, k))
  {
    forall x ensures multiset(About(s, k))[x] == multiset(About(t, k))[x] {
      AboutCounts(s, k, x);
      AboutCounts(t, k, x);
    }
  }

  lemma OldestFirstIsPreorder()
    ensures TotalPreorder(OldestFirst)
  {}

  lemma AboutIsUnique(rs: seq<EventRecord>, k: TaskKey)
    requires UniqueEvents(rs)
    ensures forall x, y :: x in About(rs, k) && y in About(rs, k) && x.event.eventId == y.event.eventId ==> x == y
  {
    forall x, y | x in About(rs, k) && y in About(rs, k) && x.event.eventId == y.event.eventId
      ensures x == y
    {
      AboutCounts(rs, k, x);
      AboutCounts(rs, k, y);
      assert x in multiset(rs) && y in multiset(rs);
      var i :| 0 <= i < |rs| && rs[i] == x;
      var j :| 0 <= j < |rs| && rs[j] == y;
    }
  }

  lemma NewestIdsIgnoreOrder(s: seq<EventRecord>, t: seq<EventRecord>, k: TaskKey)
    requires UniqueEvents(s) && multiset(s) == multiset(t)
    ensures NewestIds(s, k) == NewestIds(t, k)
  {
    AboutIgnoresOrder(s, t, k);
    AboutIsUnique(s, k);
    OldestFirstIsPreorder();
    assert forall x, y :: OldestFirst(x, y) && OldestFirst(y, x) ==> x.event.eventId == y.event.eventId;
    hide About, OldestFirst, TotalPreorder, UniqueEvents;
    SortCanonical(OldestFirst, About(s, k), About(t, k));
  }

  lemma TaskLeIsPreorder()
    ensures TotalPreorder(TaskLe)
    ensures forall x, y :: TaskLe(x, y) && TaskLe(y, x) ==> KeyOf(x) == KeyOf(y)
  {
    KeyLeTotalOrder();
    assert forall x, y :: TaskLe(x, y) || TaskLe(y, x);
    assert Transitive(TaskLe);
  }

  lemma UniqueTasksDiffer(s: seq<TaskState>)
    requires UniqueTasks(s)
    ensures forall x, y :: x in s && y in s && KeyOf(x) == KeyOf(y) ==> x == y
  {}

  lemma TaskOrderIgnoresOrder(s: seq<TaskState>, t: seq<TaskState>)
    requires UniqueTasks(s) && multiset(s) == multiset(t)
    ensures Sort(TaskLe, s) == Sort(TaskLe, t)
  {
    TaskLeIsPreorder();
    UniqueTasksDiffer(s);
    hide TaskLe, TotalPreorder, UniqueTasks;
    SortCanonical(TaskLe, s, t);
  }

  lemma AnalysesIgnoreOrder(x: Input, y: Input, policy: Policy)
    requires Rearranged(x, y) && Unique(x) && Unique(y)
    ensures Analyses(x, policy) == Analyses(y, policy)
  {
    LookupIgnoresOrder(x.tasks, y.tasks);
    GoalsIgnoreOrder(x.goals, y.goals);
    TaskOrderIgnoresOrder(x.tasks, y.tasks);
    var l := LookupOf(x.tasks);
    forall k | k in l ensures NewestIds(x.events, k) == NewestIds(y.events, k) {
      NewestIdsIgnoreOrder(x.events, y.events, k);
    }
    hide NewestIds, LookupOf, GoalsOf, ContextOf, Sort, Analyze, Unique, UniqueTasks, UniqueEvents;
    assert SourcesOf(l, x.events) == SourcesOf(l, y.events);
  }

  lemma RearrangedIsUnique(x: Input, y: Input)
    requires Rearranged(x, y) && Unique(x)
    ensures Unique(y)
  {
    UniqueKeysIgnoreOrder((t: TaskState) => KeyOf(t), x.tasks, y.tasks);
    UniqueKeysIgnoreOrder((a: AgentState) => a.agent.agentId, x.agents, y.agents);
    UniqueKeysIgnoreOrder((e: EventRecord) => e.event.eventId, x.events, y.events);
  }

  /** The plan is invariant under any rearrangement of the snapshot's tasks, agents, goals
      and events, given the key uniqueness the store guarantees. */
  lemma PlanIgnoresSnapshotOrder(x: Input, y: Input, policy: Policy, planning: PlanningPolicy)
    requires Rearranged(x, y) && Unique(x)
    ensures BuildPlan(x, policy, planning) == BuildPlan(y, policy, planning)
  {
    hide Analyses, StatusesOf;
    RearrangedIsUnique(x, y);
    AnalysesIgnoreOrder(x, y, policy);
    StatusesIgnoreOrder(x.agents, y.agents);
  }

  // ---------- where the plan's entries come from ----------

  lemma {:induction false} ClassifiedOrigins(ts: seq<TaskAnalysis>, statuses: map<string, AgentStatus>)
    ensures var c := Classified(ts, statuses);
            && (forall x :: x in c.candidates <==> exists t :: t in ts && Classify(t, statuses) == Candidate(x))
            && (forall x :: x in c.interventions <==> exists t :: t in ts && Classify(t, statuses) == Intervene(x))
            && (forall x :: x in c.held <==> exists t :: t in ts && Classify(t, statuses) == Hold(x))
  {
    hide Classify;
    if ts != [] {
      var before, last := ts[..|ts| - 1], ts[|ts| - 1];
      ClassifiedOrigins(before, statuses);
      assert ts == before + [last];
      assert last in ts && forall t :: t in ts <==> t in before || t == last;
    }
  }

  lemma CandidatesSplit(ts: seq<TaskAnalysis>, statuses: map<string, AgentStatus>, planning: PlanningPolicy, x: Assignment)
    ensures var d := DraftOf(ts, statuses, planning);
            x in d.assignments || x in d.suppressed <==> x in Classified(ts, statuses).candidates
  {
    var c := Classified(ts, statuses).candidates;
    var d := DraftOf(ts, statuses, planning);
    SelectionPartitionsCandidates(d.candidates, planning.maxAssignments, planning.maxPerAgent);
    SortMultiset(AssignmentLe, c);
    SameMembers(c, d.candidates);
    assert x in multiset(d.assignments) + multiset(d.suppressed) <==> x in multiset(d.candidates);
  }

  lemma {:induction false} SuppressedOrigins(s: seq<Assignment>, h: HeldTask)
    requires h in SuppressAll(s)
    ensures exists x :: x in s && h == Suppress(x)
  {
    if h != Suppress(s[0]) {
      assert h in SuppressAll(s[1..]);
      SuppressedOrigins(s[1..], h);
    }
  }

  lemma HeldOrigins(ts: seq<TaskAnalysis>, statuses: map<string, AgentStatus>, planning: PlanningPolicy, h: HeldTask)
    requires h in DraftOf(ts, statuses, planning).held
    ensures h in Classified(ts, statuses).held
            || exists x :: x in DraftOf(ts, statuses, planning).suppressed && h == Suppress(x)
  {
    var held, d := Classified(ts, statuses).held, DraftOf(ts, statuses, planning);
    hide Classified, Selected, Suppressed, AgentOrder, Group, Sort;
    SortMultiset(HoldLe, held);
    SameMembers(held, Sort(HoldLe, held));
    var joined := Sort(HoldLe, held) + SuppressAll(d.suppressed);
    SortMultiset(HoldLe, joined);
    SameMembers(joined, Sort(HoldLe, joined));
    if h in SuppressAll(d.suppressed) { SuppressedOrigins(d.suppressed, h); }
  }

  /** An analysis in the plan's input is the analysis of a retained task. */
  lemma AnalysisOrigins(input: Input, policy: Policy, t: TaskAnalysis) returns (task: TaskState)
    requires UniqueTasks(input.tasks) && t in Analyses(input, policy)
    ensures task in input.tasks && t == Analyze(ContextFor(input, policy), task)
    ensures KeyOf(task) in LookupOf(input.tasks) && LookupOf(input.tasks)[KeyOf(task)] == task
  {
    hide Sort, Analyze, LookupOf, UniqueTasks;
    var sorted := Sort(TaskLe, input.tasks);
    var i :| 0 <= i < |sorted| && t == Analyses(input, policy)[i];
    task := sorted[i];
    SortMultiset(TaskLe, input.tasks);
    SameMembers(input.tasks, sorted);
    assert task in sorted;
    LookupIsExact(input.tasks, KeyOf(task));
  }

  // ---------- dependency safety ----------

  /** Every dependency of the task is a retained, succeeded task of the same agent. */
  ghost predicate DependenciesDone(l: TaskLookup, k: TaskKey) {
    k in l && forall d :: d in l[k].task.dependsOn ==> TaskKey(k.agent, d) in l && l[TaskKey(k.agent, d)].status.Succeeded?
  }

  ghost predicate DependenciesRetained(l: TaskLookup, k: TaskKey) {
    k in l && forall d :: d in l[k].task.dependsOn ==> TaskKey(k.agent, d) in l
  }

  lemma CandidateFacts(t: TaskAnalysis, statuses: map<string, AgentStatus>, x: Assignment)
    requires Classify(t, statuses) == Candidate(x)
    ensures x.key == t.key && t.missing == [] && t.unresolved == []
    ensures t.key.agent in statuses ==> !statuses[t.key.agent].Offline?
  {}

  lemma AnalyzeFacts(c: Context, task: TaskState)
    ensures var t, ds := Analyze(c, task), task.task.dependsOn;
            && t.key == KeyOf(task) && t.findings == Findings(c, task)
            && (t.missing == [] <==> MissingOf(c.lookup, task.agentId, ds) == [])
            && (t.unresolved == [] <==> UnresolvedOf(c.lookup, task.agentId, ds) == [])
  {
    hide Findings;
    SortMultiset(StrLe, UnresolvedOf(c.lookup, task.agentId, task.task.dependsOn));
    SortMultiset(StrLe, MissingOf(c.lookup, task.agentId, task.task.dependsOn));
  }

  lemma NothingMissing(l: TaskLookup, agent: string, ds: seq<string>)
    requires MissingOf(l, agent, ds) == []
    ensures forall d :: d in ds ==> TaskKey(agent, d) in l
  {}

  lemma NothingUnresolved(l: TaskLookup, agent: string, ds: seq<string>)
    requires MissingOf(l, agent, ds) == [] && UnresolvedOf(l, agent, ds) == []
    ensures forall d :: d in ds ==> TaskKey(agent, d) in l && l[TaskKey(agent, d)].status.Succeeded?
  {}

  lemma CandidateIsSafe(input: Input, policy: Policy, x: Assignment)
    requires UniqueTasks(input.tasks)
    requires x in Classified(Analyses(input, policy), StatusesOf(input.agents)).candidates
    ensures DependenciesDone(LookupOf(input.tasks), x.key)
    ensures x.key.agent in StatusesOf(input.agents) ==> !StatusesOf(input.agents)[x.key.agent].Offline?
  {
    hide Classified, LookupOf, StatusesOf, Analyses, Analyze, Classify, UniqueTasks, DependenciesDone;
    var ts, statuses, c := Analyses(input, policy), StatusesOf(input.agents), ContextFor(input, policy);
    ClassifiedOrigins(ts, statuses);
    var t :| t in ts && Classify(t, statuses) == Candidate(x);
    var task := AnalysisOrigins(input, policy, t);
    CandidateFacts(t, statuses, x);
    AnalyzedDependenciesDone(c, task);
  }

  lemma AnalyzedDependenciesDone(c: Context, task: TaskState)
    requires KeyOf(task) in c.lookup && c.lookup[KeyOf(task)] == task
    requires Analyze(c, task).missing == [] && Analyze(c, task).unresolved == []
    ensures Analyze(c, task).key == KeyOf(task) && DependenciesDone(c.lookup, KeyOf(task))
  {
    AnalyzeFacts(c, task);
    hide Analyze, Findings;
    NothingUnresolved(c.lookup, task.agentId, task.task.dependsOn);
  }

  /** Assigned tasks have all their dependencies retained and succeeded, and their agent is
      not offline. */
  lemma AssignmentsAreDependencySafe(input: Input, policy: Policy, planning: PlanningPolicy, x: Assignment)
    requires UniqueTasks(input.tasks)
    ensures var plan, statuses := BuildPlan(input, policy, planning), StatusesOf(input.agents);
            plan.Some? && x in plan.value.assignments ==>
              && DependenciesDone(LookupOf(input.tasks), x.key)
              && (x.key.agent in statuses ==> !statuses[x.key.agent].Offline?)
  {
    hide DraftOf, Classified, Analyses, StatusesOf, LookupOf, UniqueTasks, DependenciesDone;
    var plan := BuildPlan(input, policy, planning);
    if plan.Some? && x in plan.value.assignments {
      CandidatesSplit(Analyses(input, policy), StatusesOf(input.agents), planning, x);
      CandidateIsSafe(input, policy, x);
    }
  }

  lemma HoldFacts(t: TaskAnalysis, statuses: map<string, AgentStatus>, h: HeldTask)
    requires Classify(t, statuses) == Hold(h)
    ensures h.key == t.key && !Has(t.findings, OrphanDependency)
  {}

  lemma ClassifiedHoldIsRetained(input: Input, policy: Policy, h: HeldTask)
    requires UniqueTasks(input.tasks)
    requires h in Classified(Analyses(input, policy), StatusesOf(input.agents)).held
    ensures DependenciesRetained(LookupOf(input.tasks), h.key)
  {
    hide Classified, LookupOf, StatusesOf, Analyses, Analyze, Classify, UniqueTasks, Findings, Has;
    var ts, statuses, c := Analyses(input, policy), StatusesOf(input.agents), ContextFor(input, policy);
    ClassifiedOrigins(ts, statuses);
    var t :| t in ts && Classify(t, statuses) == Hold(h);
    var task := AnalysisOrigins(input, policy, t);
    HoldFacts(t, statuses, h);
    AnalyzeFacts(c, task);
    FindingsAreExact(c, task);
    NothingMissing(c.lookup, task.agentId, task.task.dependsOn);
  }

  /** No held task misses a dependency: those are routed to intervention. */
  lemma HeldTasksMissNoDependency(input: Input, policy: Policy, planning: PlanningPolicy, h: HeldTask)
    requires UniqueTasks(input.tasks)
    ensures h in DraftOf(Analyses(input, policy), StatusesOf(input.agents), planning).held
            ==> DependenciesRetained(LookupOf(input.tasks), h.key)
  {
    hide DraftOf, Classified, Analyses, StatusesOf, LookupOf, UniqueTasks;
    var ts, statuses := Analyses(input, policy), StatusesOf(input.agents);
    if h in DraftOf(ts, statuses, planning).held {
      HeldOrigins(ts, statuses, planning, h);
      if h in Classified(ts, statuses).held {
        ClassifiedHoldIsRetained(input, policy, h);
      } else {
        var x :| x in DraftOf(ts, statuses, planning).suppressed && h == Suppress(x);
        CandidatesSplit(ts, statuses, planning, x);
        CandidateIsSafe(input, policy, x);
      }
    }
  }

  // ---------- interventions ----------

  lemma ReconcileFacts(t: TaskAnalysis, statuses: map<string, AgentStatus>)
    ensures Has(t.findings, CompletionMismatch) <==>
              Classify(t, statuses).Intervene? && Classify(t, statuses).intervention.kind == ReconcileCompletion
    ensures Classify(t, statuses).Intervene? ==> Classify(t, statuses).intervention.key == t.key
  {}

  lemma ReconciledIsMismatched(input: Input, policy: Policy, i: Intervention)
    requires UniqueTasks(input.tasks) && i.kind == ReconcileCompletion
    requires i in Classified(Analyses(input, policy), StatusesOf(input.agents)).interventions
    ensures i.key in LookupOf(input.tasks) && Mismatched(LookupOf(input.tasks)[i.key])
  {
    hide Classified, LookupOf, StatusesOf, Analyses, Analyze, Classify, UniqueTasks, Findings, Has, Mismatched;
    var ts, statuses, c := Analyses(input, policy), StatusesOf(input.agents), ContextFor(input, policy);
    ClassifiedOrigins(ts, statuses);
    var t :| t in ts && Classify(t, statuses) == Intervene(i);
    var task := AnalysisOrigins(input, policy, t);
    ReconcileFacts(t, statuses);
    AnalyzeFacts(c, task);
    FindingsAreExact(c, task);
  }

  lemma MismatchedIsReconciled(input: Input, policy: Policy, k: TaskKey) returns (i: Intervention)
    requires UniqueTasks(input.tasks) && k in LookupOf(input.tasks) && Mismatched(LookupOf(input.tasks)[k])
    ensures i in Classified(Analyses(input, policy), StatusesOf(input.agents)).interventions
    ensures i.key == k && i.kind == ReconcileCompletion
  {
    hide Classified, LookupOf, StatusesOf, Analyses, Analyze, Classify, UniqueTasks, Findings, Has, Mismatched;
    var ts, statuses, c := Analyses(input, policy), StatusesOf(input.agents), ContextFor(input, policy);
    var task := LookupOf(input.tasks)[k];
    LookupIsExact(input.tasks, k);
    var t := AnalysisOf(input, policy, task);
    AnalyzeFacts(c, task);
    FindingsAreExact(c, task);
    ReconcileFacts(t, statuses);
    i := Classify(t, statuses).intervention;
    ClassifiedOrigins(ts, statuses);
  }

  lemma InterventionsAreClassified(ts: seq<TaskAnalysis>, statuses: map<string, AgentStatus>, planning: PlanningPolicy)
    ensures forall i :: i in DraftOf(ts, statuses, planning).interventions <==> i in Classified(ts, statuses).interventions
  {
    var found := Classified(ts, statuses).interventions;
    SortMultiset(InterventionLe, found);
    SameMembers(found, Sort(InterventionLe, found));
  }

  /** A task is sent to reconciliation exactly when status, outcome and progress
      contradict each other. */
  lemma ReconcilesExactlyMismatches(input: Input, policy: Policy, planning: PlanningPolicy, k: TaskKey)
    requires UniqueTasks(input.tasks)
    ensures (exists i :: i in DraftOf(Analyses(input, policy), StatusesOf(input.agents), planning).interventions
                         && i.key == k && i.kind == ReconcileCompletion)
            <==> k in LookupOf(input.tasks) && Mismatched(LookupOf(input.tasks)[k])
  {
    hide Classified, LookupOf, StatusesOf, Analyses, DraftOf, UniqueTasks, Mismatched;
    var ts, statuses := Analyses(input, policy), StatusesOf(input.agents);
    InterventionsAreClassified(ts, statuses, planning);
    if i :| i in Classified(ts, statuses).interventions && i.key == k && i.kind == ReconcileCompletion {
      ReconciledIsMismatched(input, policy, i);
    }
    if k in LookupOf(input.tasks) && Mismatched(LookupOf(input.tasks)[k]) {
      var i := MismatchedIsReconciled(input, policy, k);
    }
  }

  lemma AnalysisOf(input: Input, policy: Policy, task: TaskState) returns (t: TaskAnalysis)
    requires task in input.tasks
    ensures t == Analyze(ContextFor(input, policy), task) && t in Analyses(input, policy)
  {
    var sorted := Sort(TaskLe, input.tasks);
    SortMultiset(TaskLe, input.tasks);
    SameMembers(input.tasks, sorted);
    var i :| 0 <= i < |sorted| && sorted[i] == task;
    t := Analyses(input, policy)[i];
  }
}
