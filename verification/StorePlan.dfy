/** Plans of the store's own snapshots. */
module StorePlan {
  import opened Model
  import opened Orders
  import opened StoreSpec
  import opened StoreInvariants
  import opened StoreTasks
  import opened StoreCounters
  import opened Store
  import opened Analysis
  import opened Coordination
  import opened Planning
  import opened PlanProperties

  /** What the planner reads of a snapshot. */
  function InputOf(s: State, now: Time): (r: Input)
    requires Structure(s)
    ensures forall startedAt ::
              var snapshot := SnapshotOf(s, startedAt, now);
              r == Input(snapshot.generatedAt, snapshot.agents, snapshot.goals, snapshot.tasks, snapshot.recentEvents)
  {
    Input(now, Values(s.agents), Values(s.goals), Values(s.tasks), RecentEvents(s))
  }

  lemma SnapshotTasksAreUnique(s: State)
    requires Structure(s)
    ensures UniqueTasks(Values(s.tasks))
  {}

  lemma SnapshotAgentsAreUnique(s: State)
    requires Structure(s)
    ensures UniqueAgents(Values(s.agents))
  {}

  lemma SnapshotEventsAreUnique(s: State)
    requires Structure(s)
    ensures UniqueEvents(RecentEvents(s))
  {}

  /** The store guarantees the key uniqueness on which order independence rests. */
  lemma SnapshotsAreUnique(s: State, now: Time)
    requires Structure(s)
    ensures Unique(InputOf(s, now))
  {
    SnapshotTasksAreUnique(s);
    SnapshotAgentsAreUnique(s);
    SnapshotEventsAreUnique(s);
  }

  /** The planner's index of a snapshot is the store's task cache. */
  lemma LookupIsTheCache(s: State, k: TaskKey)
    requires Structure(s)
    ensures var l, id := LookupOf(Values(s.tasks)), ScopedId(k.agent, k.task);
            (k in l <==> id in s.tasks.data) && (k in l ==> l[k] == s.tasks.data[id])
  {
    var c, id := s.tasks, ScopedId(k.agent, k.task);
    SnapshotTasksAreUnique(s);
    LookupIsExact(Values(c), k);
    hide LookupOf;
    if id in c.data {
      var i :| 0 <= i < |c.order| && c.order[i] == id;
      assert Values(c)[i] == c.data[id] && Values(c)[i] in Values(c);
    }
    if k in LookupOf(Values(c)) {
      var t := LookupOf(Values(c))[k];
      var i :| 0 <= i < |c.order| && Values(c)[i] == t;
      assert c.order[i] in c.order;
    }
  }

  lemma MismatchMeansContested(t: TaskState)
    requires Shape(t)
    ensures Mismatched(t) <==> Contested(t)
  {}

  /** Over every run: a task is sent to reconciliation exactly when an error was applied
      after a completion that was neither reopened nor completed again since. */
  lemma ReconciliationMeansErrorAfterCompletion(caps: Capacities, ops: seq<Op>, now: Time, policy: Policy,
                                                planning: PlanningPolicy, k: TaskKey)
    ensures Structure(Run(Initial(caps), ops))
    ensures var input := InputOf(Run(Initial(caps), ops), now);
            (exists i :: i in DraftOf(Analyses(input, policy), StatusesOf(input.agents), planning).interventions
                         && i.key == k && i.kind == ReconcileCompletion)
            <==> ErrorAfterCompletion(caps, ops, ScopedId(k.agent, k.task))
  {
    var s, id := Run(Initial(caps), ops), ScopedId(k.agent, k.task);
    CountersAreExactInEveryRun(caps, ops);
    TasksKeepTheirShape(caps, ops);
    var input := InputOf(s, now);
    SnapshotTasksAreUnique(s);
    LookupIsTheCache(s, k);
    if id in s.tasks.data { MismatchMeansContested(s.tasks.data[id]); }
    hide Run, Structure, Analyses, DraftOf, StatusesOf, LookupOf, Mismatched, Contested, Shaped, ErrorAfterCompletion;
    ReconcilesExactlyMismatches(input, policy, planning, k);
    ContestedMeansErrorAfterCompletion(caps, ops, id);
  }
}
