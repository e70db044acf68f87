/** The per-agent completion counters, kept incrementally through corrections, reopens,
    stale events and evictions, always equal a recount over the retained tasks. */
module StoreCounters {
  import opened Sequences
  import opened Model
  import opened Lru
  import opened StoreSpec
  import opened StoreInvariants

  ghost predicate Exact(agent: AgentState, tasks: map<ScopedId, TaskState>, a: string) {
    && agent.completedTasks == |Bucketed(tasks, a, CompletedBucket)|
    && agent.failedTasks == |Bucketed(tasks, a, FailedBucket)|
  }

  /** Every retained agent's counters equal the number of its retained tasks whose
      outcome falls in the bucket. */
  ghost predicate CountersExact(s: State) {
    forall a :: a in s.agents.data ==> Exact(s.agents.data[a], s.tasks.data, a)
  }

  ghost predicate Owned(tasks: map<ScopedId, TaskState>) {
    forall k :: k in tasks ==> tasks[k].agentId == k.agentId
  }

  function One(p: bool): nat { if p then 1 else 0 }

  lemma BucketedAfterSet(tasks: map<ScopedId, TaskState>, k: ScopedId, t: TaskState, a: string, b: Bucket)
    requires Owned(tasks) && t.agentId == k.agentId
    ensures a != k.agentId ==> Bucketed(tasks[k := t], a, b) == Bucketed(tasks, a, b)
    ensures a == k.agentId ==>
              |Bucketed(tasks[k := t], a, b)| + One(k in tasks && InBucket(tasks[k].outcome, b))
              == |Bucketed(tasks, a, b)| + One(InBucket(t.outcome, b))
  {
    var before, after := Bucketed(tasks, a, b), Bucketed(tasks[k := t], a, b);
    forall x ensures x in before - {k} <==> x in after - {k} {
      assert x != k ==> (x in tasks <==> x in tasks[k := t]);
    }
    assert before - {k} == after - {k};
    if a == k.agentId {
      BucketedSize(tasks, k, a, b);
      BucketedSize(tasks[k := t], k, a, b);
    } else {
      assert k !in before && k !in after;
      assert before == before - {k} && after == after - {k};
    }
  }

  lemma BucketedSize(tasks: map<ScopedId, TaskState>, k: ScopedId, a: string, b: Bucket)
    requires k in tasks ==> tasks[k].agentId == a
    ensures |Bucketed(tasks, a, b)| == |Bucketed(tasks, a, b) - {k}| + One(k in tasks && InBucket(tasks[k].outcome, b))
  {
    WithOrWithout(Bucketed(tasks, a, b), k);
  }

  lemma WithOrWithout<T>(s: set<T>, x: T)
    ensures |s| == |s - {x}| + One(x in s)
  {}

  lemma BucketedAfterDrop(tasks: map<ScopedId, TaskState>, k: ScopedId, a: string, b: Bucket)
    requires Owned(tasks) && k in tasks
    ensures a != k.agentId ==> Bucketed(tasks - {k}, a, b) == Bucketed(tasks, a, b)
    ensures a == k.agentId ==>
              |Bucketed(tasks - {k}, a, b)| + One(InBucket(tasks[k].outcome, b)) == |Bucketed(tasks, a, b)|
  {
    var before, after := Bucketed(tasks, a, b), Bucketed(tasks - {k}, a, b);
    if a == k.agentId {
      assert after == before - {k};
      assert |before| == |before - {k}| + One(k in before);
    } else {
      assert after == before;
    }
  }

  lemma BucketFitsWord(s: State, a: string, b: Bucket)
    requires CachesValid(s)
    ensures |Bucketed(s.tasks.data, a, b)| <= U64_MAX
  {
    KeysFitCapacity(s.tasks, s.caps.tasks);
    SubsetCount(Bucketed(s.tasks.data, a, b), s.tasks.data.Keys);
  }

  lemma KeysFitCapacity<K(!new), V>(c: Cache<K, V>, capacity: nat)
    requires Valid(c, capacity)
    ensures |c.data.Keys| == |c.order| <= capacity
  {
    assert c.data.Keys == Members(c.order);
    DistinctCount(c.order);
  }

  // ---------- one agent ----------

  lemma UncountAfterReopen(agent: AgentState, tasks: map<ScopedId, TaskState>, k: ScopedId, t: TaskState)
    requires Owned(tasks) && k in tasks && Exact(agent, tasks, k.agentId)
    requires t.agentId == k.agentId && t.outcome == None
    ensures Exact(Uncount(agent, tasks[k].outcome), tasks[k := t], k.agentId)
  {
    BucketedAfterSet(tasks, k, t, k.agentId, CompletedBucket);
    BucketedAfterSet(tasks, k, t, k.agentId, FailedBucket);
  }

  lemma UncountAfterDrop(agent: AgentState, tasks: map<ScopedId, TaskState>, k: ScopedId)
    requires Owned(tasks) && k in tasks && Exact(agent, tasks, k.agentId)
    ensures Exact(Uncount(agent, tasks[k].outcome), tasks - {k}, k.agentId)
  {
    BucketedAfterDrop(tasks, k, k.agentId, CompletedBucket);
    BucketedAfterDrop(tasks, k, k.agentId, FailedBucket);
  }

  lemma RecountAfterCompletion(agent: AgentState, tasks: map<ScopedId, TaskState>, k: ScopedId, t: TaskState, current: TaskOutcome)
    requires Owned(tasks) && k in tasks && Exact(agent, tasks, k.agentId)
    requires t.agentId == k.agentId && t.outcome == Some(current)
    requires |Bucketed(tasks[k := t], k.agentId, CompletedBucket)| <= U64_MAX
    requires |Bucketed(tasks[k := t], k.agentId, FailedBucket)| <= U64_MAX
    ensures Exact(Recount(agent, tasks[k].outcome, current), tasks[k := t], k.agentId)
  {
    BucketedAfterSet(tasks, k, t, k.agentId, CompletedBucket);
    BucketedAfterSet(tasks, k, t, k.agentId, FailedBucket);
  }

  // ---------- primitives ----------

  lemma EnsureAgentKeepsCounters(s: State, e: EventEnvelope)
    requires CountersExact(s)
    ensures CountersExact(EnsureAgent(s, e))
  {
    hide Bucketed;
  }

  lemma SetAgentKeepsCounters(s: State, a: string, agent: AgentState)
    requires forall x :: x in s.agents.data && x != a ==> Exact(s.agents.data[x], s.tasks.data, x)
    requires Exact(agent, s.tasks.data, a)
    ensures CountersExact(SetAgent(s, a, agent))
  {
    hide Exact;
  }

  lemma PresentKeepsCounters(s: State, e: EventEnvelope)
    requires CountersExact(s)
    ensures CountersExact(Present(s, e))
  {
    EnsureAgentKeepsCounters(s, e);
    var s1 := EnsureAgent(s, e);
    SetAgentKeepsCounters(s1, e.agent.agentId, Refreshed(s1.agents.data[e.agent.agentId], e));
  }

  lemma TasksAreOwned(s: State)
    requires KeysMatch(s)
    ensures Owned(s.tasks.data)
  {}

  /** Others keep their counts when one agent's task changes. */
  lemma OthersKeepCounters(s: State, tasks: map<ScopedId, TaskState>, owner: string)
    requires CountersExact(s)
    requires forall a, b :: a != owner ==> Bucketed(tasks, a, b) == Bucketed(s.tasks.data, a, b)
    ensures forall a :: a in s.agents.data && a != owner ==> Exact(s.agents.data[a], tasks, a)
  {}

  lemma DropTaskKeepsCounters(s: State, k: ScopedId)
    requires CountersExact(s) && Owned(s.tasks.data) && k in s.tasks.data
    ensures var victim := s.tasks.data[k];
            var s1 := s.(tasks := Drop(s.tasks, k));
            CountersExact(if k.agentId in s.agents.data
                          then SetAgent(s1, k.agentId, Uncount(s.agents.data[k.agentId], victim.outcome)) else s1)
  {
    var tasks := s.tasks.data - {k};
    forall a, b | a != k.agentId ensures Bucketed(tasks, a, b) == Bucketed(s.tasks.data, a, b) {
      BucketedAfterDrop(s.tasks.data, k, a, b);
    }
    OthersKeepCounters(s, tasks, k.agentId);
    var s1 := s.(tasks := Drop(s.tasks, k));
    if k.agentId in s.agents.data {
      UncountAfterDrop(s.agents.data[k.agentId], s.tasks.data, k);
      hide Bucketed, Exact, Uncount;
      SetAgentKeepsCounters(s1, k.agentId, Uncount(s.agents.data[k.agentId], s.tasks.data[k].outcome));
    }
  }

  /** A task without an outcome is counted nowhere. */
  lemma PutFreshTaskKeepsCounters(s: State, k: ScopedId, t: TaskState)
    requires CountersExact(s) && Owned(s.tasks.data) && k !in s.tasks.data
    requires t.agentId == k.agentId && t.outcome == None
    ensures CountersExact(SetTask(s, k, t))
  {
    forall a | a in s.agents.data ensures Exact(s.agents.data[a], s.tasks.data[k := t], a) {
      BucketedAfterSet(s.tasks.data, k, t, a, CompletedBucket);
      BucketedAfterSet(s.tasks.data, k, t, a, FailedBucket);
    }
  }

  lemma InsertTaskKeepsCounters(s: State, k: ScopedId, t: TaskState)
    requires CountersExact(s) && Structure(s) && k !in s.tasks.data
    requires t.agentId == k.agentId && t.outcome == None
    ensures CountersExact(InsertTask(s, k, t))
  {
    TasksAreOwned(s);
    if Evicts(s.tasks, s.caps.tasks, k) {
      var old_ := Oldest(s.tasks);
      assert old_ in s.tasks.order && old_ in s.tasks.data;
      DropTaskKeepsCounters(s, old_);
      var s1 := s.(tasks := Drop(s.tasks, old_));
      var s2 := if old_.agentId in s.agents.data
      then SetAgent(s1, old_.agentId, Uncount(s.agents.data[old_.agentId], s.tasks.data[old_].outcome)) else s1;
      hide CountersExact, Structure, Uncount;
      PutFreshTaskKeepsCounters(s2, k, t);
      SameForCounters(SetTask(s2, k, t), InsertTask(s, k, t));
    } else {
      PutFreshTaskKeepsCounters(s, k, t);
    }
  }

  lemma SameForCounters(s: State, r: State)
    requires CountersExact(s) && r.agents.data == s.agents.data && r.tasks.data == s.tasks.data
    ensures CountersExact(r)
  {}

  // ---------- task events ----------

  /** The event's effect on the agent matches its effect on the task. */
  lemma AgentAfterIsExact(agent: AgentState, tasks: map<ScopedId, TaskState>, k: ScopedId, e: EventEnvelope)
    requires Owned(tasks) && k in tasks && Exact(agent, tasks, k.agentId) && TaskIdOf(e.event).Some?
    requires |Bucketed(tasks[k := TaskAfter(tasks[k], e)], k.agentId, CompletedBucket)| <= U64_MAX
    requires |Bucketed(tasks[k := TaskAfter(tasks[k], e)], k.agentId, FailedBucket)| <= U64_MAX
    ensures Exact(AgentAfter(agent, e, tasks[k].outcome), tasks[k := TaskAfter(tasks[k], e)], k.agentId)
  {
    hide Bucketed;
    var t := TaskAfter(tasks[k], e);
    match e.event
    case TaskStarted(_, _, _) => UncountAfterReopen(agent, tasks, k, t);
    case ProgressUpdated(_, _, _, _, _) => UncountAfterReopen(agent, tasks, k, t);
    case TaskCompleted(_, outcome, _, _) =>
      RecountAfterCompletion(agent.(activeTaskId := None), tasks, k, t, outcome);
    case ReflectionRecorded(_) => SameOutcomeIsExact(agent, tasks, k, t);
    case ErrorObserved(_) => SameOutcomeIsExact(agent, tasks, k, t);
  }

  lemma SameOutcomeIsExact(agent: AgentState, tasks: map<ScopedId, TaskState>, k: ScopedId, t: TaskState)
    requires Owned(tasks) && k in tasks && t.agentId == k.agentId && t.outcome == tasks[k].outcome
    requires Exact(agent, tasks, k.agentId)
    ensures Exact(agent, tasks[k := t], k.agentId)
  {
    BucketedAfterSet(tasks, k, t, k.agentId, CompletedBucket);
    BucketedAfterSet(tasks, k, t, k.agentId, FailedBucket);
  }

  lemma SetTaskKeepsOthersCounters(s: State, k: ScopedId, t: TaskState)
    requires CountersExact(s) && Owned(s.tasks.data) && t.agentId == k.agentId
    ensures forall a :: a in s.agents.data && a != k.agentId ==> Exact(s.agents.data[a], s.tasks.data[k := t], a)
  {
    forall a, b | a != k.agentId ensures Bucketed(s.tasks.data[k := t], a, b) == Bucketed(s.tasks.data, a, b) {
      BucketedAfterSet(s.tasks.data, k, t, a, b);
    }
    OthersKeepCounters(s, s.tasks.data[k := t], k.agentId);
  }

  lemma AppliedTaskEventKeepsCounters(s: State, k: ScopedId, e: EventEnvelope)
    requires Structure(s) && CountersExact(s) && k in s.tasks.data
    requires k.agentId == e.agent.agentId && k.agentId in s.agents.data && TaskIdOf(e.event).Some?
    ensures CountersExact(UpdateAgent(SetTask(s, k, TaskAfter(s.tasks.data[k], e)), e, s.tasks.data[k].outcome))
  {
    var t, a := s.tasks.data[k], k.agentId;
    var t' := TaskAfter(t, e);
    var s2 := SetTask(s, k, t');
    assert t'.agentId == t.agentId && t'.task == t.task;
    SetTaskKeepsStructure(s, k, t');
    BucketFitsWord(s2, a, CompletedBucket);
    BucketFitsWord(s2, a, FailedBucket);
    TasksAreOwned(s);
    SetTaskKeepsOthersCounters(s, k, t');
    assert Exact(s.agents.data[a], s.tasks.data, a);
    hide Structure, CountersExact, Bucketed, Exact, TaskAfter, AgentAfter;
    AgentAfterIsExact(s.agents.data[a], s.tasks.data, k, e);
    SetAgentKeepsCounters(s2, a, AgentAfter(s2.agents.data[a], e, t.outcome));
  }

  /** Events that leave counters alone. */
  predicate Uncounting(event: AgentEvent) {
    !event.TaskStarted? && !event.ProgressUpdated? && !event.TaskCompleted?
  }

  lemma UpdateAgentKeepsCounters(s: State, e: EventEnvelope, previous: Option<TaskOutcome>)
    requires CountersExact(s) && Uncounting(e.event)
    ensures CountersExact(UpdateAgent(s, e, previous))
  {
    var a := e.agent.agentId;
    if a in s.agents.data {
      var agent := AgentAfter(s.agents.data[a], e, previous);
      assert agent.completedTasks == s.agents.data[a].completedTasks && agent.failedTasks == s.agents.data[a].failedTasks;
      SetAgentKeepsCounters(s, a, agent);
    }
  }

  lemma StaleTaskEventKeepsCounters(s: State, k: ScopedId)
    requires CountersExact(s) && k in s.tasks.data
    ensures CountersExact(SetTask(s, k, s.tasks.data[k]))
  {
    assert s.tasks.data[k := s.tasks.data[k]] == s.tasks.data;
    SameForCounters(s, SetTask(s, k, s.tasks.data[k]));
  }

  lemma EnsureTaskKeepsCounters(s: State, k: ScopedId, at: Time)
    requires Structure(s) && CountersExact(s)
    ensures CountersExact(EnsureTask(s, k, at))
  {
    if k !in s.tasks.data {
      InsertTaskKeepsCounters(s, k, NewTask(InferredSpec(k.entityId), k.agentId, at, true));
    }
  }

  lemma OnTaskKeepsCounters(s: State, k: ScopedId, e: EventEnvelope)
    requires Structure(s) && CountersExact(s)
    requires k.agentId == e.agent.agentId && k.agentId in s.agents.data && TaskIdOf(e.event).Some?
    ensures CountersExact(OnTask(s, k, e))
  {
    hide Structure, CountersExact, UpdateAgent, TaskAfter, EnsureTask;
    EnsureTaskKeepsStructure(s, k, e.occurredAt);
    EnsureTaskKeepsCounters(s, k, e.occurredAt);
    var s1 := EnsureTask(s, k, e.occurredAt);
    var t := s1.tasks.data[k];
    if e.occurredAt >= t.updatedAt {
      AppliedTaskEventKeepsCounters(s1, k, e);
    } else {
      StaleTaskEventKeepsCounters(s1, k);
      if Uncounting(e.event) {
        UpdateAgentKeepsCounters(SetTask(s1, k, t), e, t.outcome);
      }
    }
  }

  lemma DefineTaskKeepsCounters(s: State, k: ScopedId, spec: TaskSpec, at: Time)
    requires Structure(s) && CountersExact(s)
    ensures CountersExact(DefineTask(s, k, spec, at))
  {
    if k in s.tasks.data {
      var t := Redefined(s.tasks.data[k], spec, k.agentId, at);
      TasksAreOwned(s);
      SetTaskKeepsOthersCounters(s, k, t);
      forall a | a in s.agents.data ensures Exact(s.agents.data[a], s.tasks.data[k := t], a) {
        if a == k.agentId { SameOutcomeIsExact(s.agents.data[a], s.tasks.data, k, t); }
      }
    } else {
      InsertTaskKeepsCounters(s, k, NewTask(spec, k.agentId, at, false));
    }
  }

  lemma ApplyKeepsCounters(s: State, e: EventEnvelope)
    requires Structure(s) && CountersExact(s)
    ensures CountersExact(Apply(s, e))
  {
    hide Structure, CountersExact, Present, OnTask, UpdateAgent, DefineTask;
    var a := e.agent.agentId;
    PresentKeepsStructure(s, e);
    PresentKeepsCounters(s, e);
    var s1 := Present(s, e);
    match e.event
    case GoalDeclared(goal) =>
      var s2 := PushGoal(s1, ScopedId(a, goal.goalId), GoalState(goal, a, e.occurredAt));
      SameForCounters(s1, s2);
      UpdateAgentKeepsCounters(s2, e, None);
    case TaskCreated(spec) => DefineTaskKeepsCounters(s1, ScopedId(a, spec.taskId), spec, e.occurredAt);
    case LessonLearned(lesson) => SameForCounters(s1, PushLesson(s1, ScopedId(a, lesson.lessonId), lesson, e.occurredAt));
    case _ =>
      match TaskIdOf(e.event)
      case Some(id) => OnTaskKeepsCounters(s1, ScopedId(a, id), e);
      case None => UpdateAgentKeepsCounters(s1, e, None);
  }

  lemma StepKeepsCounters(s: State, op: Op)
    requires Structure(s) && CountersExact(s)
    ensures CountersExact(Step(s, op))
  {
    hide Structure, CountersExact, Apply;
    if op.Submit? && ValidEvent(op.event) && op.event.eventId !in s.seen.data {
      ApplyKeepsCounters(s, op.event);
      SameForCounters(Apply(s, op.event), Step(s, op));
    } else {
      SameForCounters(s, Step(s, op));
    }
  }

  /** In every state a run can reach, the counters of every retained agent are exact. */
  lemma {:induction false} CountersAreExactInEveryRun(caps: Capacities, ops: seq<Op>)
    ensures Structure(Run(Initial(caps), ops)) && CountersExact(Run(Initial(caps), ops))
  {
    if ops != [] {
      var before := ops[..|ops| - 1];
      CountersAreExactInEveryRun(caps, before);
      hide Structure, CountersExact, Step;
      StepKeepsStructure(Run(Initial(caps), before), ops[|ops| - 1]);
      StepKeepsCounters(Run(Initial(caps), before), ops[|ops| - 1]);
    }
  }

  /** The agent's retained tasks that ended well, wholly or in part. */
  ghost function Completed(tasks: map<ScopedId, TaskState>, a: string): set<ScopedId> {
    set k | k in tasks && tasks[k].agentId == a
            && (tasks[k].outcome == Some(TaskOutcome.Succeeded) || tasks[k].outcome == Some(TaskOutcome.Partial))
  }

  /** The agent's retained tasks that failed or were canceled. */
  ghost function Failed(tasks: map<ScopedId, TaskState>, a: string): set<ScopedId> {
    set k | k in tasks && tasks[k].agentId == a
            && (tasks[k].outcome == Some(TaskOutcome.Failed) || tasks[k].outcome == Some(TaskOutcome.Canceled))
  }

  lemma BucketsMean(tasks: map<ScopedId, TaskState>, a: string)
    ensures Bucketed(tasks, a, CompletedBucket) == Completed(tasks, a)
    ensures Bucketed(tasks, a, FailedBucket) == Failed(tasks, a)
  {}

  /** After any run an agent's counters are the numbers of its retained tasks that succeeded at
      least in part, and of those that failed or were canceled. */
  lemma CountersCountOutcomes(caps: Capacities, ops: seq<Op>, a: string)
    ensures var s := Run(Initial(caps), ops);
            a in s.agents.data ==>
              && s.agents.data[a].completedTasks == |Completed(s.tasks.data, a)|
              && s.agents.data[a].failedTasks == |Failed(s.tasks.data, a)|
  {
    var s := Run(Initial(caps), ops);
    CountersAreExactInEveryRun(caps, ops);
    hide Run, Structure, Bucketed, Completed, Failed;
    if a in s.agents.data {
      assert Exact(s.agents.data[a], s.tasks.data, a);
      BucketsMean(s.tasks.data, a);
    }
  }

  // ---------- saturation ----------

  function Counter(agent: AgentState, b: Bucket): nat {
    if b.CompletedBucket? then agent.completedTasks else agent.failedTasks
  }

  /** Uncounting `previous`, and counting any outcome in its place, moves the agent's
      counters exactly as unbounded integers would move. */
  ghost predicate Unsaturated(agent: AgentState, previous: Option<TaskOutcome>) {
    && (forall b :: Counter(Uncount(agent, previous), b) == Counter(agent, b) - One(InBucket(previous, b)))
    && (forall current, b :: Counter(Recount(agent, previous, current), b)
                             == Counter(agent, b) - One(InBucket(previous, b)) + One(BucketOf(current) == b))
  }

  lemma RoomMeansUnsaturated(agent: AgentState, previous: Option<TaskOutcome>)
    requires forall b :: if InBucket(previous, b) then Counter(agent, b) > 0 else Counter(agent, b) < U64_MAX
    ensures Unsaturated(agent, previous)
  {}

  /** A counted task makes its counter positive, an uncounted one leaves room. */
  lemma ExactCountersHaveRoom(s: State, k: ScopedId, b: Bucket)
    requires Structure(s) && CountersExact(s) && k in s.tasks.data && k.agentId in s.agents.data
    ensures var n := Counter(s.agents.data[k.agentId], b);
            if InBucket(s.tasks.data[k].outcome, b) then n > 0 else n < s.caps.tasks <= U64_MAX
  {
    var counted := Bucketed(s.tasks.data, k.agentId, b);
    assert Exact(s.agents.data[k.agentId], s.tasks.data, k.agentId);
    if InBucket(s.tasks.data[k].outcome, b) {
      assert k in counted;
    } else {
      KeysFitCapacity(s.tasks, s.caps.tasks);
      SubsetCount(counted, s.tasks.data.Keys - {k});
    }
  }

  lemma ExactCountersAreUnsaturated(s: State, k: ScopedId)
    requires Structure(s) && CountersExact(s) && k in s.tasks.data && s.tasks.data[k].agentId in s.agents.data
    ensures s.tasks.data[k].agentId == k.agentId
    ensures Unsaturated(s.agents.data[s.tasks.data[k].agentId], s.tasks.data[k].outcome)
  {
    assert s.tasks.data[k].agentId == k.agentId;
    hide Structure, CountersExact, Unsaturated;
    forall b ensures if InBucket(s.tasks.data[k].outcome, b) then Counter(s.agents.data[k.agentId], b) > 0
                     else Counter(s.agents.data[k.agentId], b) < U64_MAX
    {
      ExactCountersHaveRoom(s, k, b);
    }
    RoomMeansUnsaturated(s.agents.data[k.agentId], s.tasks.data[k].outcome);
  }

  /** No saturating operation on the counters ever saturates.  They happen in two places of
      a step, both after the event's agent is present, newly admitted or not: when a task is
      inserted, its victim is uncounted for the victim's owner; then the event's own task,
      newly inferred or not, is uncounted or counted for the event's agent. */
  lemma CountersNeverSaturate(caps: Capacities, ops: seq<Op>, e: EventEnvelope)
    ensures var s := Present(Run(Initial(caps), ops), e);
            && (forall k :: k in s.tasks.data && s.tasks.data[k].agentId in s.agents.data ==>
                  Unsaturated(s.agents.data[s.tasks.data[k].agentId], s.tasks.data[k].outcome))
            && (forall k: ScopedId :: k.agentId == e.agent.agentId ==>
                  var t := EnsureTask(s, k, e.occurredAt);
                  k.agentId in t.agents.data && Unsaturated(t.agents.data[k.agentId], t.tasks.data[k].outcome))
  {
    CountersAreExactInEveryRun(caps, ops);
    hide Structure, CountersExact, Unsaturated, Present, EnsureTask, Run;
    var before := Run(Initial(caps), ops);
    PresentKeepsStructure(before, e);
    PresentKeepsCounters(before, e);
    var s := Present(before, e);
    forall k | k in s.tasks.data && s.tasks.data[k].agentId in s.agents.data
      ensures Unsaturated(s.agents.data[s.tasks.data[k].agentId], s.tasks.data[k].outcome)
    {
      ExactCountersAreUnsaturated(s, k);
    }
    forall k: ScopedId | k.agentId == e.agent.agentId
      ensures var t := EnsureTask(s, k, e.occurredAt);
              k.agentId in t.agents.data && Unsaturated(t.agents.data[k.agentId], t.tasks.data[k].outcome)
    {
      EnsuredTaskIsUnsaturated(s, k, e.occurredAt);
    }
  }

  lemma EnsuredTaskIsUnsaturated(s: State, k: ScopedId, at: Time)
    requires Structure(s) && CountersExact(s) && k.agentId in s.agents.data
    ensures var t := EnsureTask(s, k, at);
            k.agentId in t.agents.data && Unsaturated(t.agents.data[k.agentId], t.tasks.data[k].outcome)
  {
    EnsureTaskKeepsStructure(s, k, at);
    EnsureTaskKeepsCounters(s, k, at);
    var t := EnsureTask(s, k, at);
    assert t.tasks.data[k].agentId == k.agentId;
    hide Structure, CountersExact, Unsaturated, EnsureTask;
    ExactCountersAreUnsaturated(t, k);
  }
}
