/** What every step of the store keeps: the caches stay well formed and every entry sits
    under the key its own fields spell. */
module StoreInvariants {
  import opened Model
  import opened Lru
  import opened StoreSpec

  ghost predicate Structure(s: State) {
    CachesValid(s) && KeysMatch(s)
  }

  // ---------- structure ----------

  lemma EnsureAgentKeepsStructure(s: State, e: EventEnvelope)
    requires Structure(s)
    ensures Structure(EnsureAgent(s, e))
  {
    if e.agent.agentId !in s.agents.data {
      PushValid(s.agents, s.caps.agents, e.agent.agentId, NewAgent(s, e));
    }
  }

  lemma SetAgentKeepsStructure(s: State, a: string, agent: AgentState)
    requires Structure(s) && a in s.agents.data && agent.agent.agentId == a
    ensures Structure(SetAgent(s, a, agent))
  {
    PutValid(s.agents, s.caps.agents, a, agent);
  }

  lemma AgentAfterKeepsId(agent: AgentState, e: EventEnvelope, previous: Option<TaskOutcome>)
    ensures AgentAfter(agent, e, previous).agent == agent.agent
    ensures Uncount(agent, previous).agent == agent.agent
  {}

  lemma UpdateAgentKeepsStructure(s: State, e: EventEnvelope, previous: Option<TaskOutcome>)
    requires Structure(s)
    ensures Structure(UpdateAgent(s, e, previous))
  {
    var a := e.agent.agentId;
    if a in s.agents.data {
      hide Structure, AgentAfter, Uncount;
      AgentAfterKeepsId(s.agents.data[a], e, previous);
      assert s.agents.data[a].agent.agentId == a by { AgentKeyed(s, a); }
      SetAgentKeepsStructure(s, a, AgentAfter(s.agents.data[a], e, previous));
    }
  }

  lemma AgentKeyed(s: State, a: string)
    requires Structure(s) && a in s.agents.data
    ensures s.agents.data[a].agent.agentId == a
  {}

  lemma PresentKeepsStructure(s: State, e: EventEnvelope)
    requires Structure(s)
    ensures Structure(Present(s, e))
  {
    hide Structure, EnsureAgent;
    EnsureAgentKeepsStructure(s, e);
    var s1 := EnsureAgent(s, e);
    SetAgentKeepsStructure(s1, e.agent.agentId, Refreshed(s1.agents.data[e.agent.agentId], e));
  }

  lemma PushTaskKeepsStructure(s: State, k: ScopedId, t: TaskState)
    requires Structure(s) && ScopedId(t.agentId, t.task.taskId) == k
    ensures Structure(s.(tasks := Push(s.tasks, s.caps.tasks, k, t)))
  {
    PushValid(s.tasks, s.caps.tasks, k, t);
  }

  lemma InsertTaskKeepsStructure(s: State, k: ScopedId, t: TaskState)
    requires Structure(s) && ScopedId(t.agentId, t.task.taskId) == k
    ensures Structure(InsertTask(s, k, t))
  {
    PushTaskKeepsStructure(s, k, t);
    if Evicts(s.tasks, s.caps.tasks, k) && Oldest(s.tasks) in s.tasks.data {
      var victim := s.tasks.data[Oldest(s.tasks)];
      var s2 := s.(tasks := Push(s.tasks, s.caps.tasks, k, t),
                   evictions := s.evictions.(tasks := SaturatingAdd(s.evictions.tasks, 1)));
      assert Structure(s2);
      if victim.agentId in s2.agents.data {
        UncountKeepsId(s2.agents.data[victim.agentId], victim.outcome);
        SetAgentKeepsStructure(s2, victim.agentId, Uncount(s2.agents.data[victim.agentId], victim.outcome));
      }
    }
  }

  lemma UncountKeepsId(agent: AgentState, outcome: Option<TaskOutcome>)
    ensures Uncount(agent, outcome).agent == agent.agent
  {}

  lemma SetTaskKeepsStructure(s: State, k: ScopedId, t: TaskState)
    requires Structure(s) && k in s.tasks.data && ScopedId(t.agentId, t.task.taskId) == k
    ensures Structure(SetTask(s, k, t))
  {
    PutValid(s.tasks, s.caps.tasks, k, t);
  }

  lemma EnsureTaskKeepsStructure(s: State, k: ScopedId, at: Time)
    requires Structure(s)
    ensures Structure(EnsureTask(s, k, at))
  {
    if k !in s.tasks.data {
      InsertTaskKeepsStructure(s, k, NewTask(InferredSpec(k.entityId), k.agentId, at, true));
    }
  }

  lemma GatedKeepsKey(t: TaskState, e: EventEnvelope)
    ensures Gated(t, e).agentId == t.agentId && Gated(t, e).task.taskId == t.task.taskId
  {}

  lemma OnTaskKeepsStructure(s: State, k: ScopedId, e: EventEnvelope)
    requires Structure(s)
    ensures Structure(OnTask(s, k, e))
  {
    EnsureTaskKeepsStructure(s, k, e.occurredAt);
    var s1 := EnsureTask(s, k, e.occurredAt);
    var t := s1.tasks.data[k];
    assert ScopedId(t.agentId, t.task.taskId) == k;
    GatedKeepsKey(t, e);
    hide Structure, UpdateAgent, EnsureTask, SetTask, Gated;
    SetTaskKeepsStructure(s1, k, Gated(t, e));
    UpdateAgentKeepsStructure(SetTask(s1, k, Gated(t, e)), e, t.outcome);
  }

  lemma DefineTaskKeepsStructure(s: State, k: ScopedId, spec: TaskSpec, at: Time)
    requires Structure(s) && spec.taskId == k.entityId
    ensures Structure(DefineTask(s, k, spec, at))
  {
    if k in s.tasks.data {
      SetTaskKeepsStructure(s, k, Redefined(s.tasks.data[k], spec, k.agentId, at));
    } else {
      InsertTaskKeepsStructure(s, k, NewTask(spec, k.agentId, at, false));
    }
  }

  lemma PushGoalKeepsStructure(s: State, k: ScopedId, g: GoalState)
    requires Structure(s) && ScopedId(g.agentId, g.goal.goalId) == k
    ensures Structure(PushGoal(s, k, g))
  {
    PushValid(s.goals, s.caps.goals, k, g);
  }

  lemma PushLessonKeepsStructure(s: State, k: ScopedId, lesson: Lesson, at: Time)
    requires Structure(s) && lesson.lessonId == k.entityId
    ensures Structure(PushLesson(s, k, lesson, at))
  {
    PushValid(s.lessons, s.caps.lessons, k, PushLesson(s, k, lesson, at).lessons.data[k]);
  }

  lemma ApplyKeepsStructure(s: State, e: EventEnvelope)
    requires Structure(s)
    ensures Structure(Apply(s, e))
  {
    hide Structure, Present, OnTask, UpdateAgent, DefineTask, PushLesson, PushGoal;
    var a := e.agent.agentId;
    PresentKeepsStructure(s, e);
    var s1 := Present(s, e);
    match e.event
    case GoalDeclared(goal) =>
      var g := GoalState(goal, a, e.occurredAt);
      PushGoalKeepsStructure(s1, ScopedId(a, goal.goalId), g);
      UpdateAgentKeepsStructure(PushGoal(s1, ScopedId(a, goal.goalId), g), e, None);
    case TaskCreated(spec) => DefineTaskKeepsStructure(s1, ScopedId(a, spec.taskId), spec, e.occurredAt);
    case LessonLearned(lesson) => PushLessonKeepsStructure(s1, ScopedId(a, lesson.lessonId), lesson, e.occurredAt);
    case _ =>
      match TaskIdOf(e.event)
      case Some(id) => OnTaskKeepsStructure(s1, ScopedId(a, id), e);
      case None => UpdateAgentKeepsStructure(s1, e, None);
  }

  lemma RecordKeepsStructure(s: State, e: EventEnvelope, transport: Transport, receivedAt: Time)
    requires Structure(s)
    ensures Structure(Record(s, e, transport, receivedAt))
  {
    PushValid(s.seen, s.caps.idempotency, e.eventId, SaturatingAdd(s.revision, 1));
    PushValid(s.events, s.caps.events, e.eventId, EventRecord(e, transport, receivedAt));
  }

  lemma DuplicateKeepsStructure(s: State, id: Uuid)
    requires Structure(s) && id in s.seen.data
    ensures Structure(Duplicate(s, id))
  {
    PutValid(s.seen, s.caps.idempotency, id, s.seen.data[id]);
  }

  lemma StepKeepsStructure(s: State, op: Op)
    requires Structure(s)
    ensures Structure(Step(s, op))
  {
    if op.Submit? && ValidEvent(op.event) {
      hide Apply, Structure, Record;
      if op.event.eventId in s.seen.data {
        DuplicateKeepsStructure(s, op.event.eventId);
      } else {
        ApplyKeepsStructure(s, op.event);
        RecordKeepsStructure(Apply(s, op.event), op.event, op.transport, op.receivedAt);
      }
    }
  }
}
