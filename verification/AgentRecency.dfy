/** Which agents are retained: the order in which events touch agent records
    (`src/store.rs`). */
module AgentRecency {
  import opened Model
  import opened Lru
  import opened Recency
  import opened StoreSpec
  import opened StoreInvariants
  import opened StoreTasks
  import opened AgentHistory
  import opened StoreIdempotency

  /** The owner of the least recently named task, if inserting task `k` displaces that task. */
  function DisplacedOwner(s: State, k: ScopedId): Option<string> {
    if k in s.tasks.data || |s.tasks.order| < s.caps.tasks || s.tasks.order == [] then None
    else
      var oldest := s.tasks.order[|s.tasks.order| - 1];
      if oldest in s.tasks.data then Some(s.tasks.data[oldest].agentId) else None
  }

  /** Whether an event changes its agent's record beyond refreshing it. */
  predicate ChangesRecord(s: State, e: EventEnvelope) {
    !e.event.TaskCreated? && !e.event.LessonLearned? && ReachesNow(s, e)
  }

  /** The agents that an accepted event touches, in order: its own agent, the retained owner of
      a task it displaces, and its own agent again if the event changes the record. */
  function Touches(s: State, e: EventEnvelope): seq<string> {
    var a := e.agent.agentId;
    var owner := if EventKey(e).Some? then DisplacedOwner(s, EventKey(e).value) else None;
    [a] + (if owner.Some? && owner.value in Present(s, e).agents.data then [owner.value] else [])
    + (if ChangesRecord(s, e) then [a] else [])
  }

  function Touched(caps: Capacities, ops: seq<Op>): seq<string> {
    if ops == [] then []
    else
      var op, before := ops[|ops| - 1], ops[..|ops| - 1];
      var s := Run(Initial(caps), before);
      Touched(caps, before) + if Accepts(s, op) then Touches(s, op.event) else []
  }

  // ---------- one record at a time ----------

  ghost predicate Recent(s: State, ids: seq<string>) {
    s.agents.order == Take(RecentFirst(ids), s.caps.agents)
  }

  lemma SetAgentIsRecent(s: State, ids: seq<string>, a: string, r: AgentState)
    requires Valid(s.agents, s.caps.agents) && a in s.agents.data && Recent(s, ids)
    ensures Recent(SetAgent(s, a, r), ids + [a])
  {
    hide RecentFirst, Take, Valid, Put;
    PutIsRecent(s.agents, ids, s.caps.agents, a, r);
  }

  lemma SameFront(s: State, a: string, r: AgentState)
    requires s.agents.order != [] && s.agents.order[0] == a && a !in s.agents.order[1..]
    ensures SetAgent(s, a, r).agents.order == s.agents.order
  {
    assert s.agents.order == [a] + s.agents.order[1..];
  }

  lemma PushedFront(c: Cache<string, AgentState>, capacity: nat, a: string, r: AgentState)
    requires capacity > 0 && Valid(c, capacity) && a !in c.data
    ensures var q := Push(c, capacity, a, r); q.order != [] && q.order[0] == a && a !in q.order[1..]
  {
    PushOrder(c, capacity, a, r);
    hide Push;
  }

  lemma PresentIsRecent(s: State, ids: seq<string>, e: EventEnvelope)
    requires Structure(s) && Recent(s, ids)
    ensures Recent(Present(s, e), ids + [e.agent.agentId])
  {
    assert Valid(s.agents, s.caps.agents);
    hide Structure, RecentFirst, Take, Valid, Push, Put, Refreshed, NewAgent;
    var a := e.agent.agentId;
    if a in s.agents.data {
      SetAgentIsRecent(s, ids, a, Refreshed(s.agents.data[a], e));
    } else {
      var q := EnsureAgent(s, e);
      PushIsRecent(s.agents, ids, s.caps.agents, a, NewAgent(s, e));
      PushedFront(s.agents, s.caps.agents, a, NewAgent(s, e));
      SameFront(q, a, Refreshed(q.agents.data[a], e));
    }
  }

  function Owner(p: State, k: ScopedId): seq<string> {
    var owner := DisplacedOwner(p, k);
    if owner.Some? && owner.value in p.agents.data then [owner.value] else []
  }

  lemma InsertAgents(p: State, k: ScopedId, t: TaskState)
    requires Valid(p.tasks, p.caps.tasks) && k !in p.tasks.data
    ensures InsertTask(p, k, t).caps == p.caps
    ensures match DisplacedOwner(p, k)
            case None => InsertTask(p, k, t).agents == p.agents
            case Some(a) =>
              if a in p.agents.data
              then exists r :: InsertTask(p, k, t).agents == Put(p.agents, a, r)
              else InsertTask(p, k, t).agents == p.agents
  {
    hide Push, Put, Uncount;
    match DisplacedOwner(p, k)
    case None =>
    case Some(a) =>
      var victim := p.tasks.data[Oldest(p.tasks)];
      if a in p.agents.data {
        assert InsertTask(p, k, t).agents == Put(p.agents, a, Uncount(p.agents.data[a], victim.outcome));
      }
  }

  lemma TasksAreValid(s: State)
    requires Structure(s)
    ensures Valid(s.tasks, s.caps.tasks)
  {}

  lemma InsertIsRecent(p: State, ids: seq<string>, k: ScopedId, t: TaskState)
    requires Structure(p) && Recent(p, ids) && k !in p.tasks.data
    ensures Recent(InsertTask(p, k, t), ids + Owner(p, k))
  {
    hide Structure, RecentFirst, Take, Put, Valid, InsertTask, DisplacedOwner;
    AgentsAreValid(p);
    TasksAreValid(p);
    InsertAgents(p, k, t);
    assert ids + [] == ids;
    var owner := DisplacedOwner(p, k);
    if owner.Some? && owner.value in p.agents.data {
      var r :| InsertTask(p, k, t).agents == Put(p.agents, owner.value, r);
      PutIsRecent(p.agents, ids, p.caps.agents, owner.value, r);
    }
  }

  lemma EnsureTaskIsRecent(p: State, ids: seq<string>, k: ScopedId, at: Time)
    requires Structure(p) && Recent(p, ids)
    ensures Recent(EnsureTask(p, k, at), ids + Owner(p, k)) && EnsureTask(p, k, at).caps == p.caps
  {
    hide Structure, Recent, InsertTask, NewTask;
    if k in p.tasks.data {
      assert ids + [] == ids;
    } else {
      InsertIsRecent(p, ids, k, NewTask(InferredSpec(k.entityId), k.agentId, at, true));
      InsertKeepsCaps(p, k, NewTask(InferredSpec(k.entityId), k.agentId, at, true));
    }
  }

  lemma InsertKeepsCaps(p: State, k: ScopedId, t: TaskState)
    ensures InsertTask(p, k, t).caps == p.caps
  {
    hide Push, Put, Uncount;
  }

  lemma UpdateIsRecent(p: State, ids: seq<string>, e: EventEnvelope, previous: Option<TaskOutcome>)
    requires Valid(p.agents, p.caps.agents) && e.agent.agentId in p.agents.data && Recent(p, ids)
    ensures Recent(UpdateAgent(p, e, previous), ids + [e.agent.agentId])
  {
    hide AgentAfter, Valid, Recent;
    SetAgentIsRecent(p, ids, e.agent.agentId, AgentAfter(p.agents.data[e.agent.agentId], e, previous));
  }

  lemma AgentsAreValid(s: State)
    requires Structure(s)
    ensures Valid(s.agents, s.caps.agents)
  {}

  lemma ReachesOnTask(p: State, k: ScopedId, e: EventEnvelope)
    requires EventKey(e) == Some(k) && !e.event.TaskCreated?
    ensures var t := EnsureTask(p, k, e.occurredAt).tasks.data[k];
            ReachesNow(p, e) <==> e.occurredAt >= t.updatedAt || e.event.ReflectionRecorded? || e.event.ErrorObserved?
  {
    EnsuredTaskIsFound(p, k, e.occurredAt);
    hide EnsureTask, Found;
  }

  lemma SetTaskIsRecent(q: State, ids: seq<string>, k: ScopedId, t: TaskState)
    requires Recent(q, ids)
    ensures Recent(SetTask(q, k, t), ids)
  {
    hide RecentFirst, Take, Put;
  }

  lemma OnTaskIsRecent(p: State, ids: seq<string>, k: ScopedId, e: EventEnvelope)
    requires Structure(p) && Recent(p, ids) && EventKey(e) == Some(k) && !e.event.TaskCreated?
    requires e.agent.agentId in p.agents.data
    ensures Recent(OnTask(p, k, e), ids + Owner(p, k) + if ReachesNow(p, e) then [e.agent.agentId] else [])
  {
    hide Structure, EnsureTask, UpdateAgent, Gated, Found, Recent, Valid, Put, ReachesNow, Owner;
    var at, q := e.occurredAt, EnsureTask(p, k, e.occurredAt);
    EnsureTaskIsRecent(p, ids, k, at);
    EnsureTaskKeepsStructure(p, k, at);
    AgentsAreValid(q);
    ReachesOnTask(p, k, e);
    var ids2 := ids + Owner(p, k);
    var r := SetTask(q, k, Gated(q.tasks.data[k], e));
    SetTaskIsRecent(q, ids2, k, Gated(q.tasks.data[k], e));
    if ReachesNow(p, e) {
      UpdateIsRecent(r, ids2, e, q.tasks.data[k].outcome);
    } else {
      assert ids2 + [] == ids2;
    }
  }

  lemma DefineIsRecent(p: State, ids: seq<string>, k: ScopedId, spec: TaskSpec, at: Time)
    requires Structure(p) && Recent(p, ids)
    ensures Recent(DefineTask(p, k, spec, at), ids + Owner(p, k))
  {
    if k in p.tasks.data {
      assert ids + [] == ids;
    } else {
      InsertIsRecent(p, ids, k, NewTask(spec, k.agentId, at, false));
    }
    hide Structure, InsertTask, NewTask, Redefined, RecentFirst, Take;
  }

  /** After the event's agent is present, the rest of the touches follow. */
  lemma RestIsRecent(s: State, ids: seq<string>, e: EventEnvelope)
    requires Structure(s) && Recent(Present(s, e), ids)
    ensures var p, a := Present(s, e), e.agent.agentId;
            Recent(Apply(s, e), ids + (if EventKey(e).Some? then Owner(p, EventKey(e).value) else [])
                                + if ChangesRecord(p, e) then [a] else [])
  {
    hide Structure, Present, OnTask, DefineTask, UpdateAgent, Recent, Valid, Owner, ReachesNow, PushGoal, PushLesson;
    PresentKeepsStructure(s, e);
    var p, a := Present(s, e), e.agent.agentId;
    AgentsAreValid(p);
    assert ids + [] == ids;
    if e.event.TaskCreated? {
      DefineIsRecent(p, ids, ScopedId(a, e.event.spec.taskId), e.event.spec, e.occurredAt);
      assert ids + Owner(p, EventKey(e).value) + [] == ids + Owner(p, EventKey(e).value);
    } else if TaskIdOf(e.event).Some? {
      OnTaskIsRecent(p, ids, ScopedId(a, TaskIdOf(e.event).value), e);
    } else {
      NoTaskReaches(p, e);
      if e.event.GoalDeclared? {
        GoalIsRecent(p, ids, e);
      } else if e.event.LessonLearned? {
        LessonIsRecent(p, ids, e);
      } else {
        UpdateIsRecent(p, ids, e, None);
      }
    }
  }

  lemma NoTaskReaches(p: State, e: EventEnvelope)
    requires EventKey(e).None?
    ensures ReachesNow(p, e)
  {}

  lemma GoalIsRecent(p: State, ids: seq<string>, e: EventEnvelope)
    requires Valid(p.agents, p.caps.agents) && e.event.GoalDeclared? && e.agent.agentId in p.agents.data && Recent(p, ids)
    ensures var a := e.agent.agentId;
            var q := PushGoal(p, ScopedId(a, e.event.goal.goalId), GoalState(e.event.goal, a, e.occurredAt));
            Recent(UpdateAgent(q, e, None), ids + [a])
  {
    var a := e.agent.agentId;
    var q := PushGoal(p, ScopedId(a, e.event.goal.goalId), GoalState(e.event.goal, a, e.occurredAt));
    hide UpdateAgent, Push, Valid, RecentFirst, Take;
    UpdateIsRecent(q, ids, e, None);
  }

  lemma LessonIsRecent(p: State, ids: seq<string>, e: EventEnvelope)
    requires e.event.LessonLearned? && Recent(p, ids)
    ensures Recent(PushLesson(p, ScopedId(e.agent.agentId, e.event.lesson.lessonId), e.event.lesson, e.occurredAt), ids)
  {
    hide Push, RecentFirst, Take;
  }

  lemma SameOwner(s: State, e: EventEnvelope)
    ensures var p, a := Present(s, e), e.agent.agentId;
            Touches(s, e) == [a] + (if EventKey(e).Some? then Owner(p, EventKey(e).value) else [])
                             + if ChangesRecord(p, e) then [a] else []
  {
    PresentRecord(s, e);
    ReachesByTasks(s, Present(s, e), e);
    assert Present(s, e).caps == s.caps;
    hide Present, ReachesNow, Refreshed, NewAgent, Plain;
  }

  lemma ApplyIsRecent(s: State, ids: seq<string>, e: EventEnvelope)
    requires Structure(s) && Recent(s, ids)
    ensures Recent(Apply(s, e), ids + Touches(s, e))
  {
    hide Structure, Recent, Apply, Present, Touches, Owner, ChangesRecord;
    var p, a := Present(s, e), e.agent.agentId;
    PresentIsRecent(s, ids, e);
    RestIsRecent(s, ids + [a], e);
    SameOwner(s, e);
    var owner, own := if EventKey(e).Some? then Owner(p, EventKey(e).value) else [], if ChangesRecord(p, e) then [a] else [];
    assert ids + [a] + owner + own == ids + ([a] + owner + own);
  }

  // ---------- whole runs ----------

  /** After any run the retained agents are the most recently touched ones, as many as fit, in
      that order. */
  lemma {:induction false} RetainedAgentsAreTheMostRecent(caps: Capacities, ops: seq<Op>)
    ensures Run(Initial(caps), ops).caps == caps && Recent(Run(Initial(caps), ops), Touched(caps, ops))
    decreases |ops|
  {
    WindowHoldsRecentIds(caps, ops);
    if ops != [] {
      var op, before := ops[|ops| - 1], ops[..|ops| - 1];
      WindowHoldsRecentIds(caps, before);
      RetainedAgentsAreTheMostRecent(caps, before);
      var s := Run(Initial(caps), before);
      hide Step, Structure, Recent, Touches, Presented, RecentFirst, Take;
      if Accepts(s, op) {
        ApplyIsRecent(s, Touched(caps, before), op.event);
        AcceptedIsRecent(s, op, Touched(caps, before) + Touches(s, op.event));
      } else {
        assert Touched(caps, before) + [] == Touched(caps, before);
        OnlyAcceptedStepsChangeProjections(s, op);
        SameRecent(s, Step(s, op), Touched(caps, before));
      }
    } else {
      NobodyTouched(caps);
    }
  }

  lemma AcceptedIsRecent(s: State, op: Op, ids: seq<string>)
    requires Accepts(s, op) && Recent(Apply(s, op.event), ids)
    ensures Recent(Step(s, op), ids)
  {
    hide Apply, Push, RecentFirst, Take;
  }

  lemma SameRecent(s: State, r: State, ids: seq<string>)
    requires Recent(s, ids) && r.agents == s.agents && r.caps == s.caps
    ensures Recent(r, ids)
  {}

  lemma NobodyTouched(caps: Capacities)
    ensures Recent(Initial(caps), [])
  {}
}
