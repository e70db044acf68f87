/** Every field of a retained agent's record except its counters, read off the accepted events
    of the agent since it was last admitted (`src/store.rs`). */
module AgentHistory {
  import opened Model
  import opened Lru
  import opened Histories
  import opened StoreSpec
  import opened StoreTasks
  import opened TaskHistory

  // ---------- which events reach the record ----------

  /** The accepted events of agent `a` since its admission; none if it is not retained. */
  function Seen(caps: Capacities, ops: seq<Op>, a: string): seq<EventEnvelope> {
    if ops == [] || a !in Run(Initial(caps), ops).agents.data then []
    else
      var op, before := ops[|ops| - 1], ops[..|ops| - 1];
      if Accepts(Run(Initial(caps), before), op) && op.event.agent.agentId == a
      then Seen(caps, before, a) + [op.event] else Seen(caps, before, a)
  }

  /** A start, a report or a completion reaches the agent only if it took effect on its task. */
  predicate Reaches(e: EventEnvelope, h: seq<EventEnvelope>) {
    e.event.TaskStarted? || e.event.ProgressUpdated? || e.event.TaskCompleted? ==> TakesEffect(h, e)
  }

  /** The effective history of the task that the event names. */
  function TaskBefore(caps: Capacities, ops: seq<Op>, e: EventEnvelope): seq<EventEnvelope> {
    match EventKey(e)
    case None => []
    case Some(k) => Effective(Named(caps, ops, k))
  }

  function Reaching(caps: Capacities, ops: seq<Op>, a: string): seq<EventEnvelope> {
    if ops == [] || a !in Run(Initial(caps), ops).agents.data then []
    else
      var op, before := ops[|ops| - 1], ops[..|ops| - 1];
      if Accepts(Run(Initial(caps), before), op) && op.event.agent.agentId == a && Reaches(op.event, TaskBefore(caps, before, op.event))
      then Reaching(caps, before, a) + [op.event] else Reaching(caps, before, a)
  }

  // ---------- what the fields say about the history ----------

  predicate Registers(e: EventEnvelope) { e.event.AgentRegistered? }

  predicate Declares(e: EventEnvelope) { e.event.GoalDeclared? }

  predicate Errs(e: EventEnvelope) { e.event.ErrorObserved? }

  predicate HasSession(e: EventEnvelope) { e.sessionId.Some? }

  predicate SetsActive(e: EventEnvelope) {
    || (e.event.Heartbeat? && e.event.activeTaskId.Some?)
    || e.event.TaskStarted? || e.event.ProgressUpdated? || e.event.TaskCompleted?
  }

  /** The status an event gives its agent whatever it was before. */
  function StatusSet(e: EventEnvelope): Option<AgentStatus> {
    match e.event
    case Heartbeat(status, _) => status
    case TaskStarted(_, _, _) => Some(AgentStatus.Running)
    case ProgressUpdated(_, _, _, blocker, _) => Some(if blocker == None then AgentStatus.Running else AgentStatus.Blocked)
    case ErrorObserved(_) => Some(AgentStatus.Blocked)
    case TaskCompleted(_, outcome, _, _) =>
      Some(if outcome.Succeeded? || outcome.Partial? then AgentStatus.Completed else AgentStatus.Failed)
    case AgentStatusChanged(status) => Some(status)
    case _ => None
  }

  /** The status an event gives an idle agent. */
  function StatusOffered(e: EventEnvelope): Option<AgentStatus> {
    match e.event
    case AgentRegistered(_, _, _, status) => Some(status)
    case GoalDeclared(_) => Some(AgentStatus.Planning)
    case _ => None
  }

  function StatusIn(h: seq<EventEnvelope>): AgentStatus {
    if h == [] then AgentStatus.Idle
    else
      var before, e := StatusIn(h[..|h| - 1]), h[|h| - 1];
      if StatusSet(e).Some? then StatusSet(e).value
      else if before.Idle? && StatusOffered(e).Some? then StatusOffered(e).value
      else before
  }

  /** The earliest of the admission and all registrations. */
  function Registered(h: seq<EventEnvelope>): Time
    requires h != []
  {
    if |h| == 1 then h[0].occurredAt
    else
      var at, e := Registered(h[..|h| - 1]), h[|h| - 1];
      if Registers(e) then MinTime(at, e.occurredAt) else at
  }

  ghost predicate IdentityFollows(r: AgentState, a: string, seen: seq<EventEnvelope>)
    requires seen != []
  {
    && r.agent == seen[|seen| - 1].agent && r.lastSeenAt == Latest(seen) && r.registeredAt == Registered(seen)
    && (match LastWhere(seen, HasSession)
        case None => r.sessionId == None
        case Some(e) => r.sessionId == e.sessionId)
    && (match LastWhere(seen, Registers)
        case None => r.displayName == a && r.capabilities == [] && r.metadata == map[]
        case Some(e) =>
          e.event.AgentRegistered? && r.displayName == e.event.displayName && r.capabilities == e.event.capabilities
          && r.metadata == e.event.metadata)
  }

  ghost predicate ReportsFollow(r: AgentState, seen: seq<EventEnvelope>) {
    && (match LastWhere(seen, Declares)
        case None => r.currentGoalId == None
        case Some(e) => e.event.GoalDeclared? && r.currentGoalId == Some(e.event.goal.goalId))
    && (match LastWhere(seen, Reflects)
        case None => r.latestReflection == None
        case Some(e) => e.event.ReflectionRecorded? && r.latestReflection == Some(e.event.reflection))
    && (match LastWhere(seen, Errs)
        case None => r.latestError == None
        case Some(e) => e.event.ErrorObserved? && r.latestError == Some(e.event.error))
  }

  /** The status as set or offered last; the active task as last named, none after a completion. */
  ghost predicate ActivityFollows(r: AgentState, reaching: seq<EventEnvelope>) {
    && r.status == StatusIn(reaching)
    && (match LastWhere(reaching, SetsActive)
        case None => r.activeTaskId == None
        case Some(e) =>
          && (e.event.Heartbeat? ==> r.activeTaskId == e.event.activeTaskId)
          && (e.event.TaskStarted? ==> r.activeTaskId == Some(e.event.startedId))
          && (e.event.ProgressUpdated? ==> r.activeTaskId == Some(e.event.progressedId))
          && (e.event.TaskCompleted? ==> r.activeTaskId == None))
  }

  ghost predicate RecordFollows(r: AgentState, a: string, seen: seq<EventEnvelope>, reaching: seq<EventEnvelope>) {
    seen != [] && IdentityFollows(r, a, seen) && ReportsFollow(r, seen) && ActivityFollows(r, reaching)
  }

  // ---------- one event ----------

  /** The record without its counters. */
  function Plain(r: AgentState): AgentState { r.(completedTasks := 0, failedTasks := 0) }

  lemma PlainFollows(r: AgentState, q: AgentState, a: string, seen: seq<EventEnvelope>, reaching: seq<EventEnvelope>)
    requires RecordFollows(r, a, seen, reaching) && Plain(r) == Plain(q)
    ensures RecordFollows(q, a, seen, reaching)
  {
    hide LastWhere, Latest, Registered, StatusIn;
    assert q == r.(completedTasks := q.completedTasks, failedTasks := q.failedTasks);
  }

  lemma Snoc(h: seq<EventEnvelope>, e: EventEnvelope)
    ensures h != [] ==> Registered(h + [e]) == if Registers(e) then MinTime(Registered(h), e.occurredAt) else Registered(h)
    ensures StatusIn(h + [e]) == if StatusSet(e).Some? then StatusSet(e).value
                                 else if StatusIn(h).Idle? && StatusOffered(e).Some? then StatusOffered(e).value
                                 else StatusIn(h)
  {
    assert (h + [e])[..|h|] == h;
  }

  /** What the record becomes: refreshed by every event, changed by those that reach it. */
  function After(r: AgentState, e: EventEnvelope, reached: bool): AgentState {
    var q := Refreshed(r, e);
    if reached && !e.event.TaskCreated? && !e.event.LessonLearned? then AgentAfter(q, e, None) else q
  }

  /** The fields that only a refresh or a registration changes. */
  ghost predicate SameIdentity(r: AgentState, q: AgentState) {
    && q.agent == r.agent && q.lastSeenAt == r.lastSeenAt && q.registeredAt == r.registeredAt && q.sessionId == r.sessionId
    && q.displayName == r.displayName && q.capabilities == r.capabilities && q.metadata == r.metadata
  }

  lemma OnlyRegistrationChangesIdentity(r: AgentState, e: EventEnvelope)
    requires !Registers(e)
    ensures SameIdentity(r, AgentAfter(r, e, None))
  {}

  lemma NextIdentity(r: AgentState, a: string, seen: seq<EventEnvelope>, e: EventEnvelope, reached: bool)
    requires seen != [] && IdentityFollows(r, a, seen) && (Registers(e) ==> reached)
    ensures IdentityFollows(After(r, e, reached), a, seen + [e])
  {
    Snoc(seen, e);
    TaskHistory.Snoc(seen, e);
    LastWhereNext(seen, e, HasSession);
    LastWhereNext(seen, e, Registers);
    if Registers(e) {
      hide LastWhere, Latest, Registered, StatusIn;
    } else {
      OnlyRegistrationChangesIdentity(Refreshed(r, e), e);
      hide LastWhere, Latest, Registered, StatusIn, AgentAfter;
    }
  }

  lemma NextReports(r: AgentState, seen: seq<EventEnvelope>, e: EventEnvelope, reached: bool)
    requires ReportsFollow(r, seen) && (Declares(e) || Reflects(e) || Errs(e) ==> reached)
    ensures ReportsFollow(After(r, e, reached), seen + [e])
  {
    LastWhereNext(seen, e, Declares);
    LastWhereNext(seen, e, Reflects);
    LastWhereNext(seen, e, Errs);
    hide LastWhere;
  }

  lemma NextActivity(r: AgentState, reaching: seq<EventEnvelope>, e: EventEnvelope, reached: bool)
    requires ActivityFollows(r, reaching)
    ensures ActivityFollows(After(r, e, reached), if reached then reaching + [e] else reaching)
  {
    Snoc(reaching, e);
    LastWhereNext(reaching, e, SetsActive);
    hide LastWhere, StatusIn, Registered;
  }

  lemma NextRecord(r: AgentState, a: string, seen: seq<EventEnvelope>, reaching: seq<EventEnvelope>, e: EventEnvelope,
                   reached: bool)
    requires RecordFollows(r, a, seen, reaching)
    requires Registers(e) || Declares(e) || Reflects(e) || Errs(e) ==> reached
    ensures RecordFollows(After(r, e, reached), a, seen + [e], if reached then reaching + [e] else reaching)
  {
    hide After, IdentityFollows, ReportsFollow, ActivityFollows;
    NextIdentity(r, a, seen, e, reached);
    NextReports(r, seen, e, reached);
    NextActivity(r, reaching, e, reached);
  }

  lemma FirstIdentity(s: State, e: EventEnvelope, reached: bool)
    requires Registers(e) ==> reached
    ensures IdentityFollows(After(NewAgent(s, e), e, reached), e.agent.agentId, [e])
  {
    LastWhereOne(e, HasSession);
    LastWhereOne(e, Registers);
    if Registers(e) {
      hide LastWhere, Bucketed;
    } else {
      OnlyRegistrationChangesIdentity(Refreshed(NewAgent(s, e), e), e);
      hide LastWhere, Bucketed, AgentAfter;
    }
  }

  lemma FirstRecord(s: State, e: EventEnvelope, reached: bool)
    requires Registers(e) || Declares(e) || Reflects(e) || Errs(e) ==> reached
    ensures RecordFollows(After(NewAgent(s, e), e, reached), e.agent.agentId, [e], if reached then [e] else [])
  {
    FirstIdentity(s, e, reached);
    NewRecordFollows(s, e);
    NextReports(NewAgent(s, e), [], e, reached);
    NextActivity(NewAgent(s, e), [], e, reached);
    assert [] + [e] == [e];
    hide After, IdentityFollows, ReportsFollow, ActivityFollows, NewAgent;
  }

  lemma NewRecordFollows(s: State, e: EventEnvelope)
    ensures ReportsFollow(NewAgent(s, e), []) && ActivityFollows(NewAgent(s, e), [])
  {}

  // ---------- one step of the store ----------

  /** Every record of `q` except that of `a` is a record of `p`, up to its counters. */
  ghost predicate OthersPlain(p: State, q: State, a: string) {
    forall b :: b in q.agents.data && b != a ==> b in p.agents.data && Plain(q.agents.data[b]) == Plain(p.agents.data[b])
  }

  lemma UncountIsPlain(agent: AgentState, outcome: Option<TaskOutcome>)
    ensures Plain(Uncount(agent, outcome)) == Plain(agent)
  {}

  lemma AfterForgetsOutcome(agent: AgentState, e: EventEnvelope, p: Option<TaskOutcome>)
    ensures Plain(AgentAfter(agent, e, p)) == Plain(AgentAfter(agent, e, None))
  {
    var open := agent.(activeTaskId := None);
    UncountIsPlain(agent, p);
    UncountIsPlain(agent, None);
    UncountIsPlain(open, p);
    UncountIsPlain(open, None);
    hide Uncount;
  }

  lemma AfterIgnoresCounters(x: AgentState, y: AgentState, e: EventEnvelope)
    requires Plain(x) == Plain(y)
    ensures Plain(AgentAfter(x, e, None)) == Plain(AgentAfter(y, e, None))
  {
    assert y == x.(completedTasks := y.completedTasks, failedTasks := y.failedTasks);
  }

  lemma PresentRecord(s: State, e: EventEnvelope)
    ensures var a := e.agent.agentId;
            && Present(s, e).tasks == s.tasks && a in Present(s, e).agents.data
            && Present(s, e).agents.data[a] == Refreshed(if a in s.agents.data then s.agents.data[a] else NewAgent(s, e), e)
            && OthersPlain(s, Present(s, e), a)
  {
    hide Refreshed, NewAgent, Without;
  }

  lemma EnsureTaskRecords(s: State, k: ScopedId, at: Time, b: string)
    ensures b in EnsureTask(s, k, at).agents.data <==> b in s.agents.data
    ensures b in s.agents.data ==> Plain(EnsureTask(s, k, at).agents.data[b]) == Plain(s.agents.data[b])
  {
    InsertTaskRecords(s, k, NewTask(InferredSpec(k.entityId), k.agentId, at, true), b);
    hide InsertTask, Plain;
  }

  lemma InsertTaskRecords(s: State, k: ScopedId, t: TaskState, b: string)
    ensures b in InsertTask(s, k, t).agents.data <==> b in s.agents.data
    ensures b in s.agents.data ==> Plain(InsertTask(s, k, t).agents.data[b]) == Plain(s.agents.data[b])
  {
    if Evicts(s.tasks, s.caps.tasks, k) && Oldest(s.tasks) in s.tasks.data {
      var victim := s.tasks.data[Oldest(s.tasks)];
      if victim.agentId in s.agents.data { UncountIsPlain(s.agents.data[victim.agentId], victim.outcome); }
    }
    hide Uncount, Push, Plain;
  }

  /** In a state, an event reaches its agent unless it is outdated for its task. */
  predicate ReachesNow(s: State, e: EventEnvelope) {
    (e.event.TaskStarted? || e.event.ProgressUpdated? || e.event.TaskCompleted?) ==>
      match EventKey(e)
      case Some(k) => Updates(s.tasks.data, k, e)
      case None => true
  }

  /** `q` is `p` with the record of `a` replaced, up to counters, by `r`. */
  ghost predicate RecordBecomes(p: State, q: State, a: string, r: AgentState) {
    && (a in q.agents.data ==> Plain(q.agents.data[a]) == Plain(r))
    && OthersPlain(p, q, a)
  }

  lemma UpdatedRecord(p: State, e: EventEnvelope, previous: Option<TaskOutcome>)
    ensures var a := e.agent.agentId;
            a in p.agents.data ==> RecordBecomes(p, UpdateAgent(p, e, previous), a, AgentAfter(p.agents.data[a], e, None))
  {
    var a := e.agent.agentId;
    if a in p.agents.data { AfterForgetsOutcome(p.agents.data[a], e, previous); }
    hide AgentAfter, Without;
  }

  lemma OnTaskRecords(p: State, k: ScopedId, e: EventEnvelope)
    requires EventKey(e) == Some(k) && !e.event.TaskCreated? && e.agent.agentId in p.agents.data
    ensures var a := e.agent.agentId;
            var r := p.agents.data[a];
            RecordBecomes(p, OnTask(p, k, e), a, if ReachesNow(p, e) then AgentAfter(r, e, None) else r)
  {
    var a, at := e.agent.agentId, e.occurredAt;
    var p1 := EnsureTask(p, k, at);
    forall b ensures (b in p1.agents.data <==> b in p.agents.data)
                     && (b in p.agents.data ==> Plain(p1.agents.data[b]) == Plain(p.agents.data[b]))
    {
      EnsureTaskRecords(p, k, at, b);
    }
    EnsuredTaskIsFound(p, k, at);
    var t := p1.tasks.data[k];
    var p2 := SetTask(p1, k, Gated(t, e));
    UpdatedRecord(p2, e, t.outcome);
    AfterIgnoresCounters(p1.agents.data[a], p.agents.data[a], e);
    hide AgentAfter, Plain, EnsureTask, UpdateAgent, Gated, Found;
  }

  lemma EnsuredTaskIsFound(s: State, k: ScopedId, at: Time)
    ensures EnsureTask(s, k, at).tasks.data[k] == Found(s.tasks.data, k, at)
  {}

  lemma DefineTaskRecords(p: State, k: ScopedId, spec: TaskSpec, at: Time, a: string)
    requires a in p.agents.data
    ensures RecordBecomes(p, DefineTask(p, k, spec, at), a, p.agents.data[a])
  {
    forall b ensures var q := InsertTask(p, k, NewTask(spec, k.agentId, at, false));
                     (b in q.agents.data <==> b in p.agents.data)
                     && (b in p.agents.data ==> Plain(q.agents.data[b]) == Plain(p.agents.data[b]))
    {
      InsertTaskRecords(p, k, NewTask(spec, k.agentId, at, false), b);
    }
    hide InsertTask, Plain, Redefined, NewTask;
  }

  lemma ReachesByTasks(s: State, p: State, e: EventEnvelope)
    requires p.tasks == s.tasks
    ensures ReachesNow(p, e) == ReachesNow(s, e)
  {}

  /** What happens to the records after the event's agent is present. */
  lemma PresentedRecords(s: State, e: EventEnvelope)
    ensures var a, p := e.agent.agentId, Present(s, e);
            RecordBecomes(p, Apply(s, e), a,
                          if ReachesNow(p, e) && !e.event.TaskCreated? && !e.event.LessonLearned?
                          then AgentAfter(p.agents.data[a], e, None) else p.agents.data[a])
  {
    hide NewAgent, AgentAfter, Refreshed, Present, OnTask, UpdateAgent, DefineTask, Plain, Found, RecordBecomes, Push;
    var a := e.agent.agentId;
    var p := Present(s, e);
    if e.event.TaskCreated? {
      DefineTaskRecords(p, ScopedId(a, e.event.spec.taskId), e.event.spec, e.occurredAt, a);
    } else if TaskIdOf(e.event).Some? {
      OnTaskRecords(p, ScopedId(a, TaskIdOf(e.event).value), e);
    } else if e.event.GoalDeclared? {
      GoalRecords(p, e);
    } else if e.event.LessonLearned? {
      LessonRecords(p, e);
    } else {
      UpdatedRecord(p, e, None);
    }
  }

  lemma GoalRecords(p: State, e: EventEnvelope)
    requires e.event.GoalDeclared? && e.agent.agentId in p.agents.data
    ensures var a := e.agent.agentId;
            var q := PushGoal(p, ScopedId(a, e.event.goal.goalId), GoalState(e.event.goal, a, e.occurredAt));
            RecordBecomes(p, UpdateAgent(q, e, None), a, AgentAfter(p.agents.data[a], e, None))
  {
    var a := e.agent.agentId;
    var q := PushGoal(p, ScopedId(a, e.event.goal.goalId), GoalState(e.event.goal, a, e.occurredAt));
    hide AgentAfter, UpdateAgent, Plain, Push;
    UpdatedRecord(q, e, None);
  }

  lemma LessonRecords(p: State, e: EventEnvelope)
    requires e.event.LessonLearned? && e.agent.agentId in p.agents.data
    ensures var a := e.agent.agentId;
            RecordBecomes(p, PushLesson(p, ScopedId(a, e.event.lesson.lessonId), e.event.lesson, e.occurredAt), a, p.agents.data[a])
  {
    hide Plain, Push;
  }

  lemma BecomesAfter(s: State, p: State, q: State, a: string, r: AgentState)
    requires OthersPlain(s, p, a) && RecordBecomes(p, q, a, r)
    ensures RecordBecomes(s, q, a, r)
  {
    hide Plain;
  }

  /** An accepted event changes its own agent's record as `After` says and leaves every other
      record alone, up to counters. */
  lemma ApplyRecords(s: State, e: EventEnvelope)
    ensures var a := e.agent.agentId;
            RecordBecomes(s, Apply(s, e), a,
                          After(if a in s.agents.data then s.agents.data[a] else NewAgent(s, e), e, ReachesNow(s, e)))
  {
    hide NewAgent, AgentAfter, Refreshed, Present, Apply, Plain, ReachesNow, RecordBecomes, OthersPlain;
    var a := e.agent.agentId;
    var p := Present(s, e);
    PresentRecord(s, e);
    ReachesByTasks(s, p, e);
    PresentedRecords(s, e);
    BecomesAfter(s, p, Apply(s, e), a,
                 After(if a in s.agents.data then s.agents.data[a] else NewAgent(s, e), e, ReachesNow(s, e)));
  }

  // ---------- whole runs ----------

  lemma StepRecords(s: State, op: Op)
    ensures !Accepts(s, op) ==> Step(s, op).agents == s.agents
    ensures Accepts(s, op) ==> Step(s, op).agents == Apply(s, op.event).agents
  {
    hide Apply;
  }

  /** In a state that follows its history, the history decides what reaches an agent. */
  lemma ReachesByHistory(caps: Capacities, ops: seq<Op>, e: EventEnvelope)
    ensures ReachesNow(Run(Initial(caps), ops), e) <==> Reaches(e, TaskBefore(caps, ops, e))
  {
    match EventKey(e)
    case None =>
    case Some(k) =>
      TasksFollowTheirHistory(caps, ops, k);
      EffectiveNothing();
      hide Run, Named, Effective, DefinitionFollows, StartFollows, ProgressFollows, AdviceFollows, StatusFollows, OutcomeFollows;
  }

  lemma StepRecordFollows(s: State, op: Op, a: string, seen: seq<EventEnvelope>, reaching: seq<EventEnvelope>)
    requires a in Step(s, op).agents.data
    requires if a in s.agents.data then RecordFollows(s.agents.data[a], a, seen, reaching) else seen == [] && reaching == []
    ensures var own := Accepts(s, op) && op.event.agent.agentId == a;
            RecordFollows(Step(s, op).agents.data[a], a, if own then seen + [op.event] else seen,
                          if own && ReachesNow(s, op.event) then reaching + [op.event] else reaching)
  {
    hide Step, Apply, RecordFollows, After, Plain, NewAgent, ValidEvent;
    StepRecords(s, op);
    if Accepts(s, op) {
      var e := op.event;
      ApplyRecords(s, e);
      var now := Step(s, op).agents.data[a];
      if e.agent.agentId == a {
        var reached := ReachesNow(s, e);
        var r := if a in s.agents.data then s.agents.data[a] else NewAgent(s, e);
        if a in s.agents.data {
          NextRecord(r, a, seen, reaching, e, reached);
        } else {
          FirstRecord(s, e, reached);
          assert [] + [e] == [e];
        }
        PlainFollows(After(r, e, reached), now, a, seen + [e], if reached then reaching + [e] else reaching);
      } else {
        PlainFollows(s.agents.data[a], now, a, seen, reaching);
      }
    }
  }

  /** After any run every field of a retained agent's record, except its counters, is what the
      accepted events of the agent since its admission say. */
  lemma {:induction false} AgentsFollowTheirHistory(caps: Capacities, ops: seq<Op>, a: string)
    ensures var s := Run(Initial(caps), ops);
            if a in s.agents.data then RecordFollows(s.agents.data[a], a, Seen(caps, ops, a), Reaching(caps, ops, a))
            else Seen(caps, ops, a) == [] && Reaching(caps, ops, a) == []
    decreases |ops|
  {
    hide RecordFollows, Step, ReachesNow, Reaches, TaskBefore, Accepts;
    if ops != [] && a in Run(Initial(caps), ops).agents.data {
      var op, before := ops[|ops| - 1], ops[..|ops| - 1];
      AgentsFollowTheirHistory(caps, before, a);
      if op.Submit? { ReachesByHistory(caps, before, op.event); }
      StepRecordFollows(Run(Initial(caps), before), op, a, Seen(caps, before, a), Reaching(caps, before, a));
      AcceptsSubmissions(Run(Initial(caps), before), op);
    }
  }

  lemma AcceptsSubmissions(s: State, op: Op)
    ensures Accepts(s, op) ==> op.Submit?
  {}
}
