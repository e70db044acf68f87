/** The store reducer of `src/store.rs` as a function from state to state.  Each locked
    section of the source is one step. */
module StoreSpec {
  import opened Model
  import opened Lru

  /** Cache capacities are validated to be positive and fit a machine word. */
  type Capacity = n: nat | 0 < n <= U64_MAX witness 1

  datatype Capacities = Capacities(agents: Capacity, goals: Capacity, tasks: Capacity, lessons: Capacity,
                                   events: Capacity, idempotency: Capacity)

  datatype Evictions = Evictions(agents: nat, goals: nat, tasks: nat, lessons: nat, events: nat, idempotency: nat)

  datatype Counters = Counters(accepted: nat, duplicate: nat, rejected: nat,
                               acceptedBy: map<Transport, nat>, rejectedBy: map<Transport, nat>)

  datatype State = State(
    caps: Capacities,
    agents: Cache<string, AgentState>,
    goals: Cache<ScopedId, GoalState>,
    tasks: Cache<ScopedId, TaskState>,
    lessons: Cache<ScopedId, LessonState>,
    events: Cache<Uuid, EventRecord>,
    seen: Cache<Uuid, nat>,
    evictions: Evictions,
    counters: Counters,
    revision: nat)

  function Initial(caps: Capacities): State {
    State(caps, Empty(), Empty(), Empty(), Empty(), Empty(), Empty(), Evictions(0, 0, 0, 0, 0, 0),
          Counters(0, 0, 0, map[], map[]), 0)
  }

  // ---------- completion counters ----------

  datatype Bucket = CompletedBucket | FailedBucket

  function BucketOf(outcome: TaskOutcome): Bucket {
    match outcome
    case Succeeded => CompletedBucket
    case Partial => CompletedBucket
    case Failed => FailedBucket
    case Canceled => FailedBucket
  }

  predicate InBucket(outcome: Option<TaskOutcome>, b: Bucket) {
    outcome.Some? && BucketOf(outcome.value) == b
  }

  /** The retained tasks of agent `a` whose outcome falls in bucket `b`. */
  function Bucketed(tasks: map<ScopedId, TaskState>, a: string, b: Bucket): set<ScopedId> {
    set k | k in tasks && tasks[k].agentId == a && InBucket(tasks[k].outcome, b)
  }

  function Uncount(agent: AgentState, outcome: Option<TaskOutcome>): AgentState {
    match outcome
    case None => agent
    case Some(o) =>
      match BucketOf(o)
      case CompletedBucket => agent.(completedTasks := SaturatingSub(agent.completedTasks, 1))
      case FailedBucket => agent.(failedTasks := SaturatingSub(agent.failedTasks, 1))
  }

  function Recount(agent: AgentState, previous: Option<TaskOutcome>, current: TaskOutcome): AgentState {
    var counted :=
      if InBucket(previous, BucketOf(current)) then agent
      else
        var cleared := Uncount(agent, previous);
        match BucketOf(current)
        case CompletedBucket => cleared.(completedTasks := SaturatingAdd(cleared.completedTasks, 1))
        case FailedBucket => cleared.(failedTasks := SaturatingAdd(cleared.failedTasks, 1));
    counted.(status := if BucketOf(current).CompletedBucket? then AgentStatus.Completed else AgentStatus.Failed)
  }

  // ---------- agents ----------

  function NewAgent(s: State, e: EventEnvelope): AgentState {
    var a := e.agent.agentId;
    AgentState(e.agent, a, [], map[], AgentStatus.Idle, e.sessionId, None, None, e.occurredAt, e.occurredAt,
               |Bucketed(s.tasks.data, a, CompletedBucket)|, |Bucketed(s.tasks.data, a, FailedBucket)|, None, None)
  }

  function EnsureAgent(s: State, e: EventEnvelope): (r: State)
    ensures e.agent.agentId in r.agents.data
  {
    var a := e.agent.agentId;
    if a in s.agents.data then s
    else s.(agents := Push(s.agents, s.caps.agents, a, NewAgent(s, e)),
            evictions := if Evicts(s.agents, s.caps.agents, a)
            then s.evictions.(agents := SaturatingAdd(s.evictions.agents, 1)) else s.evictions)
  }

  /** Every event refreshes the reference, the last-seen time and the session. */
  function Refreshed(agent: AgentState, e: EventEnvelope): AgentState {
    agent.(agent := e.agent, lastSeenAt := MaxTime(agent.lastSeenAt, e.occurredAt),
           sessionId := if e.sessionId.Some? then e.sessionId else agent.sessionId)
  }

  function SetAgent(s: State, a: string, agent: AgentState): State {
    s.(agents := Put(s.agents, a, agent))
  }

  function Present(s: State, e: EventEnvelope): (r: State)
    ensures e.agent.agentId in r.agents.data
  {
    var s1 := EnsureAgent(s, e);
    SetAgent(s1, e.agent.agentId, Refreshed(s1.agents.data[e.agent.agentId], e))
  }

  /** What an event does to its agent's record, `previous` being the outcome that the
      event's task held before. */
  function AgentAfter(agent: AgentState, e: EventEnvelope, previous: Option<TaskOutcome>): AgentState {
    match e.event
    case AgentRegistered(displayName, capabilities, metadata, status) =>
      agent.(displayName := displayName, capabilities := capabilities, metadata := metadata,
             status := if agent.status.Idle? then status else agent.status,
             registeredAt := MinTime(agent.registeredAt, e.occurredAt))
    case Heartbeat(status, activeTaskId) =>
      agent.(status := if status.Some? then status.value else agent.status,
             activeTaskId := if activeTaskId.Some? then activeTaskId else agent.activeTaskId)
    case GoalDeclared(goal) =>
      agent.(currentGoalId := Some(goal.goalId),
             status := if agent.status.Idle? then AgentStatus.Planning else agent.status)
    case TaskStarted(id, _, _) =>
      Uncount(agent, previous).(status := AgentStatus.Running, activeTaskId := Some(id))
    case ProgressUpdated(id, _, _, blocker, _) =>
      Uncount(agent, previous).(status := if blocker.Some? then AgentStatus.Blocked else AgentStatus.Running,
                                activeTaskId := Some(id))
    case ReflectionRecorded(reflection) => agent.(latestReflection := Some(reflection))
    case ErrorObserved(error) => agent.(latestError := Some(error), status := AgentStatus.Blocked)
    case TaskCompleted(_, outcome, _, _) => Recount(agent.(activeTaskId := None), previous, outcome)
    case AgentStatusChanged(status) => agent.(status := status)
    case TaskCreated(_) => agent
    case LessonLearned(_) => agent
  }

  function UpdateAgent(s: State, e: EventEnvelope, previous: Option<TaskOutcome>): State {
    var a := e.agent.agentId;
    if a in s.agents.data then SetAgent(s, a, AgentAfter(s.agents.data[a], e, previous)) else s
  }

  // ---------- tasks ----------

  function NewTask(spec: TaskSpec, a: string, at: Time, inferred: bool): TaskState {
    TaskState(spec, a, TaskStatus.Pending, 0.0, 0, None, None, None, None, None, None, None, [], inferred,
              at, at, None, None, at)
  }

  function InferredSpec(id: string): TaskSpec {
    TaskSpec(id, "Task " + id, None, [], ["inferred"], None)
  }

  /** Insert a task; when that displaces another one, its owner stops counting it. */
  function InsertTask(s: State, k: ScopedId, t: TaskState): (r: State)
    ensures k in r.tasks.data && r.agents.data.Keys == s.agents.data.Keys
  {
    var s1 := s.(tasks := Push(s.tasks, s.caps.tasks, k, t));
    if Evicts(s.tasks, s.caps.tasks, k) && Oldest(s.tasks) in s.tasks.data then
      var victim := s.tasks.data[Oldest(s.tasks)];
      var s2 := s1.(evictions := s.evictions.(tasks := SaturatingAdd(s.evictions.tasks, 1)));
      if victim.agentId in s2.agents.data
      then SetAgent(s2, victim.agentId, Uncount(s2.agents.data[victim.agentId], victim.outcome))
      else s2
    else s1
  }

  function EnsureTask(s: State, k: ScopedId, at: Time): (r: State)
    ensures k in r.tasks.data && r.agents.data.Keys == s.agents.data.Keys
  {
    if k in s.tasks.data then s
    else InsertTask(s, k, NewTask(InferredSpec(k.entityId), k.agentId, at, true))
  }

  function SetTask(s: State, k: ScopedId, t: TaskState): State {
    s.(tasks := Put(s.tasks, k, t))
  }

  function Redefined(t: TaskState, spec: TaskSpec, a: string, at: Time): TaskState {
    if t.inferred || at >= t.definitionUpdatedAt then
      t.(task := spec, agentId := a, inferred := false, definitionUpdatedAt := at,
         createdAt := MinTime(t.createdAt, at), updatedAt := MaxTime(t.updatedAt, at))
    else t
  }

  function DefineTask(s: State, k: ScopedId, spec: TaskSpec, at: Time): State {
    if k in s.tasks.data then SetTask(s, k, Redefined(s.tasks.data[k], spec, k.agentId, at))
    else InsertTask(s, k, NewTask(spec, k.agentId, at, false))
  }

  function StatusOf(outcome: TaskOutcome): TaskStatus {
    match outcome
    case Succeeded => TaskStatus.Succeeded
    case Failed => TaskStatus.Failed
    case Canceled => TaskStatus.Canceled
    case Partial => TaskStatus.Partial
  }

  /** What an event that is not older than the task's last update does to the task. */
  function TaskAfter(t: TaskState, e: EventEnvelope): TaskState {
    match e.event
    case TaskStarted(_, attempt, planSummary) =>
      t.(outcome := None, status := TaskStatus.Running, attempt := attempt, planSummary := planSummary,
         blocker := None, completionSummary := None, artifacts := [], completedAt := None,
         startedAt := Some(e.occurredAt), updatedAt := e.occurredAt)
    case ProgressUpdated(_, progress, summary, blocker, nextAction) =>
      t.(outcome := None, progress := progress, progressSummary := Some(summary), blocker := blocker,
         nextAction := nextAction,
         status := if blocker.Some? then TaskStatus.Blocked else TaskStatus.Running,
         completionSummary := None, artifacts := [], completedAt := None, updatedAt := e.occurredAt)
    case ReflectionRecorded(reflection) =>
      t.(latestReflection := Some(reflection), nextAction := reflection.nextAction, updatedAt := e.occurredAt)
    case ErrorObserved(error) =>
      t.(blocker := Some(error.message), nextAction := error.proposedRecovery, status := TaskStatus.Blocked,
         updatedAt := e.occurredAt)
    case TaskCompleted(_, outcome, summary, artifacts) =>
      t.(status := StatusOf(outcome), progress := if outcome.Succeeded? then 1.0 else t.progress,
         outcome := Some(outcome), completionSummary := Some(summary), artifacts := artifacts, blocker := None,
         completedAt := Some(e.occurredAt), updatedAt := e.occurredAt)
    case _ => t
  }

  /** The task a lifecycle event is about. */
  function TaskIdOf(event: AgentEvent): Option<string> {
    match event
    case TaskStarted(id, _, _) => Some(id)
    case ProgressUpdated(id, _, _, _, _) => Some(id)
    case ReflectionRecorded(reflection) => reflection.taskId
    case ErrorObserved(error) => error.taskId
    case TaskCompleted(id, _, _, _) => Some(id)
    case _ => None
  }

  function Gated(t: TaskState, e: EventEnvelope): TaskState {
    if e.occurredAt >= t.updatedAt then TaskAfter(t, e) else t
  }

  /** A stale event changes neither task nor agent, except that reflections and errors
      always reach the agent; either way the task becomes the most recent one. */
  function OnTask(s: State, k: ScopedId, e: EventEnvelope): State {
    var s1 := EnsureTask(s, k, e.occurredAt);
    var t := s1.tasks.data[k];
    var s2 := SetTask(s1, k, Gated(t, e));
    if e.occurredAt >= t.updatedAt || e.event.ReflectionRecorded? || e.event.ErrorObserved?
    then UpdateAgent(s2, e, t.outcome) else s2
  }

  // ---------- goals and lessons ----------

  function PushGoal(s: State, k: ScopedId, g: GoalState): State {
    s.(goals := Push(s.goals, s.caps.goals, k, g),
       evictions := if Evicts(s.goals, s.caps.goals, k)
       then s.evictions.(goals := SaturatingAdd(s.evictions.goals, 1)) else s.evictions)
  }

  function PushLesson(s: State, k: ScopedId, lesson: Lesson, at: Time): State {
    var observations := if k in s.lessons.data then SaturatingAdd(s.lessons.data[k].observations, 1) else 1;
    s.(lessons := Push(s.lessons, s.caps.lessons, k, LessonState(lesson, k.agentId, at, observations)),
       evictions := if Evicts(s.lessons, s.caps.lessons, k)
       then s.evictions.(lessons := SaturatingAdd(s.evictions.lessons, 1)) else s.evictions)
  }

  // ---------- events ----------

  function Apply(s: State, e: EventEnvelope): State {
    var a := e.agent.agentId;
    var s1 := Present(s, e);
    match e.event
    case GoalDeclared(goal) =>
      UpdateAgent(PushGoal(s1, ScopedId(a, goal.goalId), GoalState(goal, a, e.occurredAt)), e, None)
    case TaskCreated(spec) => DefineTask(s1, ScopedId(a, spec.taskId), spec, e.occurredAt)
    case LessonLearned(lesson) => PushLesson(s1, ScopedId(a, lesson.lessonId), lesson, e.occurredAt)
    case _ =>
      match TaskIdOf(e.event)
      case Some(id) => OnTask(s1, ScopedId(a, id), e)
      case None => UpdateAgent(s1, e, None)
  }

  function Bumped(m: map<Transport, nat>, t: Transport): map<Transport, nat> {
    m[t := (if t in m then m[t] else 0) + 1]
  }

  /** The bookkeeping that follows an applied event. */
  function Record(s: State, e: EventEnvelope, transport: Transport, receivedAt: Time): State {
    var revision := SaturatingAdd(s.revision, 1);
    s.(revision := revision,
       counters := s.counters.(accepted := SaturatingAdd(s.counters.accepted, 1),
                               acceptedBy := Bumped(s.counters.acceptedBy, transport)),
       seen := Push(s.seen, s.caps.idempotency, e.eventId, revision),
       events := Push(s.events, s.caps.events, e.eventId, EventRecord(e, transport, receivedAt)),
       evictions := s.evictions.(
         idempotency := if Evicts(s.seen, s.caps.idempotency, e.eventId)
         then SaturatingAdd(s.evictions.idempotency, 1) else s.evictions.idempotency,
         events := if Evicts(s.events, s.caps.events, e.eventId)
         then SaturatingAdd(s.evictions.events, 1) else s.evictions.events))
  }

  function Accept(s: State, e: EventEnvelope, transport: Transport, receivedAt: Time): State {
    Record(Apply(s, e), e, transport, receivedAt)
  }

  function Duplicate(s: State, id: Uuid): State
    requires id in s.seen.data
  {
    s.(seen := Put(s.seen, id, s.seen.data[id]),
       counters := s.counters.(duplicate := SaturatingAdd(s.counters.duplicate, 1)))
  }

  function Rejected(s: State, transport: Transport): State {
    s.(counters := s.counters.(rejected := SaturatingAdd(s.counters.rejected, 1),
                               rejectedBy := Bumped(s.counters.rejectedBy, transport)))
  }

  datatype Op =
    | Submit(event: EventEnvelope, transport: Transport, receivedAt: Time)
    | Reject(transport: Transport)

  function Step(s: State, op: Op): State {
    match op
    case Reject(transport) => Rejected(s, transport)
    case Submit(e, transport, receivedAt) =>
      if !ValidEvent(e) then Rejected(s, transport)
      else if e.eventId in s.seen.data then Duplicate(s, e.eventId)
      else Accept(s, e, transport, receivedAt)
  }

  function Run(s: State, ops: seq<Op>): State {
    if ops == [] then s else Step(Run(s, ops[..|ops| - 1]), ops[|ops| - 1])
  }

  // ---------- structural invariant ----------

  ghost predicate CachesValid(s: State) {
    && Valid(s.agents, s.caps.agents) && Valid(s.goals, s.caps.goals) && Valid(s.tasks, s.caps.tasks)
    && Valid(s.lessons, s.caps.lessons) && Valid(s.events, s.caps.events) && Valid(s.seen, s.caps.idempotency)
  }

  /** Every entry sits under the key its own fields spell. */
  ghost predicate KeysMatch(s: State) {
    && (forall a :: a in s.agents.data ==> s.agents.data[a].agent.agentId == a)
    && (forall k :: k in s.goals.data ==> ScopedId(s.goals.data[k].agentId, s.goals.data[k].goal.goalId) == k)
    && (forall k :: k in s.tasks.data ==> ScopedId(s.tasks.data[k].agentId, s.tasks.data[k].task.taskId) == k)
    && (forall k :: k in s.lessons.data ==> ScopedId(s.lessons.data[k].agentId, s.lessons.data[k].lesson.lessonId) == k)
    && (forall id :: id in s.events.data ==> s.events.data[id].event.eventId == id)
  }
}
