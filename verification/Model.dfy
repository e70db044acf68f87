/** The entities of the control plane: the event protocol of `src/model.rs` and the
    retained projections of `src/store.rs`. */
module Model {

  datatype Option<+T> = None | Some(value: T)

  /** One past the largest `u64`. */
  const U64_LIMIT: nat := 0x1_0000_0000_0000_0000
  const U64_MAX: nat := U64_LIMIT - 1

  function SaturatingAdd(x: nat, y: nat): nat {
    if x + y > U64_MAX then U64_MAX else x + y
  }

  function SaturatingSub(x: nat, y: nat): nat {
    if x < y then 0 else x - y
  }

  /** An instant, ordered like chrono's `DateTime<Utc>`: whole seconds first, then
      sub-second nanoseconds, which reach below 2 * 10^9 in a leap second. */
  type Time = int

  const NANOS_PER_STEP: int := 2_000_000_000

  function Seconds(t: Time): int { t / NANOS_PER_STEP }

  function Nanos(t: Time): (n: nat)
    ensures n < NANOS_PER_STEP
  {
    t % NANOS_PER_STEP
  }

  function MaxTime(a: Time, b: Time): Time { if a < b then b else a }

  function MinTime(a: Time, b: Time): Time { if a < b then a else b }

  // ---------- the event protocol ----------

  /** A 128-bit identifier; Rust compares the bytes, which is numeric order. */
  type Uuid = nat

  datatype Transport = Http | WebSocket | Tcp | Udp

  datatype AgentRef = AgentRef(agentId: string, provider: string, model: string, instanceId: Option<string>)

  datatype AgentStatus = Idle | Planning | Running | Waiting | Blocked | Completed | Failed | Offline

  datatype TaskOutcome = Succeeded | Failed | Canceled | Partial

  datatype Goal = Goal(goalId: string, title: string, successCriteria: seq<string>, constraints: seq<string>,
                       parentGoalId: Option<string>)

  datatype TaskSpec = TaskSpec(taskId: string, title: string, goalId: Option<string>, dependsOn: seq<string>,
                               tags: seq<string>, expectedOutcome: Option<string>)

  datatype Evidence = Evidence(kind: string, reference: string, summary: Option<string>)

  datatype Reflection = Reflection(taskId: Option<string>, summary: string, confidence: real,
                                   evidence: seq<Evidence>, nextAction: Option<string>)

  datatype Lesson = Lesson(lessonId: string, statement: string, confidence: real, sourceTaskId: Option<string>)

  datatype ErrorObservation = ErrorObservation(taskId: Option<string>, code: string, message: string,
                                               recoverable: bool, proposedRecovery: Option<string>)

  datatype AgentEvent =
    | AgentRegistered(displayName: string, capabilities: seq<string>, metadata: map<string, string>,
                      registeredStatus: AgentStatus)
    | Heartbeat(beatStatus: Option<AgentStatus>, activeTaskId: Option<string>)
    | GoalDeclared(goal: Goal)
    | TaskCreated(spec: TaskSpec)
    | TaskStarted(startedId: string, attempt: nat, planSummary: Option<string>)
    | ProgressUpdated(progressedId: string, progress: real, summary: string, blocker: Option<string>,
                      nextAction: Option<string>)
    | ReflectionRecorded(reflection: Reflection)
    | LessonLearned(lesson: Lesson)
    | ErrorObserved(error: ErrorObservation)
    | TaskCompleted(completedId: string, outcome: TaskOutcome, completionSummary: string, artifacts: seq<string>)
    | AgentStatusChanged(newStatus: AgentStatus)

  datatype EventEnvelope = EventEnvelope(protocolVersion: string, eventId: Uuid, occurredAt: Time, agent: AgentRef,
                                         sessionId: Option<string>, event: AgentEvent)

  predicate UnitInterval(x: real) { 0.0 <= x <= 1.0 }

  /** The part of `EventEnvelope::validate` that the reducer relies on. */
  predicate ValidEvent(e: EventEnvelope) {
    && e.protocolVersion == "v1"
    && 0 < e.eventId
    && match e.event
       case TaskStarted(_, attempt, _) => attempt > 0
       case ProgressUpdated(_, progress, _, _, _) => UnitInterval(progress)
       case ReflectionRecorded(reflection) => UnitInterval(reflection.confidence)
       case LessonLearned(lesson) => UnitInterval(lesson.confidence)
       case _ => true
  }

  // ---------- retained projections ----------

  datatype TaskStatus = Pending | Running | Blocked | Succeeded | Failed | Canceled | Partial

  datatype ScopedId = ScopedId(agentId: string, entityId: string)

  datatype AgentState = AgentState(
    agent: AgentRef,
    displayName: string,
    capabilities: seq<string>,
    metadata: map<string, string>,
    status: AgentStatus,
    sessionId: Option<string>,
    currentGoalId: Option<string>,
    activeTaskId: Option<string>,
    registeredAt: Time,
    lastSeenAt: Time,
    completedTasks: nat,
    failedTasks: nat,
    latestReflection: Option<Reflection>,
    latestError: Option<ErrorObservation>)

  datatype GoalState = GoalState(goal: Goal, agentId: string, declaredAt: Time)

  datatype TaskState = TaskState(
    task: TaskSpec,
    agentId: string,
    status: TaskStatus,
    progress: real,
    attempt: nat,
    planSummary: Option<string>,
    progressSummary: Option<string>,
    blocker: Option<string>,
    nextAction: Option<string>,
    latestReflection: Option<Reflection>,
    outcome: Option<TaskOutcome>,
    completionSummary: Option<string>,
    artifacts: seq<string>,
    inferred: bool,
    definitionUpdatedAt: Time,
    createdAt: Time,
    startedAt: Option<Time>,
    completedAt: Option<Time>,
    updatedAt: Time)

  datatype LessonState = LessonState(lesson: Lesson, agentId: string, learnedAt: Time, observations: nat)

  datatype EventRecord = EventRecord(event: EventEnvelope, transport: Transport, receivedAt: Time)

  predicate IsTerminal(status: TaskStatus) {
    status.Succeeded? || status.Failed? || status.Canceled? || status.Partial?
  }

  predicate IsActive(status: TaskStatus) {
    status.Pending? || status.Running? || status.Blocked?
  }
}
