/** From a snapshot to a plan, and what the plan guarantees about it. */
module Planning {
  import opened Model
  import opened Orders
  import opened Recency
  import opened DependencyGraph
  import opened RemainingDepth
  import opened Analysis
  import opened Coordination
  import opened PlanConservation

  /** The part of a snapshot that the planner reads. */
  datatype Input = Input(now: Time, agents: seq<AgentState>, goals: seq<GoalState>, tasks: seq<TaskState>,
                         events: seq<EventRecord>)

  // ---------- indexes over the snapshot ----------

  function LookupOf(tasks: seq<TaskState>): TaskLookup {
    if tasks == [] then map[] else LookupOf(tasks[..|tasks| - 1])[KeyOf(tasks[|tasks| - 1]) := tasks[|tasks| - 1]]
  }

  function StatusesOf(agents: seq<AgentState>): map<string, AgentStatus> {
    if agents == [] then map[]
    else
      var last := agents[|agents| - 1];
      StatusesOf(agents[..|agents| - 1])[last.agent.agentId := last.status]
  }

  function GoalsOf(goals: seq<GoalState>): set<ScopedId> {
    set g | g in goals :: ScopedId(g.agentId, g.goal.goalId)
  }

  /** The task an event mentions, if any. */
  function Mentions(e: EventEnvelope): Option<string> {
    match e.event
    case TaskCreated(spec) => Some(spec.taskId)
    case TaskStarted(id, _, _) => Some(id)
    case ProgressUpdated(id, _, _, _, _) => Some(id)
    case ReflectionRecorded(reflection) => reflection.taskId
    case LessonLearned(lesson) => lesson.sourceTaskId
    case ErrorObserved(error) => error.taskId
    case TaskCompleted(id, _, _, _) => Some(id)
    case _ => None
  }

  predicate IsAbout(r: EventRecord, k: TaskKey) {
    r.event.agent.agentId == k.agent && Mentions(r.event) == Some(k.task)
  }

  function About(rs: seq<EventRecord>, k: TaskKey): seq<EventRecord> {
    if rs == [] then [] else (if IsAbout(rs[0], k) then [rs[0]] else []) + About(rs[1..], k)
  }

  predicate OldestFirst(x: EventRecord, y: EventRecord) {
    if x.event.occurredAt != y.event.occurredAt then x.event.occurredAt < y.event.occurredAt
    else x.event.eventId <= y.event.eventId
  }

  function Reverse<T>(s: seq<T>): seq<T> {
    if s == [] then [] else Reverse(s[1..]) + [s[0]]
  }

  /** The ids of the twelve newest retained events about a task, newest first. */
  function NewestIds(rs: seq<EventRecord>, k: TaskKey): seq<Uuid> {
    Map((r: EventRecord) => r.event.eventId, Take(Reverse(Sort(OldestFirst, About(rs, k))), 12))
  }

  // ---------- the plan of a snapshot ----------

  predicate TaskLe(x: TaskState, y: TaskState) { KeyLe(KeyOf(x), KeyOf(y)) }

  lemma DepthsCoverTasks(l: TaskLookup)
    ensures RemainingDepths(l, CycleMembers(l), 1).Keys == l.Keys
  {
    forall k ensures k in RemainingDepths(l, CycleMembers(l), 1) <==> k in l {
      RemainingDepthsAreLongestChains(l, 1, k);
    }
  }

  function ContextOf(lookup: TaskLookup, goals: set<ScopedId>, sources: map<TaskKey, seq<Uuid>>, now: Time, policy: Policy): Context {
    var members := CycleMembers(lookup);
    DepthsCoverTasks(lookup);
    Context(now, Normalized(policy), lookup, goals, members,
            CriticalTasks(lookup, members, RemainingDepths(lookup, members, 1)), sources)
  }

  function SourcesOf(lookup: TaskLookup, events: seq<EventRecord>): map<TaskKey, seq<Uuid>> {
    map k | k in lookup :: NewestIds(events, k)
  }

  function ContextFor(input: Input, policy: Policy): Context {
    var lookup := LookupOf(input.tasks);
    ContextOf(lookup, GoalsOf(input.goals), SourcesOf(lookup, input.events), input.now, policy)
  }

  /** The task analyses in key order; the planner's own sort of them changes nothing. */
  function Analyses(input: Input, policy: Policy): seq<TaskAnalysis> {
    var c := ContextFor(input, policy);
    Map((t: TaskState) => Analyze(c, t), Sort(TaskLe, input.tasks))
  }

  function BuildPlan(input: Input, policy: Policy, planning: PlanningPolicy): Option<Plan> {
    if !ValidPolicy(planning) then None
    else Some(PlanOf(Analyses(input, policy), StatusesOf(input.agents), planning))
  }

  // ---------- key uniqueness ----------

  ghost predicate UniqueTasks(tasks: seq<TaskState>) {
    forall i, j :: 0 <= i < j < |tasks| ==> KeyOf(tasks[i]) != KeyOf(tasks[j])
  }

  ghost predicate UniqueAgents(agents: seq<AgentState>) {
    forall i, j :: 0 <= i < j < |agents| ==> agents[i].agent.agentId != agents[j].agent.agentId
  }

  ghost predicate UniqueEvents(events: seq<EventRecord>) {
    forall i, j :: 0 <= i < j < |events| ==> events[i].event.eventId != events[j].event.eventId
  }

  ghost predicate Unique(input: Input) {
    UniqueTasks(input.tasks) && UniqueAgents(input.agents) && UniqueEvents(input.events)
  }

  lemma {:induction false} LookupIsExact(tasks: seq<TaskState>, k: TaskKey)
    requires UniqueTasks(tasks)
    ensures k in LookupOf(tasks) ==> LookupOf(tasks)[k] in tasks && KeyOf(LookupOf(tasks)[k]) == k
    ensures forall t :: t in tasks && KeyOf(t) == k ==> k in LookupOf(tasks) && LookupOf(tasks)[k] == t
  {
    if tasks != [] {
      var before, last := tasks[..|tasks| - 1], tasks[|tasks| - 1];
      LookupIsExact(before, k);
      assert tasks == before + [last];
      assert forall t :: t in before ==> KeyOf(t) != KeyOf(last);
    }
  }

  lemma {:induction false} StatusesAreExact(agents: seq<AgentState>, a: string)
    requires UniqueAgents(agents)
    ensures a in StatusesOf(agents) ==> exists x :: x in agents && x.agent.agentId == a
    ensures forall x :: x in agents && x.agent.agentId == a ==> a in StatusesOf(agents) && StatusesOf(agents)[a] == x.status
  {
    if agents != [] {
      var before, last := agents[..|agents| - 1], agents[|agents| - 1];
      StatusesAreExact(before, a);
      assert agents == before + [last];
      assert forall x :: x in before ==> x.agent.agentId != last.agent.agentId;
    }
  }
}
