/** The figures of a snapshot: what the lists show, and how lengths and evictions of the
    caches balance against what was admitted (`src/store.rs`). */
module StoreFigures {
  import opened Model
  import opened Lru
  import opened Recency
  import opened StoreSpec
  import opened StoreInvariants
  import opened StoreTasks
  import opened StoreCounters
  import opened StoreIdempotency
  import opened StoreLedger
  import opened Store

  datatype Projection = Agents | Goals | Tasks | Lessons | Events

  function Length(s: State, p: Projection): nat {
    match p
    case Agents => |s.agents.order|
    case Goals => |s.goals.order|
    case Tasks => |s.tasks.order|
    case Lessons => |s.lessons.order|
    case Events => |s.events.order|
  }

  function Evicted(s: State, p: Projection): nat {
    match p
    case Agents => s.evictions.agents
    case Goals => s.evictions.goals
    case Tasks => s.evictions.tasks
    case Lessons => s.evictions.lessons
    case Events => s.evictions.events
  }

  function Limit(caps: Capacities, p: Projection): nat {
    match p
    case Agents => caps.agents
    case Goals => caps.goals
    case Tasks => caps.tasks
    case Lessons => caps.lessons
    case Events => caps.events
  }

  /** The submission is accepted and names something that the projection does not hold. */
  predicate Admits(s: State, op: Op, p: Projection) {
    Accepts(s, op) &&
    match p
    case Agents => op.event.agent.agentId !in s.agents.data
    case Goals => GoalKey(op).Some? && GoalKey(op).value !in s.goals.data
    case Tasks => TaskKeyOf(op).Some? && TaskKeyOf(op).value !in s.tasks.data
    case Lessons => LessonKey(op).Some? && LessonKey(op).value !in s.lessons.data
    case Events => op.event.eventId !in s.events.data
  }

  function Admitted(caps: Capacities, ops: seq<Op>, p: Projection): nat {
    if ops == [] then 0
    else
      var op, before := ops[|ops| - 1], ops[..|ops| - 1];
      Admitted(caps, before, p) + if Admits(Run(Initial(caps), before), op, p) then 1 else 0
  }

  // ---------- one submission ----------

  lemma PushBalance<K(!new), V>(c: Cache<K, V>, capacity: nat, k: K, v: V)
    requires capacity > 0 && Valid(c, capacity)
    ensures |Push(c, capacity, k, v).order| ==
            if k in c.data then |c.order| else if |c.order| == capacity then capacity else |c.order| + 1
  {
    if k in c.data {
      WithoutDistinct(c.order, k);
    } else {
      PushOrder(c, capacity, k, v);
    }
  }

  /** How a projection and its eviction counter move when something is admitted. */
  ghost predicate Moves(s: State, r: State, p: Projection, admitted: bool) {
    && r.caps == s.caps
    && Length(r, p) == (if !admitted then Length(s, p) else if Length(s, p) == Limit(s.caps, p) then Length(s, p) else Length(s, p) + 1)
    && Evicted(r, p) == if admitted && Length(s, p) == Limit(s.caps, p) then SaturatingAdd(Evicted(s, p), 1) else Evicted(s, p)
  }

  ghost predicate CountsEviction<K(!new), V>(c: Cache<K, V>, capacity: nat, k: K, before: nat, after: nat) {
    after == if Evicts(c, capacity, k) then SaturatingAdd(before, 1) else before
  }

  /** The tasks' eviction counter and the other things an insertion leaves alone. */
  ghost predicate TaskEvictions(s: State, r: State, k: ScopedId) {
    && r.caps == s.caps && r.agents.data.Keys == s.agents.data.Keys
    && CountsEviction(s.tasks, s.caps.tasks, k, s.evictions.tasks, r.evictions.tasks)
    && r.evictions == s.evictions.(tasks := r.evictions.tasks)
  }

  lemma InsertEvicts(s: State, k: ScopedId, t: TaskState)
    requires Valid(s.tasks, s.caps.tasks) && k !in s.tasks.data
    ensures TaskEvictions(s, InsertTask(s, k, t), k)
  {
    if s.tasks.order != [] { assert s.tasks.order[|s.tasks.order| - 1] in s.tasks.order; }
    hide Push, Put, Uncount, SaturatingAdd;
  }

  lemma OnTaskEvicts(s: State, k: ScopedId, e: EventEnvelope)
    requires Valid(s.tasks, s.caps.tasks)
    ensures TaskEvictions(s, OnTask(s, k, e), k)
  {
    if k !in s.tasks.data { InsertEvicts(s, k, NewTask(InferredSpec(k.entityId), k.agentId, e.occurredAt, true)); }
    hide InsertTask, Gated, AgentAfter, NewTask, Valid, SaturatingAdd, Without;
  }

  lemma DefineTaskEvicts(s: State, k: ScopedId, spec: TaskSpec, at: Time)
    requires Valid(s.tasks, s.caps.tasks)
    ensures TaskEvictions(s, DefineTask(s, k, spec, at), k)
  {
    if k !in s.tasks.data { InsertEvicts(s, k, NewTask(spec, k.agentId, at, false)); }
    hide InsertTask, NewTask, Redefined, Valid, SaturatingAdd, Without;
  }

  lemma PresentEvicts(s: State, e: EventEnvelope)
    ensures var p, a := Present(s, e), e.agent.agentId;
            && p.caps == s.caps && p.tasks == s.tasks && p.goals == s.goals && p.lessons == s.lessons
            && CountsEviction(s.agents, s.caps.agents, a, s.evictions.agents, p.evictions.agents)
            && p.evictions == s.evictions.(agents := p.evictions.agents)
            && p.agents.data.Keys == EnsureAgent(s, e).agents.data.Keys
  {
    hide NewAgent, Refreshed, Push, SaturatingAdd;
  }

  /** What an event does after its agent is present: at most one of the other counters moves. */
  ghost predicate RestEvicts(p: State, r: State, e: EventEnvelope) {
    var op := Submit(e, Http, 0);
    && r.caps == p.caps && r.agents.data.Keys == p.agents.data.Keys && r.evictions.agents == p.evictions.agents
    && (if EventKey(e).Some? then CountsEviction(p.tasks, p.caps.tasks, EventKey(e).value, p.evictions.tasks, r.evictions.tasks)
        else r.evictions.tasks == p.evictions.tasks)
    && (if GoalKey(op).Some? then CountsEviction(p.goals, p.caps.goals, GoalKey(op).value, p.evictions.goals, r.evictions.goals)
        else r.evictions.goals == p.evictions.goals)
    && (if LessonKey(op).Some?
        then CountsEviction(p.lessons, p.caps.lessons, LessonKey(op).value, p.evictions.lessons, r.evictions.lessons)
        else r.evictions.lessons == p.evictions.lessons)
  }

  lemma TaskRest(p: State, r: State, e: EventEnvelope)
    requires EventKey(e).Some? && TaskEvictions(p, r, EventKey(e).value)
    ensures RestEvicts(p, r, e)
  {
    hide CountsEviction;
  }

  lemma UpdatedRest(p: State, q: State, e: EventEnvelope)
    requires RestEvicts(p, q, e)
    ensures RestEvicts(p, UpdateAgent(q, e, None), e)
  {
    hide CountsEviction, AgentAfter, Without;
  }

  lemma GoalRest(p: State, e: EventEnvelope)
    requires e.event.GoalDeclared?
    ensures var a := e.agent.agentId;
            RestEvicts(p, PushGoal(p, ScopedId(a, e.event.goal.goalId), GoalState(e.event.goal, a, e.occurredAt)), e)
  {
    hide Push, SaturatingAdd;
  }

  lemma LessonRest(p: State, e: EventEnvelope)
    requires e.event.LessonLearned?
    ensures RestEvicts(p, PushLesson(p, ScopedId(e.agent.agentId, e.event.lesson.lessonId), e.event.lesson, e.occurredAt), e)
  {
    hide Push;
  }

  lemma NothingRest(p: State, e: EventEnvelope)
    requires EventKey(e).None? && !e.event.GoalDeclared? && !e.event.LessonLearned?
    ensures RestEvicts(p, p, e)
  {}

  lemma ApplyRest(s: State, e: EventEnvelope)
    requires Structure(s)
    ensures RestEvicts(Present(s, e), Apply(s, e), e)
  {
    assert Valid(s.tasks, s.caps.tasks);
    hide Structure, Present, OnTask, DefineTask, UpdateAgent, PushGoal, PushLesson, RestEvicts, Valid, TaskEvictions;
    PresentEvicts(s, e);
    var p, a := Present(s, e), e.agent.agentId;
    if e.event.TaskCreated? {
      DefineTaskEvicts(p, ScopedId(a, e.event.spec.taskId), e.event.spec, e.occurredAt);
      TaskRest(p, Apply(s, e), e);
    } else if TaskIdOf(e.event).Some? {
      OnTaskEvicts(p, ScopedId(a, TaskIdOf(e.event).value), e);
      TaskRest(p, Apply(s, e), e);
    } else if e.event.GoalDeclared? {
      GoalRest(p, e);
      UpdatedRest(p, PushGoal(p, ScopedId(a, e.event.goal.goalId), GoalState(e.event.goal, a, e.occurredAt)), e);
    } else if e.event.LessonLearned? {
      LessonRest(p, e);
    } else {
      NothingRest(p, e);
      UpdatedRest(p, p, e);
    }
  }

  // ---------- every projection moves as admitted ----------

  lemma StepRest(s: State, op: Op)
    requires Structure(s) && Accepts(s, op)
    ensures var p, r := Present(s, op.event), Step(s, op);
            && r.caps == s.caps && r.agents.data.Keys == p.agents.data.Keys
            && r.evictions.agents == p.evictions.agents
            && RestEvicts(p, r, op.event)
            && CountsEviction(s.events, s.caps.events, op.event.eventId, s.evictions.events, r.evictions.events)
  {
    ApplyRest(s, op.event);
    ApplyKeepsBookkeeping(s, op.event);
    PresentEvicts(s, op.event);
    hide Structure, Present, Apply, Push, SaturatingAdd, Valid, EnsureAgent;
  }

  lemma EnsuredAgents(s: State, e: EventEnvelope)
    requires Valid(s.agents, s.caps.agents)
    ensures var q, a := EnsureAgent(s, e), e.agent.agentId;
            && Valid(q.agents, s.caps.agents)
            && |q.agents.order| == if a in s.agents.data then |s.agents.order|
                                   else if |s.agents.order| == s.caps.agents then s.caps.agents else |s.agents.order| + 1
  {
    PushValid(s.agents, s.caps.agents, e.agent.agentId, NewAgent(s, e));
    PushBalance(s.agents, s.caps.agents, e.agent.agentId, NewAgent(s, e));
    hide Push, Valid, NewAgent;
  }

  lemma CachesAreValid(s: State)
    requires Structure(s)
    ensures Valid(s.agents, s.caps.agents) && Valid(s.goals, s.caps.goals) && Valid(s.tasks, s.caps.tasks)
    ensures Valid(s.lessons, s.caps.lessons) && Valid(s.events, s.caps.events)
    ensures |s.agents.order| <= s.caps.agents && |s.goals.order| <= s.caps.goals && |s.tasks.order| <= s.caps.tasks
    ensures |s.lessons.order| <= s.caps.lessons && |s.events.order| <= s.caps.events
  {}

  lemma AgentsLength(s: State, op: Op)
    requires Structure(s) && Accepts(s, op)
    ensures |Step(s, op).agents.order| == |EnsureAgent(s, op.event).agents.order|
  {
    hide Structure, Step, Present, RestEvicts, Valid, EnsureAgent, CountsEviction;
    var r := Step(s, op);
    StepKeepsStructure(s, op);
    CachesAreValid(s);
    CachesAreValid(r);
    StepRest(s, op);
    PresentEvicts(s, op.event);
    EnsuredAgents(s, op.event);
    KeysFitCapacity(r.agents, r.caps.agents);
    KeysFitCapacity(EnsureAgent(s, op.event).agents, s.caps.agents);
  }

  lemma AgentsMove(s: State, op: Op)
    requires Structure(s) && Accepts(s, op)
    ensures Moves(s, Step(s, op), Agents, Admits(s, op, Agents))
  {
    hide Structure, Step, Present, RestEvicts, SaturatingAdd, Valid, EnsureAgent;
    CachesAreValid(s);
    AgentsLength(s, op);
    EnsuredAgents(s, op.event);
    StepRest(s, op);
    PresentEvicts(s, op.event);
  }

  lemma TasksMove(s: State, op: Op)
    requires Structure(s) && Accepts(s, op)
    ensures Moves(s, Step(s, op), Tasks, Admits(s, op, Tasks))
  {
    hide Structure, Step, Present, SaturatingAdd, Valid, Apply, Push, NewTask;
    CachesAreValid(s);
    StepRest(s, op);
    PresentEvicts(s, op.event);
    StepTouches(s, op);
    var v := NewTask(InferredSpec(""), "", 0, true);
    ApplyTaskOrder(s, op.event, v);
    if EventKey(op.event).Some? { PushBalance(s.tasks, s.caps.tasks, EventKey(op.event).value, v); }
  }

  lemma GoalsMove(s: State, op: Op)
    requires Structure(s) && Accepts(s, op)
    ensures Moves(s, Step(s, op), Goals, Admits(s, op, Goals))
  {
    hide Structure, Step, Present, SaturatingAdd, Valid, Push;
    CachesAreValid(s);
    StepRest(s, op);
    PresentEvicts(s, op.event);
    StepDeclares(s, op);
    if GoalKey(op).Some? {
      var k := GoalKey(op).value;
      PushBalance(s.goals, s.caps.goals, k, GoalState(op.event.event.goal, k.agentId, op.event.occurredAt));
    }
  }

  lemma LessonsMove(s: State, op: Op)
    requires Structure(s) && Accepts(s, op)
    ensures Moves(s, Step(s, op), Lessons, Admits(s, op, Lessons))
  {
    hide Structure, Step, Present, SaturatingAdd, Valid, Push;
    CachesAreValid(s);
    StepRest(s, op);
    PresentEvicts(s, op.event);
    StepLearns(s, op);
    if LessonKey(op).Some? {
      var k := LessonKey(op).value;
      var n := if k in s.lessons.data then SaturatingAdd(s.lessons.data[k].observations, 1) else 1;
      PushBalance(s.lessons, s.caps.lessons, k, LessonState(op.event.event.lesson, k.agentId, op.event.occurredAt, n));
    }
  }

  lemma EventsMove(s: State, op: Op)
    requires Structure(s) && Accepts(s, op)
    ensures Moves(s, Step(s, op), Events, Admits(s, op, Events))
  {
    hide Structure, Step, Present, SaturatingAdd, Valid, Push, RestEvicts;
    CachesAreValid(s);
    StepRest(s, op);
    StepLogs(s, op);
    PushBalance(s.events, s.caps.events, op.event.eventId, EventRecord(op.event, op.transport, op.receivedAt));
  }

  lemma StepMoves(s: State, op: Op, p: Projection)
    requires Structure(s)
    ensures Moves(s, Step(s, op), p, Admits(s, op, p))
  {
    hide Structure, Step, Moves, Admits;
    if Accepts(s, op) {
      match p
      case Agents => AgentsMove(s, op);
      case Goals => GoalsMove(s, op);
      case Tasks => TasksMove(s, op);
      case Lessons => LessonsMove(s, op);
      case Events => EventsMove(s, op);
    } else {
      OnlyAcceptedStepsChangeProjections(s, op);
      NothingMoves(s, Step(s, op), op, p);
    }
  }

  lemma NothingMoves(s: State, r: State, op: Op, p: Projection)
    requires !Accepts(s, op) && r.agents == s.agents && r.goals == s.goals && r.tasks == s.tasks && r.lessons == s.lessons
    requires r.events == s.events && r.evictions == s.evictions && r.caps == s.caps
    ensures Moves(s, r, p, Admits(s, op, p))
  {}

  // ---------- whole runs ----------

  /** Nothing is lost between the counters: after any run, what a projection holds and what it
      evicted together are what it admitted, up to the largest word. */
  lemma {:induction false} EvictionsBalanceAdmissions(caps: Capacities, ops: seq<Op>, p: Projection)
    ensures var s, n := Run(Initial(caps), ops), Admitted(caps, ops, p);
            && Structure(s) && s.caps == caps && Length(s, p) == (if n <= Limit(caps, p) then n else Limit(caps, p))
            && Evicted(s, p) == if n - Length(s, p) <= U64_MAX then n - Length(s, p) else U64_MAX
    decreases |ops|
  {
    WindowHoldsRecentIds(caps, ops);
    if ops != [] {
      var op, before := ops[|ops| - 1], ops[..|ops| - 1];
      EvictionsBalanceAdmissions(caps, before, p);
      var s := Run(Initial(caps), before);
      hide Step, Structure, Admits, Length, Evicted, Limit, Presented, RecentFirst, Take;
      StepMoves(s, op, p);
      LimitIsPositive(caps, p);
    } else {
      NothingAdmitted(caps, p);
    }
  }

  lemma LimitIsPositive(caps: Capacities, p: Projection)
    ensures Limit(caps, p) > 0
  {}

  lemma NothingAdmitted(caps: Capacities, p: Projection)
    ensures Length(Initial(caps), p) == 0 && Evicted(Initial(caps), p) == 0
  {}

  /** The events of a snapshot are the most recently accepted ones, newest first: as many as the
      log holds, at most 250. */
  lemma SnapshotShowsRecentEvents(caps: Capacities, ops: seq<Op>)
    ensures Structure(Run(Initial(caps), ops))
    ensures var s, n := Run(Initial(caps), ops), if caps.events < 250 then caps.events else 250;
            var ids := Take(RecentFirst(EventIds(AcceptedOps(caps, ops))), n);
            |RecentEvents(s)| == |ids| && forall i :: 0 <= i < |ids| ==> RecentEvents(s)[i].event.eventId == ids[i]
  {
    LedgerFollowsHistory(caps, ops);
    RetainedTasksAreTheMostRecent(caps, ops);
    var s := Run(Initial(caps), ops);
    var all := RecentFirst(EventIds(AcceptedOps(caps, ops)));
    assert s.events.order == Take(all, caps.events);
    EventsUnderTheirIds(s);
    ShorterPrefix(all, caps.events, 250);
    hide Run, AcceptedOps, EventIds, RecentFirst, LedgerFollows, KeysFollow, Take, Structure, Values;
  }

  lemma ShorterPrefix<T>(s: seq<T>, n: nat, m: nat)
    ensures var t := Take(s, n);
            (if |t| <= m then t else t[..m]) == Take(s, if n < m then n else m)
  {
    TakeIsPrefix(s, n);
    TakeIsPrefix(s, if n < m then n else m);
  }

  lemma EventsUnderTheirIds(s: State)
    requires Structure(s)
    ensures |Values(s.events)| == |s.events.order|
    ensures forall i :: 0 <= i < |s.events.order| ==> Values(s.events)[i].event.eventId == s.events.order[i]
  {
    forall i | 0 <= i < |s.events.order| ensures Values(s.events)[i].event.eventId == s.events.order[i] {
      assert s.events.order[i] in s.events.order;
    }
  }

  /** Statistics of a cache: its length within its capacity, its evictions, and the pressure as
      the ratio of length and capacity. */
  ghost predicate RightStats(x: CacheStats, length: nat, capacity: nat, evictions: nat) {
    && x.length == length <= x.capacity == capacity && x.evictions == evictions
    && x.pressure * capacity as real == length as real && 0.0 <= x.pressure <= 1.0
  }

  lemma Ratio(n: real, m: real)
    requires 0.0 <= n <= m && m > 0.0
    ensures n / m * m == n && 0.0 <= n / m <= 1.0
  {
    var q := n / m;
    assert q * m == n;
  }

  lemma StatsMean<K(!new), V>(c: Cache<K, V>, capacity: Capacity, evictions: nat)
    requires Valid(c, capacity)
    ensures RightStats(StatsOf(c, capacity, evictions), |c.order|, capacity, evictions)
  {
    Ratio(|c.order| as real, capacity as real);
  }

  /** A snapshot lists what the caches hold and reports their figures. */
  lemma SnapshotFigures(s: State, startedAt: Time, now: Time)
    requires Structure(s)
    ensures var x := SnapshotOf(s, startedAt, now);
            && x.generatedAt == now && x.startedAt == startedAt && x.revision == s.revision && x.counters == s.counters
            && |x.agents| == Length(s, Agents) && |x.goals| == Length(s, Goals) && |x.tasks| == Length(s, Tasks)
            && |x.lessons| == Length(s, Lessons)
            && RightStats(x.caches.agents, Length(s, Agents), s.caps.agents, Evicted(s, Agents))
            && RightStats(x.caches.goals, Length(s, Goals), s.caps.goals, Evicted(s, Goals))
            && RightStats(x.caches.tasks, Length(s, Tasks), s.caps.tasks, Evicted(s, Tasks))
            && RightStats(x.caches.lessons, Length(s, Lessons), s.caps.lessons, Evicted(s, Lessons))
            && RightStats(x.caches.events, Length(s, Events), s.caps.events, Evicted(s, Events))
            && RightStats(x.caches.idempotency, |s.seen.order|, s.caps.idempotency, s.evictions.idempotency)
  {
    SeenIsValid(s);
    CachesAreValid(s);
    hide StatsOf, RightStats, Valid, Structure;
    StatsMean(s.agents, s.caps.agents, s.evictions.agents);
    StatsMean(s.goals, s.caps.goals, s.evictions.goals);
    StatsMean(s.tasks, s.caps.tasks, s.evictions.tasks);
    StatsMean(s.lessons, s.caps.lessons, s.evictions.lessons);
    StatsMean(s.events, s.caps.events, s.evictions.events);
    StatsMean(s.seen, s.caps.idempotency, s.evictions.idempotency);
  }
}
