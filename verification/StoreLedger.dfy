/** Goals, lessons, the event log and the traffic counters, read off the history of
    submissions (`src/store.rs`). */
module StoreLedger {
  import opened Model
  import opened Lru
  import opened Recency
  import opened Histories
  import opened StoreSpec
  import opened StoreInvariants
  import opened StoreTasks
  import opened StoreIdempotency

  /** The accepted submissions of a run, in order. */
  function AcceptedOps(caps: Capacities, ops: seq<Op>): seq<Op> {
    if ops == [] then []
    else
      var op, before := ops[|ops| - 1], ops[..|ops| - 1];
      AcceptedOps(caps, before) + if Accepts(Run(Initial(caps), before), op) then [op] else []
  }

  // ---------- the event log ----------

  function EventIds(ops: seq<Op>): seq<Uuid> {
    if ops == [] then []
    else EventIds(ops[..|ops| - 1]) + if ops[|ops| - 1].Submit? then [ops[|ops| - 1].event.eventId] else []
  }

  function Carries(id: Uuid): Op -> bool { (op: Op) => op.Submit? && op.event.eventId == id }

  /** The log holds the most recently accepted events, as many as fit, each as it arrived last. */
  ghost predicate LogFollows(s: State, accepted: seq<Op>) {
    && s.events.order == Take(RecentFirst(EventIds(accepted)), s.caps.events)
    && forall id :: id in s.events.data ==>
         match LastWhere(accepted, Carries(id))
         case None => false
         case Some(op) => op.Submit? && s.events.data[id] == EventRecord(op.event, op.transport, op.receivedAt)
  }

  // ---------- goals and lessons ----------

  /** The goal that a submission declares. */
  function GoalKey(op: Op): Option<ScopedId> {
    if op.Submit? && op.event.event.GoalDeclared?
    then Some(ScopedId(op.event.agent.agentId, op.event.event.goal.goalId)) else None
  }

  function LessonKey(op: Op): Option<ScopedId> {
    if op.Submit? && op.event.event.LessonLearned?
    then Some(ScopedId(op.event.agent.agentId, op.event.event.lesson.lessonId)) else None
  }

  function Keys(key: Op -> Option<ScopedId>, ops: seq<Op>): seq<ScopedId> {
    if ops == [] then []
    else
      var last := key(ops[|ops| - 1]);
      Keys(key, ops[..|ops| - 1]) + if last.Some? then [last.value] else []
  }

  function Has(key: Op -> Option<ScopedId>, k: ScopedId): Op -> bool { (op: Op) => key(op) == Some(k) }

  /** The retained keys are the most recently named ones, as many as fit. */
  ghost predicate KeysFollow<V>(c: Cache<ScopedId, V>, capacity: nat, key: Op -> Option<ScopedId>, accepted: seq<Op>) {
    c.order == Take(RecentFirst(Keys(key, accepted)), capacity)
  }

  /** Every retained goal is the last accepted declaration of its key. */
  ghost predicate GoalsFollow(goals: map<ScopedId, GoalState>, accepted: seq<Op>) {
    forall k :: k in goals ==>
      match LastWhere(accepted, Has(GoalKey, k))
      case None => false
      case Some(op) => GoalKey(op) == Some(k) && goals[k] == GoalState(op.event.event.goal, k.agentId, op.event.occurredAt)
  }

  /** Every retained lesson is the last accepted one of its key. */
  ghost predicate LessonsFollow(lessons: map<ScopedId, LessonState>, accepted: seq<Op>) {
    forall k :: k in lessons ==>
      match LastWhere(accepted, Has(LessonKey, k))
      case None => false
      case Some(op) =>
        && LessonKey(op) == Some(k) && lessons[k].lesson == op.event.event.lesson
        && lessons[k].agentId == k.agentId && lessons[k].learnedAt == op.event.occurredAt
  }

  // ---------- one accepted submission ----------

  lemma KeysNext(key: Op -> Option<ScopedId>, ops: seq<Op>, op: Op)
    ensures Keys(key, ops + [op]) == Keys(key, ops) + if key(op).Some? then [key(op).value] else []
  {
    assert (ops + [op])[..|ops|] == ops;
  }

  lemma EventIdsNext(ops: seq<Op>, op: Op)
    requires op.Submit?
    ensures EventIds(ops + [op]) == EventIds(ops) + [op.event.eventId]
  {
    assert (ops + [op])[..|ops|] == ops;
  }

  lemma StepLogs(s: State, op: Op)
    requires Accepts(s, op)
    ensures Step(s, op).caps == s.caps
    ensures Step(s, op).events == Push(s.events, s.caps.events, op.event.eventId,
                                       EventRecord(op.event, op.transport, op.receivedAt))
  {
    hide Apply;
    ApplyKeepsBookkeeping(s, op.event);
  }

  lemma NextLog(s: State, op: Op, accepted: seq<Op>)
    requires Structure(s) && Accepts(s, op) && LogFollows(s, accepted)
    ensures LogFollows(Step(s, op), accepted + [op])
  {
    hide Step, RecentFirst, Take, EventIds, LastWhere, Accepts;
    AcceptedIsSubmit(s, op);
    StepLogs(s, op);
    EventIdsNext(accepted, op);
    EventsAreValid(s);
    PushIsRecent(s.events, EventIds(accepted), s.caps.events, op.event.eventId,
                 EventRecord(op.event, op.transport, op.receivedAt));
    var r := Step(s, op);
    forall id | id in r.events.data
      ensures match LastWhere(accepted + [op], Carries(id))
              case None => false
              case Some(last) => last.Submit? && r.events.data[id] == EventRecord(last.event, last.transport, last.receivedAt)
    {
      LastWhereNext(accepted, op, Carries(id));
    }
  }

  lemma AcceptedIsSubmit(s: State, op: Op)
    requires Accepts(s, op)
    ensures op.Submit?
  {}

  lemma EventsAreValid(s: State)
    requires Structure(s)
    ensures Valid(s.events, s.caps.events) && Valid(s.goals, s.caps.goals) && Valid(s.lessons, s.caps.lessons)
  {}

  /** Only a declaration changes the goals, only a lesson changes the lessons. */
  lemma StepDeclares(s: State, op: Op)
    requires Accepts(s, op)
    ensures Step(s, op).goals ==
              match GoalKey(op)
              case None => s.goals
              case Some(k) => Push(s.goals, s.caps.goals, k, GoalState(op.event.event.goal, k.agentId, op.event.occurredAt))
    ensures GoalKey(op).Some? ==> op.Submit? && op.event.event.GoalDeclared?
  {
    hide OnTask, DefineTask, AgentAfter, NewAgent, Refreshed, Push, Put;
    OnTaskKeepsGoals(Present(s, op.event), op.event);
  }

  lemma OnTaskKeepsGoals(s: State, e: EventEnvelope)
    ensures forall k :: OnTask(s, k, e).goals == s.goals && OnTask(s, k, e).lessons == s.lessons
    ensures forall k, spec, at :: DefineTask(s, k, spec, at).goals == s.goals && DefineTask(s, k, spec, at).lessons == s.lessons
  {
    hide AgentAfter, Gated, Redefined, Push, Put, Uncount;
  }

  lemma StepLearns(s: State, op: Op)
    requires Accepts(s, op)
    ensures Step(s, op).lessons ==
              match LessonKey(op)
              case None => s.lessons
              case Some(k) =>
                Push(s.lessons, s.caps.lessons, k,
                     LessonState(op.event.event.lesson, k.agentId, op.event.occurredAt,
                                 if k in s.lessons.data then SaturatingAdd(s.lessons.data[k].observations, 1) else 1))
    ensures LessonKey(op).Some? ==> op.Submit? && op.event.event.LessonLearned?
  {
    hide OnTask, DefineTask, AgentAfter, NewAgent, Refreshed, Push, Put;
    OnTaskKeepsGoals(Present(s, op.event), op.event);
  }

  /** Pushing under the key a submission names keeps the keys the most recent ones. */
  lemma NextKeys<V>(c: Cache<ScopedId, V>, capacity: nat, key: Op -> Option<ScopedId>, accepted: seq<Op>, op: Op, v: V)
    requires capacity > 0 && Valid(c, capacity) && KeysFollow(c, capacity, key, accepted)
    ensures KeysFollow(if key(op).Some? then Push(c, capacity, key(op).value, v) else c, capacity, key, accepted + [op])
  {
    hide RecentFirst, Take, Keys, Push, Valid;
    KeysNext(key, accepted, op);
    if key(op).Some? {
      PushIsRecent(c, Keys(key, accepted), capacity, key(op).value, v);
    } else {
      assert Keys(key, accepted) + [] == Keys(key, accepted);
    }
  }

  lemma PushedValue<V>(c: Cache<ScopedId, V>, capacity: nat, k: ScopedId, v: V, j: ScopedId)
    requires capacity > 0 && j in Push(c, capacity, k, v).data
    ensures if j == k then Push(c, capacity, k, v).data[j] == v
            else j in c.data && Push(c, capacity, k, v).data[j] == c.data[j]
  {}

  lemma NextGoals(c: Cache<ScopedId, GoalState>, capacity: nat, accepted: seq<Op>, op: Op)
    requires capacity > 0 && GoalsFollow(c.data, accepted)
    ensures var r := match GoalKey(op)
                     case None => c
                     case Some(k) => Push(c, capacity, k, GoalState(op.event.event.goal, k.agentId, op.event.occurredAt));
            GoalsFollow(r.data, accepted + [op])
  {
    hide LastWhere, Push;
    var r := match GoalKey(op)
             case None => c
             case Some(k) => Push(c, capacity, k, GoalState(op.event.event.goal, k.agentId, op.event.occurredAt));
    forall j | j in r.data
      ensures match LastWhere(accepted + [op], Has(GoalKey, j))
              case None => false
              case Some(last) =>
                GoalKey(last) == Some(j) && r.data[j] == GoalState(last.event.event.goal, j.agentId, last.event.occurredAt)
    {
      LastWhereNext(accepted, op, Has(GoalKey, j));
      if GoalKey(op).Some? {
        var k := GoalKey(op).value;
        PushedValue(c, capacity, k, GoalState(op.event.event.goal, k.agentId, op.event.occurredAt), j);
      }
    }
  }

  lemma NextLessons(c: Cache<ScopedId, LessonState>, capacity: nat, accepted: seq<Op>, op: Op, n: nat)
    requires capacity > 0 && LessonsFollow(c.data, accepted)
    ensures var r := match LessonKey(op)
                     case None => c
                     case Some(k) =>
                       Push(c, capacity, k, LessonState(op.event.event.lesson, k.agentId, op.event.occurredAt, n));
            LessonsFollow(r.data, accepted + [op])
  {
    hide LastWhere, Push;
    var r := match LessonKey(op)
             case None => c
             case Some(k) => Push(c, capacity, k, LessonState(op.event.event.lesson, k.agentId, op.event.occurredAt, n));
    forall j | j in r.data
      ensures match LastWhere(accepted + [op], Has(LessonKey, j))
              case None => false
              case Some(last) =>
                && LessonKey(last) == Some(j) && r.data[j].lesson == last.event.event.lesson
                && r.data[j].agentId == j.agentId && r.data[j].learnedAt == last.event.occurredAt
    {
      LastWhereNext(accepted, op, Has(LessonKey, j));
      if LessonKey(op).Some? {
        var k := LessonKey(op).value;
        PushedValue(c, capacity, k, LessonState(op.event.event.lesson, k.agentId, op.event.occurredAt, n), j);
      }
    }
  }

  // ---------- whole runs ----------

  /** The goals, the lessons and the log of a state follow the accepted submissions. */
  ghost predicate LedgerFollows(s: State, accepted: seq<Op>) {
    && LogFollows(s, accepted)
    && KeysFollow(s.goals, s.caps.goals, GoalKey, accepted) && GoalsFollow(s.goals.data, accepted)
    && KeysFollow(s.lessons, s.caps.lessons, LessonKey, accepted) && LessonsFollow(s.lessons.data, accepted)
  }

  lemma NextDeclared(s: State, op: Op, accepted: seq<Op>)
    requires Structure(s) && Accepts(s, op)
    requires KeysFollow(s.goals, s.caps.goals, GoalKey, accepted) && GoalsFollow(s.goals.data, accepted)
    ensures KeysFollow(Step(s, op).goals, s.caps.goals, GoalKey, accepted + [op])
    ensures GoalsFollow(Step(s, op).goals.data, accepted + [op])
  {
    hide Step, KeysFollow, GoalsFollow, Push, Valid, Structure, Accepts;
    EventsAreValid(s);
    StepDeclares(s, op);
    NextGoals(s.goals, s.caps.goals, accepted, op);
    if GoalKey(op).Some? {
      NextKeys(s.goals, s.caps.goals, GoalKey, accepted, op,
               GoalState(op.event.event.goal, GoalKey(op).value.agentId, op.event.occurredAt));
    } else {
      NothingNamed(s.goals, s.caps.goals, GoalKey, accepted, op);
    }
  }

  lemma NothingNamed<V>(c: Cache<ScopedId, V>, capacity: nat, key: Op -> Option<ScopedId>, accepted: seq<Op>, op: Op)
    requires KeysFollow(c, capacity, key, accepted) && key(op).None?
    ensures KeysFollow(c, capacity, key, accepted + [op])
  {
    KeysNext(key, accepted, op);
    assert Keys(key, accepted) + [] == Keys(key, accepted);
  }

  lemma NextLearned(s: State, op: Op, accepted: seq<Op>)
    requires Structure(s) && Accepts(s, op)
    requires KeysFollow(s.lessons, s.caps.lessons, LessonKey, accepted) && LessonsFollow(s.lessons.data, accepted)
    ensures KeysFollow(Step(s, op).lessons, s.caps.lessons, LessonKey, accepted + [op])
    ensures LessonsFollow(Step(s, op).lessons.data, accepted + [op])
  {
    hide Step, KeysFollow, LessonsFollow, Push, Valid, Structure, Accepts, SaturatingAdd;
    EventsAreValid(s);
    StepLearns(s, op);
    if LessonKey(op).Some? {
      var k := LessonKey(op).value;
      var n := if k in s.lessons.data then SaturatingAdd(s.lessons.data[k].observations, 1) else 1;
      NextLessons(s.lessons, s.caps.lessons, accepted, op, n);
      NextKeys(s.lessons, s.caps.lessons, LessonKey, accepted, op,
               LessonState(op.event.event.lesson, k.agentId, op.event.occurredAt, n));
    } else {
      NextLessons(s.lessons, s.caps.lessons, accepted, op, 0);
      NothingNamed(s.lessons, s.caps.lessons, LessonKey, accepted, op);
    }
  }

  lemma NextLedger(s: State, op: Op, accepted: seq<Op>)
    requires Structure(s) && Accepts(s, op) && LedgerFollows(s, accepted)
    ensures LedgerFollows(Step(s, op), accepted + [op])
  {
    hide Step, KeysFollow, LessonsFollow, GoalsFollow, LogFollows, Structure, Accepts;
    StepLogs(s, op);
    NextLog(s, op, accepted);
    NextDeclared(s, op, accepted);
    NextLearned(s, op, accepted);
  }

  /** After any run the retained events, goals and lessons are the most recently accepted ones,
      as many as fit, in that order, each with what was accepted last under its key. */
  lemma {:induction false} LedgerFollowsHistory(caps: Capacities, ops: seq<Op>)
    ensures Structure(Run(Initial(caps), ops))
    ensures LedgerFollows(Run(Initial(caps), ops), AcceptedOps(caps, ops))
    decreases |ops|
  {
    WindowHoldsRecentIds(caps, ops);
    if ops != [] {
      var op, before := ops[|ops| - 1], ops[..|ops| - 1];
      LedgerFollowsHistory(caps, before);
      var s := Run(Initial(caps), before);
      hide Step, Structure, LogFollows, KeysFollow, GoalsFollow, LessonsFollow;
      if Accepts(s, op) {
        NextLedger(s, op, AcceptedOps(caps, before));
      } else {
        OnlyAcceptedStepsChangeProjections(s, op);
        SameLedger(s, Step(s, op), AcceptedOps(caps, before));
        assert AcceptedOps(caps, before) + [] == AcceptedOps(caps, before);
      }
    } else {
      EmptyLedger(caps);
    }
  }

  lemma EmptyLedger(caps: Capacities)
    ensures LedgerFollows(Initial(caps), [])
  {}

  lemma SameLedger(s: State, r: State, accepted: seq<Op>)
    requires LedgerFollows(s, accepted) && r.events == s.events && r.goals == s.goals && r.lessons == s.lessons && r.caps == s.caps
    ensures LedgerFollows(r, accepted)
  {}

  // ---------- which tasks are retained ----------

  /** The task that a submission names. */
  function TaskKeyOf(op: Op): Option<ScopedId> {
    if op.Submit? then EventKey(op.event) else None
  }

  lemma PutAgain<V>(c: Cache<ScopedId, V>, k: ScopedId, v: V, w: V)
    ensures Put(Put(c, k, v), k, w).order == Put(c, k, v).order
  {
    var rest := Without(c.order, k);
    assert Put(c, k, v).order[1..] == rest;
  }

  lemma PushAnyValue<V>(c: Cache<ScopedId, V>, capacity: nat, k: ScopedId, v: V, w: V)
    requires capacity > 0
    ensures Push(c, capacity, k, v).order == Push(c, capacity, k, w).order
    ensures Put(Push(c, capacity, k, v), k, w).order == Push(c, capacity, k, w).order
  {
    if Evicts(c, capacity, k) { PutAgain(Drop(c, Oldest(c)), k, v, w); } else { PutAgain(c, k, v, w); }
  }

  lemma InsertTaskOrder(s: State, k: ScopedId, t: TaskState)
    ensures InsertTask(s, k, t).tasks == Push(s.tasks, s.caps.tasks, k, t)
  {
    hide Push, Put, Uncount;
  }

  lemma OnTaskOrder(s: State, k: ScopedId, e: EventEnvelope, v: TaskState)
    ensures OnTask(s, k, e).tasks.order == Push(s.tasks, s.caps.tasks, k, v).order
  {
    var t := NewTask(InferredSpec(k.entityId), k.agentId, e.occurredAt, true);
    InsertTaskOrder(s, k, t);
    var p := EnsureTask(s, k, e.occurredAt);
    var u := Gated(p.tasks.data[k], e);
    PushAnyValue(s.tasks, s.caps.tasks, k, t, u);
    PushAnyValue(s.tasks, s.caps.tasks, k, u, v);
    hide InsertTask, Gated, AgentAfter, Oldest, Drop, NewTask;
  }

  lemma DefineTaskOrder(s: State, k: ScopedId, spec: TaskSpec, at: Time, v: TaskState)
    ensures DefineTask(s, k, spec, at).tasks.order == Push(s.tasks, s.caps.tasks, k, v).order
  {
    var t := NewTask(spec, k.agentId, at, false);
    InsertTaskOrder(s, k, t);
    PushAnyValue(s.tasks, s.caps.tasks, k, t, v);
    hide InsertTask, Oldest, Drop, NewTask, Redefined;
  }

  lemma ApplyTaskOrder(s: State, e: EventEnvelope, v: TaskState)
    ensures match EventKey(e)
            case None => Apply(s, e).tasks == s.tasks
            case Some(k) => Apply(s, e).tasks.order == Push(s.tasks, s.caps.tasks, k, v).order
  {
    hide OnTask, DefineTask, AgentAfter, Refreshed, NewAgent, Push;
    var s1, a := Present(s, e), e.agent.agentId;
    assert s1.tasks == s.tasks && s1.caps == s.caps;
    if e.event.TaskCreated? {
      DefineTaskOrder(s1, ScopedId(a, e.event.spec.taskId), e.event.spec, e.occurredAt, v);
    } else if TaskIdOf(e.event).Some? {
      OnTaskOrder(s1, ScopedId(a, TaskIdOf(e.event).value), e, v);
    }
  }

  lemma NextTasks(s: State, op: Op, accepted: seq<Op>)
    requires Structure(s) && Accepts(s, op) && KeysFollow(s.tasks, s.caps.tasks, TaskKeyOf, accepted)
    ensures Step(s, op).caps == s.caps
    ensures KeysFollow(Step(s, op).tasks, s.caps.tasks, TaskKeyOf, accepted + [op])
  {
    assert Valid(s.tasks, s.caps.tasks);
    var v := NewTask(InferredSpec(""), "", 0, true);
    StepLogs(s, op);
    StepTouches(s, op);
    hide Step, Apply, Push, Valid, Structure, Keys, RecentFirst, Take;
    ApplyTaskOrder(s, op.event, v);
    NextKeys(s.tasks, s.caps.tasks, TaskKeyOf, accepted, op, v);
  }

  /** After any run the retained tasks are the most recently named ones, as many as fit; an
      outdated event refreshes its task's place too. */
  lemma {:induction false} RetainedTasksAreTheMostRecent(caps: Capacities, ops: seq<Op>)
    ensures Run(Initial(caps), ops).caps == caps
    ensures KeysFollow(Run(Initial(caps), ops).tasks, caps.tasks, TaskKeyOf, AcceptedOps(caps, ops))
    decreases |ops|
  {
    if ops != [] {
      var op, before := ops[|ops| - 1], ops[..|ops| - 1];
      RetainedTasksAreTheMostRecent(caps, before);
      WindowHoldsRecentIds(caps, before);
      var s := Run(Initial(caps), before);
      hide Step, Structure, KeysFollow;
      if Accepts(s, op) {
        NextTasks(s, op, AcceptedOps(caps, before));
      } else {
        OnlyAcceptedStepsChangeProjections(s, op);
        assert AcceptedOps(caps, before) + [] == AcceptedOps(caps, before);
      }
    } else {
      EmptyTasks(caps);
    }
  }

  lemma EmptyTasks(caps: Capacities)
    ensures KeysFollow(Initial(caps).tasks, caps.tasks, TaskKeyOf, [])
  {}

  // ---------- observations ----------

  /** How often the lesson was accepted since it was inserted; zero if it is not retained. */
  function Observed(caps: Capacities, ops: seq<Op>, k: ScopedId): nat {
    if ops == [] || k !in Run(Initial(caps), ops).lessons.data then 0
    else
      var op, before := ops[|ops| - 1], ops[..|ops| - 1];
      Observed(caps, before, k) + if Accepts(Run(Initial(caps), before), op) && LessonKey(op) == Some(k) then 1 else 0
  }

  /** A retained lesson counts its observations, up to the largest word. */
  lemma {:induction false} LessonsCountObservations(caps: Capacities, ops: seq<Op>, k: ScopedId)
    ensures var lessons, n := Run(Initial(caps), ops).lessons.data, Observed(caps, ops, k);
            if k in lessons then n > 0 && lessons[k].observations == (if n <= U64_MAX then n else U64_MAX) else n == 0
    decreases |ops|
  {
    if ops != [] {
      var op, before := ops[|ops| - 1], ops[..|ops| - 1];
      LessonsCountObservations(caps, before, k);
      var s := Run(Initial(caps), before);
      hide Step, Push;
      if Accepts(s, op) {
        StepLearns(s, op);
        if LessonKey(op).Some? && k in Step(s, op).lessons.data { LessonPush(s, op, k); }
      } else {
        OnlyAcceptedStepsChangeProjections(s, op);
      }
    }
  }

  lemma LessonPush(s: State, op: Op, k: ScopedId)
    requires Accepts(s, op) && LessonKey(op).Some? && k in Step(s, op).lessons.data
    ensures if LessonKey(op) == Some(k)
            then Step(s, op).lessons.data[k].observations
                 == (if k in s.lessons.data then SaturatingAdd(s.lessons.data[k].observations, 1) else 1)
            else k in s.lessons.data && Step(s, op).lessons.data[k] == s.lessons.data[k]
  {
    hide Step, Push;
    StepLearns(s, op);
    var j := LessonKey(op).value;
    var n := if j in s.lessons.data then SaturatingAdd(s.lessons.data[j].observations, 1) else 1;
    PushedValue(s.lessons, s.caps.lessons, j, LessonState(op.event.event.lesson, j.agentId, op.event.occurredAt, n), k);
  }

  // ---------- traffic counters ----------

  datatype Verdict = Accepted | Repeated | Refused

  function VerdictOn(s: State, op: Op): Verdict {
    if Accepts(s, op) then Accepted
    else if op.Submit? && ValidEvent(op.event) then Repeated
    else Refused
  }

  /** How many steps of the run had this verdict. */
  function Count(caps: Capacities, ops: seq<Op>, v: Verdict): nat {
    if ops == [] then 0
    else
      var op, before := ops[|ops| - 1], ops[..|ops| - 1];
      Count(caps, before, v) + if VerdictOn(Run(Initial(caps), before), op) == v then 1 else 0
  }

  /** The same for one transport. */
  function CountBy(caps: Capacities, ops: seq<Op>, v: Verdict, t: Transport): nat {
    if ops == [] then 0
    else
      var op, before := ops[|ops| - 1], ops[..|ops| - 1];
      CountBy(caps, before, v, t) + if VerdictOn(Run(Initial(caps), before), op) == v && op.transport == t then 1 else 0
  }

  function Saturated(n: nat): nat { if n <= U64_MAX then n else U64_MAX }

  function Entry(m: map<Transport, nat>, t: Transport): nat { if t in m then m[t] else 0 }

  lemma StepCounts(s: State, op: Op, t: Transport)
    ensures var v, c, d := VerdictOn(s, op), s.counters, Step(s, op).counters;
            && d.accepted == (if v.Accepted? then SaturatingAdd(c.accepted, 1) else c.accepted)
            && d.duplicate == (if v.Repeated? then SaturatingAdd(c.duplicate, 1) else c.duplicate)
            && d.rejected == (if v.Refused? then SaturatingAdd(c.rejected, 1) else c.rejected)
            && Entry(d.acceptedBy, t) == Entry(c.acceptedBy, t) + (if v.Accepted? && op.transport == t then 1 else 0)
            && Entry(d.rejectedBy, t) == Entry(c.rejectedBy, t) + (if v.Refused? && op.transport == t then 1 else 0)
  {
    if Accepts(s, op) { ApplyKeepsBookkeeping(s, op.event); }
    hide Apply, ValidEvent, Push;
  }

  /** After any run the traffic counters are the numbers of accepted, repeated and refused
      submissions, up to the largest word, and by transport. */
  lemma {:induction false} CountersCountTraffic(caps: Capacities, ops: seq<Op>, t: Transport)
    ensures var c := Run(Initial(caps), ops).counters;
            && c.accepted == Saturated(Count(caps, ops, Accepted))
            && c.duplicate == Saturated(Count(caps, ops, Repeated))
            && c.rejected == Saturated(Count(caps, ops, Refused))
            && Entry(c.acceptedBy, t) == CountBy(caps, ops, Accepted, t)
            && Entry(c.rejectedBy, t) == CountBy(caps, ops, Refused, t)
    ensures Count(caps, ops, Accepted) + Count(caps, ops, Repeated) + Count(caps, ops, Refused) == |ops|
    decreases |ops|
  {
    if ops != [] {
      var op, before := ops[|ops| - 1], ops[..|ops| - 1];
      CountersCountTraffic(caps, before, t);
      hide Step, VerdictOn, Entry;
      StepCounts(Run(Initial(caps), before), op, t);
    }
  }
}
