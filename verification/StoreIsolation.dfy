/** Agents do not influence each other: without evictions, what the store holds for one
    agent is what that agent's own events alone would have built. */
module StoreIsolation {
  import opened Model
  import opened Lru
  import opened StoreSpec
  import opened StoreInvariants
  import opened StoreTasks

  // ---------- restricting a cache ----------

  function Filter<K>(s: seq<K>, p: K -> bool): (r: seq<K>)
    ensures |r| <= |s| && forall x :: x in r ==> x in s && p(x)
  {
    if s == [] then [] else (if p(s[0]) then [s[0]] else []) + Filter(s[1..], p)
  }

  function Keep<K(!new), V>(c: Cache<K, V>, p: K -> bool): Cache<K, V> {
    Cache(Filter(c.order, p), map k | k in c.data && p(k) :: c.data[k])
  }

  lemma FilterCons<K>(x: K, s: seq<K>, p: K -> bool)
    ensures Filter([x] + s, p) == if p(x) then [x] + Filter(s, p) else Filter(s, p)
  {}

  lemma WithoutCons<K(!new)>(x: K, s: seq<K>, k: K)
    ensures Without([x] + s, k) == if x == k then Without(s, k) else [x] + Without(s, k)
  {}

  lemma {:induction false} FilterWithout<K(!new)>(s: seq<K>, p: K -> bool, k: K)
    ensures Filter(Without(s, k), p) == Without(Filter(s, p), k)
  {
    if s != [] {
      var x, rest := s[0], s[1..];
      assert s == [x] + rest;
      FilterWithout(rest, p, k);
      hide Filter, Without;
      WithoutCons(x, rest, k);
      FilterCons(x, rest, p);
      FilterCons(x, Without(rest, k), p);
      WithoutCons(x, Filter(rest, p), k);
    }
  }

  lemma KeepPutOrder<K(!new)>(order: seq<K>, p: K -> bool, k: K)
    ensures Filter([k] + Without(order, k), p) ==
            if p(k) then [k] + Without(Filter(order, p), k) else Filter(order, p)
  {
    FilterCons(k, Without(order, k), p);
    FilterWithout(order, p, k);
  }

  lemma KeepPut<K(!new), V>(c: Cache<K, V>, p: K -> bool, k: K, v: V)
    ensures Keep(Put(c, k, v), p) == if p(k) then Put(Keep(c, p), k, v) else Keep(c, p)
  {
    KeepPutOrder(c.order, p, k);
    hide Filter, Without;
    var d, d' := Keep(Put(c, k, v), p).data, if p(k) then Put(Keep(c, p), k, v).data else Keep(c, p).data;
    assert d.Keys == d'.Keys;
    assert d == d';
  }

  lemma KeepPush<K(!new), V>(c: Cache<K, V>, p: K -> bool, capacity: nat, k: K, v: V)
    requires capacity > 0 && !Evicts(c, capacity, k)
    ensures Keep(Push(c, capacity, k, v), p) == if p(k) then Push(Keep(c, p), capacity, k, v) else Keep(c, p)
    ensures p(k) ==> !Evicts(Keep(c, p), capacity, k)
  {
    KeepPut(c, p, k, v);
  }

  // ---------- restricting a state ----------

  function OwnedBy(b: string): ScopedId -> bool { (k: ScopedId) => k.agentId == b }

  function Is(b: string): string -> bool { (a: string) => a == b }

  /** The state as if agent `b` were alone. */
  function Alone(s: State, b: string): State {
    s.(agents := Keep(s.agents, Is(b)), goals := Keep(s.goals, OwnedBy(b)), tasks := Keep(s.tasks, OwnedBy(b)),
       lessons := Keep(s.lessons, OwnedBy(b)))
  }

  /** The event displaces no agent, goal, task or lesson. */
  predicate Roomy(s: State, e: EventEnvelope) {
    var a := e.agent.agentId;
    && !Evicts(s.agents, s.caps.agents, a)
    && (e.event.GoalDeclared? ==> !Evicts(s.goals, s.caps.goals, ScopedId(a, e.event.goal.goalId)))
    && (e.event.LessonLearned? ==> !Evicts(s.lessons, s.caps.lessons, ScopedId(a, e.event.lesson.lessonId)))
    && (EventKey(e).Some? ==> !Evicts(s.tasks, s.caps.tasks, EventKey(e).value))
  }

  lemma SetAgentAlone(s: State, b: string, a: string, agent: AgentState)
    ensures Alone(SetAgent(s, a, agent), b) == if a == b then SetAgent(Alone(s, b), a, agent) else Alone(s, b)
  {
    KeepPut(s.agents, Is(b), a, agent);
  }

  lemma UpdateAgentAlone(s: State, b: string, e: EventEnvelope, previous: Option<TaskOutcome>)
    ensures Alone(UpdateAgent(s, e, previous), b) ==
            if e.agent.agentId == b then UpdateAgent(Alone(s, b), e, previous) else Alone(s, b)
  {
    hide Put;
    var a := e.agent.agentId;
    if a in s.agents.data {
      hide AgentAfter;
      SetAgentAlone(s, b, a, AgentAfter(s.agents.data[a], e, previous));
    }
  }

  lemma NewAgentAlone(s: State, e: EventEnvelope)
    requires KeysMatch(s)
    ensures NewAgent(Alone(s, e.agent.agentId), e) == NewAgent(s, e)
  {
    var a := e.agent.agentId;
    var tasks := s.tasks.data;
    var mine := Alone(s, a).tasks.data;
    forall b: Bucket ensures Bucketed(mine, a, b) == Bucketed(tasks, a, b) {
      forall k ensures k in Bucketed(mine, a, b) <==> k in Bucketed(tasks, a, b) {}
    }
    assert Bucketed(mine, a, CompletedBucket) == Bucketed(tasks, a, CompletedBucket);
    assert Bucketed(mine, a, FailedBucket) == Bucketed(tasks, a, FailedBucket);
  }

  lemma EnsureAgentAlone(s: State, b: string, e: EventEnvelope)
    requires KeysMatch(s) && !Evicts(s.agents, s.caps.agents, e.agent.agentId)
    ensures Alone(EnsureAgent(s, e), b) == if e.agent.agentId == b then EnsureAgent(Alone(s, b), e) else Alone(s, b)
  {
    hide KeysMatch, Put, NewAgent;
    var a := e.agent.agentId;
    if a !in s.agents.data {
      if a == b { NewAgentAlone(s, e); }
      KeepPush(s.agents, Is(b), s.caps.agents, a, NewAgent(s, e));
    }
  }

  lemma PresentAlone(s: State, b: string, e: EventEnvelope)
    requires KeysMatch(s) && !Evicts(s.agents, s.caps.agents, e.agent.agentId)
    ensures Alone(Present(s, e), b) == if e.agent.agentId == b then Present(Alone(s, b), e) else Alone(s, b)
  {
    hide KeysMatch, Put, EnsureAgent, Refreshed;
    EnsureAgentAlone(s, b, e);
    var s1, a := EnsureAgent(s, e), e.agent.agentId;
    SetAgentAlone(s1, b, a, Refreshed(s1.agents.data[a], e));
  }

  lemma InsertTaskAlone(s: State, b: string, k: ScopedId, t: TaskState)
    requires !Evicts(s.tasks, s.caps.tasks, k)
    ensures Alone(InsertTask(s, k, t), b) == if k.agentId == b then InsertTask(Alone(s, b), k, t) else Alone(s, b)
  {
    hide Put;
    KeepPush(s.tasks, OwnedBy(b), s.caps.tasks, k, t);
  }

  lemma SetTaskAlone(s: State, b: string, k: ScopedId, t: TaskState)
    ensures Alone(SetTask(s, k, t), b) == if k.agentId == b then SetTask(Alone(s, b), k, t) else Alone(s, b)
  {
    KeepPut(s.tasks, OwnedBy(b), k, t);
  }

  lemma OnTaskAlone(s: State, b: string, k: ScopedId, e: EventEnvelope)
    requires !Evicts(s.tasks, s.caps.tasks, k) && k.agentId == e.agent.agentId
    ensures Alone(OnTask(s, k, e), b) == if k.agentId == b then OnTask(Alone(s, b), k, e) else Alone(s, b)
  {
    hide InsertTask, Put, Gated, UpdateAgent, Evicts;
    if k !in s.tasks.data {
      InsertTaskAlone(s, b, k, NewTask(InferredSpec(k.entityId), k.agentId, e.occurredAt, true));
    }
    var s1 := EnsureTask(s, k, e.occurredAt);
    var t := s1.tasks.data[k];
    SetTaskAlone(s1, b, k, Gated(t, e));
    UpdateAgentAlone(SetTask(s1, k, Gated(t, e)), b, e, t.outcome);
  }

  lemma DefineTaskAlone(s: State, b: string, k: ScopedId, spec: TaskSpec, at: Time)
    requires !Evicts(s.tasks, s.caps.tasks, k)
    ensures Alone(DefineTask(s, k, spec, at), b) ==
            if k.agentId == b then DefineTask(Alone(s, b), k, spec, at) else Alone(s, b)
  {
    hide InsertTask, Put, Redefined, Evicts;
    if k in s.tasks.data {
      SetTaskAlone(s, b, k, Redefined(s.tasks.data[k], spec, k.agentId, at));
    } else {
      InsertTaskAlone(s, b, k, NewTask(spec, k.agentId, at, false));
    }
  }

  lemma PushGoalAlone(s: State, b: string, k: ScopedId, g: GoalState)
    requires !Evicts(s.goals, s.caps.goals, k)
    ensures Alone(PushGoal(s, k, g), b) == if k.agentId == b then PushGoal(Alone(s, b), k, g) else Alone(s, b)
  {
    hide Put;
    KeepPush(s.goals, OwnedBy(b), s.caps.goals, k, g);
  }

  lemma PushLessonAlone(s: State, b: string, k: ScopedId, lesson: Lesson, at: Time)
    requires !Evicts(s.lessons, s.caps.lessons, k)
    ensures Alone(PushLesson(s, k, lesson, at), b) ==
            if k.agentId == b then PushLesson(Alone(s, b), k, lesson, at) else Alone(s, b)
  {
    hide Put;
    var observations := if k in s.lessons.data then SaturatingAdd(s.lessons.data[k].observations, 1) else 1;
    KeepPush(s.lessons, OwnedBy(b), s.caps.lessons, k, LessonState(lesson, k.agentId, at, observations));
  }

  /** One event: restricting commutes with applying the agent's own events, and other
      agents' events are invisible. */
  lemma ApplyAlone(s: State, b: string, e: EventEnvelope)
    requires KeysMatch(s) && Roomy(s, e)
    ensures Alone(Apply(s, e), b) == if e.agent.agentId == b then Apply(Alone(s, b), e) else Alone(s, b)
  {
    hide KeysMatch, Present, UpdateAgent, OnTask, DefineTask, PushGoal, PushLesson, Alone, Evicts;
    PresentAlone(s, b, e);
    var s1, a := Present(s, e), e.agent.agentId;
    assert s1.tasks == s.tasks && s1.goals == s.goals && s1.lessons == s.lessons && s1.caps == s.caps by {
      PresentFrame(s, e);
    }
    match e.event
    case GoalDeclared(goal) =>
      var k, g := ScopedId(a, goal.goalId), GoalState(goal, a, e.occurredAt);
      PushGoalAlone(s1, b, k, g);
      UpdateAgentAlone(PushGoal(s1, k, g), b, e, None);
    case TaskCreated(spec) => DefineTaskAlone(s1, b, ScopedId(a, spec.taskId), spec, e.occurredAt);
    case LessonLearned(lesson) => PushLessonAlone(s1, b, ScopedId(a, lesson.lessonId), lesson, e.occurredAt);
    case _ =>
      match TaskIdOf(e.event)
      case Some(id) => OnTaskAlone(s1, b, ScopedId(a, id), e);
      case None => UpdateAgentAlone(s1, b, e, None);
  }

  lemma PresentFrame(s: State, e: EventEnvelope)
    ensures var r := Present(s, e);
            r.tasks == s.tasks && r.goals == s.goals && r.lessons == s.lessons && r.caps == s.caps
  {}

  // ---------- whole runs ----------

  function ApplyAll(s: State, es: seq<EventEnvelope>): State {
    if es == [] then s else Apply(ApplyAll(s, es[..|es| - 1]), es[|es| - 1])
  }

  function EventsOf(es: seq<EventEnvelope>, b: string): seq<EventEnvelope> {
    if es == [] then []
    else EventsOf(es[..|es| - 1], b) + if es[|es| - 1].agent.agentId == b then [es[|es| - 1]] else []
  }

  predicate NothingEvicted(s: State) {
    s.evictions.agents == 0 && s.evictions.goals == 0 && s.evictions.tasks == 0 && s.evictions.lessons == 0
  }

  lemma EvictionsOnlyGrow(s: State, e: EventEnvelope)
    requires Structure(s) && NothingEvicted(Apply(s, e))
    ensures NothingEvicted(s) && Roomy(s, e)
  {
    hide Structure;
    PresentEvictions(s, e);
    var s1, a := Present(s, e), e.agent.agentId;
    PresentFrame(s, e);
    assert Structure(s1) by { PresentKeepsStructure(s, e); }
    hide Present, Put, Push, AgentAfter, Gated, Redefined, Uncount;
    if EventKey(e).Some? {
      TaskEvictions(s1, e);
    }
  }

  lemma PresentEvictions(s: State, e: EventEnvelope)
    ensures Present(s, e).evictions ==
            if Evicts(s.agents, s.caps.agents, e.agent.agentId)
            then s.evictions.(agents := SaturatingAdd(s.evictions.agents, 1)) else s.evictions
  {}

  lemma OldestIsHeld(s: State, k: ScopedId)
    requires Structure(s) && Evicts(s.tasks, s.caps.tasks, k)
    ensures Oldest(s.tasks) in s.tasks.data
  {}

  lemma InsertTaskEvictions(s: State, k: ScopedId, t: TaskState)
    requires Structure(s)
    ensures InsertTask(s, k, t).evictions ==
            if Evicts(s.tasks, s.caps.tasks, k)
            then s.evictions.(tasks := SaturatingAdd(s.evictions.tasks, 1)) else s.evictions
  {
    hide Structure, Put, Push;
    if Evicts(s.tasks, s.caps.tasks, k) { OldestIsHeld(s, k); }
  }

  lemma TaskEvictions(s: State, e: EventEnvelope)
    requires Structure(s) && EventKey(e).Some?
    ensures var k := EventKey(e).value;
            var r := if e.event.TaskCreated? then DefineTask(s, k, e.event.spec, e.occurredAt) else OnTask(s, k, e);
            r.evictions == if Evicts(s.tasks, s.caps.tasks, k)
            then s.evictions.(tasks := SaturatingAdd(s.evictions.tasks, 1)) else s.evictions
  {
    hide Structure, InsertTask, Put, AgentAfter, Gated, Redefined;
    var k := EventKey(e).value;
    if k !in s.tasks.data {
      InsertTaskEvictions(s, k, NewTask(InferredSpec(k.entityId), k.agentId, e.occurredAt, true));
      if e.event.TaskCreated? {
        InsertTaskEvictions(s, k, NewTask(e.event.spec, k.agentId, e.occurredAt, false));
      }
    }
  }

  /** For every sequence of accepted events that evicts nothing, agent `b`'s record, goals,
      tasks and lessons, in contents and recency order, equal those that applying only
      b's events yields. */
  lemma {:induction false} AgentsAreIsolated(caps: Capacities, es: seq<EventEnvelope>, b: string)
    requires NothingEvicted(ApplyAll(Initial(caps), es))
    ensures Structure(ApplyAll(Initial(caps), es))
    ensures Alone(ApplyAll(Initial(caps), es), b) == ApplyAll(Initial(caps), EventsOf(es, b))
  {
    if es == [] {
      assert Alone(Initial(caps), b) == Initial(caps);
    } else {
      var before, e := es[..|es| - 1], es[|es| - 1];
      var s := ApplyAll(Initial(caps), before);
      StructureOfAll(caps, before);
      hide Apply, Structure, Alone, Roomy;
      EvictionsOnlyGrow(s, e);
      AgentsAreIsolated(caps, before, b);
      assert KeysMatch(s) by { KeysOf(s); }
      ApplyAlone(s, b, e);
      ApplyKeepsStructure(s, e);
      var f := EventsOf(before, b);
      assert (f + [e])[..|f|] == f && f + [] == f;
    }
  }

  lemma KeysOf(s: State)
    requires Structure(s)
    ensures KeysMatch(s)
  {}

  lemma {:induction false} StructureOfAll(caps: Capacities, es: seq<EventEnvelope>)
    ensures Structure(ApplyAll(Initial(caps), es))
  {
    if es != [] {
      StructureOfAll(caps, es[..|es| - 1]);
      ApplyKeepsStructure(ApplyAll(Initial(caps), es[..|es| - 1]), es[|es| - 1]);
    }
  }
}
