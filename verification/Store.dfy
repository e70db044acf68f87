/** The store as it runs: caches, counters and revision updated in place under one lock
    (`src/store.rs`).  Every method is tied to the reducer in `StoreSpec`. */
module Store {
  import opened Sequences
  import opened Model
  import opened Lru
  import opened StoreSpec
  import opened StoreInvariants
  import opened StoreCounters

  /** The acknowledgement of a submission. */
  datatype Ack = Acknowledged(duplicate: bool, eventId: Uuid, revision: nat) | Invalid

  datatype CacheStats = CacheStats(length: nat, capacity: nat, evictions: nat, pressure: real)

  datatype CacheSnapshot = CacheSnapshot(agents: CacheStats, goals: CacheStats, tasks: CacheStats, lessons: CacheStats,
                                         events: CacheStats, idempotency: CacheStats)

  datatype Snapshot = Snapshot(
    generatedAt: Time,
    startedAt: Time,
    revision: nat,
    agents: seq<AgentState>,
    goals: seq<GoalState>,
    tasks: seq<TaskState>,
    lessons: seq<LessonState>,
    recentEvents: seq<EventRecord>,
    caches: CacheSnapshot,
    counters: Counters)

  const SNAPSHOT_EVENT_LIMIT: nat := 250

  /** The retained values, most recently used first. */
  function Values<K, V>(c: Cache<K, V>): seq<V>
    requires forall k :: k in c.order ==> k in c.data
  {
    seq(|c.order|, i requires 0 <= i < |c.order| => assert c.order[i] in c.order; c.data[c.order[i]])
  }

  function RecentEvents(s: State): seq<EventRecord>
    requires CachesValid(s)
  {
    var events := Values(s.events);
    if |events| <= SNAPSHOT_EVENT_LIMIT then events else events[..SNAPSHOT_EVENT_LIMIT]
  }

  function StatsOf<K, V>(c: Cache<K, V>, capacity: Capacity, evictions: nat): CacheStats {
    CacheStats(|c.order|, capacity, evictions, |c.order| as real / capacity as real)
  }

  function CachesOf(s: State): CacheSnapshot {
    CacheSnapshot(StatsOf(s.agents, s.caps.agents, s.evictions.agents), StatsOf(s.goals, s.caps.goals, s.evictions.goals),
                  StatsOf(s.tasks, s.caps.tasks, s.evictions.tasks), StatsOf(s.lessons, s.caps.lessons, s.evictions.lessons),
                  StatsOf(s.events, s.caps.events, s.evictions.events),
                  StatsOf(s.seen, s.caps.idempotency, s.evictions.idempotency))
  }

  function SnapshotOf(s: State, startedAt: Time, now: Time): Snapshot
    requires CachesValid(s)
  {
    Snapshot(now, startedAt, s.revision, Values(s.agents), Values(s.goals), Values(s.tasks), Values(s.lessons),
             RecentEvents(s), CachesOf(s), s.counters)
  }

  /** Push, and report the value of a displaced entry with a different key. */
  method PushWithEviction<K(!new), V>(c: Cache<K, V>, capacity: nat, k: K, v: V)
      returns (r: Cache<K, V>, displaced: Option<V>)
    requires capacity > 0 && Lru.Valid(c, capacity)
    ensures r == Push(c, capacity, k, v) && Lru.Valid(r, capacity)
    ensures displaced == if Evicts(c, capacity, k) then Some(c.data[Oldest(c)]) else None
  {
    PushValid(c, capacity, k, v);
    if k in c.data || |c.order| < capacity {
      r, displaced := Put(c, k, v), None;
    } else {
      var victim := c.order[|c.order| - 1];
      assert victim in c.order;
      displaced := Some(c.data[victim]);
      r := Put(Drop(c, victim), k, v);
    }
  }

  predicate Counts(t: TaskState, a: string, b: Bucket) {
    t.agentId == a && InBucket(t.outcome, b)
  }

  function Tally(keys: seq<ScopedId>, tasks: map<ScopedId, TaskState>, a: string, b: Bucket): (n: nat)
    requires forall k :: k in keys ==> k in tasks
    ensures n <= |keys|
  {
    if keys == [] then 0
    else
      Tally(keys[..|keys| - 1], tasks, a, b) + One(Counts(tasks[keys[|keys| - 1]], a, b))
  }

  ghost function Among(keys: seq<ScopedId>, tasks: map<ScopedId, TaskState>, a: string, b: Bucket): set<ScopedId>
    requires forall k :: k in keys ==> k in tasks
  {
    set k | k in keys && Counts(tasks[k], a, b)
  }

  lemma AmongLast(keys: seq<ScopedId>, k: ScopedId, tasks: map<ScopedId, TaskState>, a: string, b: Bucket)
    requires k in tasks && k !in keys && forall j :: j in keys ==> j in tasks
    ensures |Among(keys + [k], tasks, a, b)| == |Among(keys, tasks, a, b)| + One(Counts(tasks[k], a, b))
  {
    hide Counts;
    var before, after := Among(keys, tasks, a, b), Among(keys + [k], tasks, a, b);
    assert k !in before;
    if Counts(tasks[k], a, b) {
      assert after == before + {k};
    } else {
      assert after == before;
    }
  }

  lemma {:induction false} TallyCounts(keys: seq<ScopedId>, tasks: map<ScopedId, TaskState>, a: string, b: Bucket)
    requires Distinct(keys) && forall k :: k in keys ==> k in tasks
    ensures Tally(keys, tasks, a, b) == |Among(keys, tasks, a, b)|
  {
    if keys != [] {
      var before, k := keys[..|keys| - 1], keys[|keys| - 1];
      TallyCounts(before, tasks, a, b);
      assert k !in before;
      AmongLast(before, k, tasks, a, b);
      assert keys == before + [k];
    }
  }

  /** Count the retained tasks of one agent by bucket. */
  method TaskCounts(c: Cache<ScopedId, TaskState>, capacity: Capacity, a: string) returns (completed: nat, failed: nat)
    requires Lru.Valid(c, capacity)
    ensures completed == |Bucketed(c.data, a, CompletedBucket)|
    ensures failed == |Bucketed(c.data, a, FailedBucket)|
  {
    completed, failed := 0, 0;
    var i := 0;
    while i < |c.order|
      invariant 0 <= i <= |c.order|
      invariant completed == Tally(c.order[..i], c.data, a, CompletedBucket)
      invariant failed == Tally(c.order[..i], c.data, a, FailedBucket)
    {
      var task := c.data[c.order[i]];
      if task.agentId == a && task.outcome.Some? {
        if BucketOf(task.outcome.value) == CompletedBucket {
          completed := SaturatingAdd(completed, 1);
        } else {
          failed := SaturatingAdd(failed, 1);
        }
      }
      i := i + 1;
      assert c.order[..i][..i - 1] == c.order[..i - 1];
    }
    assert c.order[..i] == c.order;
    TallyCounts(c.order, c.data, a, CompletedBucket);
    TallyCounts(c.order, c.data, a, FailedBucket);
    assert Among(c.order, c.data, a, CompletedBucket) == Bucketed(c.data, a, CompletedBucket);
    assert Among(c.order, c.data, a, FailedBucket) == Bucketed(c.data, a, FailedBucket);
  }

  lemma OldestTaskIsHeld(s: State)
    requires Structure(s)
    ensures Lru.Valid(s.tasks, s.caps.tasks)
    ensures s.tasks.order != [] ==> Oldest(s.tasks) in s.tasks.data
  {}

  class StoreInner {
    const caps: Capacities
    const startedAt: Time
    var agents: Cache<string, AgentState>
    var goals: Cache<ScopedId, GoalState>
    var tasks: Cache<ScopedId, TaskState>
    var lessons: Cache<ScopedId, LessonState>
    var events: Cache<Uuid, EventRecord>
    var seen: Cache<Uuid, nat>
    var evictions: Evictions
    var counters: Counters
    var revision: nat

    ghost function View(): State
      reads this
    {
      State(caps, agents, goals, tasks, lessons, events, seen, evictions, counters, revision)
    }

    ghost predicate Valid()
      reads this
    {
      Structure(View())
    }

    constructor (capacities: Capacities, now: Time)
      ensures Valid() && View() == Initial(capacities) && startedAt == now
    {
      caps := capacities;
      startedAt := now;
      agents, goals, tasks, lessons := Empty(), Empty(), Empty(), Empty();
      events, seen := Empty(), Empty();
      evictions := Evictions(0, 0, 0, 0, 0, 0);
      counters := Counters(0, 0, 0, map[], map[]);
      revision := 0;
    }

    method EnsureAgent(e: EventEnvelope)
      requires Valid()
      modifies this`agents, this`evictions
      ensures Valid() && View() == StoreSpec.EnsureAgent(old(View()), e)
    {
      EnsureAgentKeepsStructure(View(), e);
      OldestTaskIsHeld(View());
      var key := e.agent.agentId;
      if key in agents.data { return; }
      var completed, failed := TaskCounts(tasks, caps.tasks, key);
      var record := AgentState(e.agent, key, [], map[], AgentStatus.Idle, e.sessionId, None, None,
                               e.occurredAt, e.occurredAt, completed, failed, None, None);
      var displaced;
      agents, displaced := PushWithEviction(agents, caps.agents, key, record);
      if displaced.Some? {
        evictions := evictions.(agents := SaturatingAdd(evictions.agents, 1));
      }
    }

    method InsertTask(k: ScopedId, t: TaskState)
      requires Valid() && ScopedId(t.agentId, t.task.taskId) == k
      modifies this`tasks, this`agents, this`evictions
      ensures Valid() && View() == StoreSpec.InsertTask(old(View()), k, t)
    {
      InsertTaskKeepsStructure(View(), k, t);
      OldestTaskIsHeld(View());
      hide Structure, Lru.Valid, Put, Drop, Uncount, Push, SaturatingAdd;
      ghost var before := View();
      var displaced;
      tasks, displaced := PushWithEviction(tasks, caps.tasks, k, t);
      assert View() == before.(tasks := Push(before.tasks, caps.tasks, k, t));
      if displaced.Some? {
        evictions := evictions.(tasks := SaturatingAdd(evictions.tasks, 1));
        UncountFor(displaced.value);
      }
    }

    method UncountFor(victim: TaskState)
      modifies this`agents
      ensures View() == if victim.agentId in old(agents).data
                        then SetAgent(old(View()), victim.agentId, Uncount(old(agents).data[victim.agentId], victim.outcome))
                        else old(View())
    {
      if victim.agentId in agents.data {
        agents := Put(agents, victim.agentId, Uncount(agents.data[victim.agentId], victim.outcome));
      }
    }

    method EnsureTask(k: ScopedId, at: Time)
      requires Valid()
      modifies this`tasks, this`agents, this`evictions
      ensures Valid() && View() == StoreSpec.EnsureTask(old(View()), k, at)
    {
      if k !in tasks.data {
        InsertTask(k, NewTask(InferredSpec(k.entityId), k.agentId, at, true));
      }
    }

    /** Lifecycle events reach the task first, then, if applied, the agent. */
    method ApplyToTask(k: ScopedId, e: EventEnvelope)
      requires Valid() && k.agentId == e.agent.agentId
      modifies this`tasks, this`agents, this`evictions
      ensures Valid() && View() == OnTask(old(View()), k, e)
    {
      hide Structure, Put, StoreSpec.EnsureTask, AgentAfter, TaskAfter;
      OnTaskKeepsStructure(View(), k, e);
      EnsureTask(k, e.occurredAt);
      var task := tasks.data[k];
      var previousOutcome := task.outcome;
      var applied := false;
      if e.occurredAt >= task.updatedAt {
        task := TaskAfter(task, e);
        applied := true;
      }
      tasks := Put(tasks, k, task);
      var a := e.agent.agentId;
      if (applied || e.event.ReflectionRecorded? || e.event.ErrorObserved?) && a in agents.data {
        agents := Put(agents, a, AgentAfter(agents.data[a], e, previousOutcome));
      }
    }

    method ApplyEvent(e: EventEnvelope)
      requires Valid()
      modifies this`agents, this`goals, this`tasks, this`lessons, this`evictions
      ensures Valid() && View() == Apply(old(View()), e)
    {
      hide Structure, Present, OnTask, AgentAfter, NewTask, DefineTask, PushGoal, PushLesson, UpdateAgent;
      ApplyKeepsStructure(View(), e);
      var a := e.agent.agentId;
      SeeAgent(e);
      if e.event.GoalDeclared? {
        DeclareGoal(e.event.goal, e.occurredAt, a);
        UpdateOwnAgent(e);
      } else if e.event.TaskCreated? {
        Define(ScopedId(a, e.event.spec.taskId), e.event.spec, e.occurredAt);
      } else if e.event.LessonLearned? {
        Learn(e.event.lesson, e.occurredAt, a);
      } else {
        var id := TaskIdOf(e.event);
        if id.Some? {
          ApplyToTask(ScopedId(a, id.value), e);
        } else {
          UpdateOwnAgent(e);
        }
      }
    }

    method SeeAgent(e: EventEnvelope)
      requires Valid()
      modifies this`agents, this`evictions
      ensures Valid() && View() == Present(old(View()), e)
    {
      hide Structure, StoreSpec.EnsureAgent;
      PresentKeepsStructure(View(), e);
      var a := e.agent.agentId;
      EnsureAgent(e);
      agents := Put(agents, a, Refreshed(agents.data[a], e));
    }

    method UpdateOwnAgent(e: EventEnvelope)
      modifies this`agents
      ensures View() == UpdateAgent(old(View()), e, None)
    {
      var a := e.agent.agentId;
      if a in agents.data {
        agents := Put(agents, a, AgentAfter(agents.data[a], e, None));
      }
    }

    method DeclareGoal(goal: Goal, at: Time, a: string)
      requires Valid()
      modifies this`goals, this`evictions
      ensures View() == PushGoal(old(View()), ScopedId(a, goal.goalId), GoalState(goal, a, at))
    {
      var displaced;
      goals, displaced := PushWithEviction(goals, caps.goals, ScopedId(a, goal.goalId), GoalState(goal, a, at));
      if displaced.Some? {
        evictions := evictions.(goals := SaturatingAdd(evictions.goals, 1));
      }
    }

    method Learn(lesson: Lesson, at: Time, a: string)
      requires Valid()
      modifies this`lessons, this`evictions
      ensures View() == PushLesson(old(View()), ScopedId(a, lesson.lessonId), lesson, at)
    {
      var key := ScopedId(a, lesson.lessonId);
      var observations := 1;
      if key in lessons.data {
        observations := SaturatingAdd(lessons.data[key].observations, 1);
      }
      var displaced;
      lessons, displaced := PushWithEviction(lessons, caps.lessons, key, LessonState(lesson, a, at, observations));
      if displaced.Some? {
        evictions := evictions.(lessons := SaturatingAdd(evictions.lessons, 1));
      }
    }

    method Define(k: ScopedId, spec: TaskSpec, at: Time)
      requires Valid() && spec.taskId == k.entityId
      modifies this`tasks, this`agents, this`evictions
      ensures View() == DefineTask(old(View()), k, spec, at)
    {
      if k in tasks.data {
        var existing := tasks.data[k];
        if existing.inferred || at >= existing.definitionUpdatedAt {
          existing := existing.(task := spec, agentId := k.agentId, inferred := false, definitionUpdatedAt := at,
                                createdAt := MinTime(existing.createdAt, at), updatedAt := MaxTime(existing.updatedAt, at));
        }
        tasks := Put(tasks, k, existing);
      } else {
        InsertTask(k, NewTask(spec, k.agentId, at, false));
      }
    }

    /** Validate, deduplicate, apply, record: one atomic step of the reducer. */
    method Ingest(e: EventEnvelope, transport: Transport, receivedAt: Time) returns (ack: Ack)
      requires Valid()
      modifies this
      ensures Valid() && View() == Step(old(View()), Submit(e, transport, receivedAt))
      ensures ack.Invalid? <==> !ValidEvent(e)
      ensures ack.Acknowledged? ==> ack.eventId == e.eventId && ack.revision == revision
      ensures ack.Acknowledged? ==> (ack.duplicate <==> e.eventId in old(seen).data)
    {
      StepKeepsStructure(View(), Submit(e, transport, receivedAt));
      if !ValidEvent(e) {
        RecordRejection(transport);
        return Invalid;
      }
      if e.eventId in seen.data {
        seen := Put(seen, e.eventId, seen.data[e.eventId]);
        counters := counters.(duplicate := SaturatingAdd(counters.duplicate, 1));
        return Acknowledged(true, e.eventId, revision);
      }
      ApplyEvent(e);
      ghost var applied := View();
      revision := SaturatingAdd(revision, 1);
      counters := counters.(accepted := SaturatingAdd(counters.accepted, 1),
                            acceptedBy := Bumped(counters.acceptedBy, transport));
      RememberEvent(e, transport, receivedAt);
      assert View() == Record(applied, e, transport, receivedAt);
      ack := Acknowledged(false, e.eventId, revision);
    }

    method RememberEvent(e: EventEnvelope, transport: Transport, receivedAt: Time)
      requires Valid()
      modifies this`seen, this`events, this`evictions
      ensures View() == old(View()).(
                seen := Push(old(seen), caps.idempotency, e.eventId, revision),
                events := Push(old(events), caps.events, e.eventId, EventRecord(e, transport, receivedAt)),
                evictions := old(evictions).(
                  idempotency := if Evicts(old(seen), caps.idempotency, e.eventId)
                  then SaturatingAdd(old(evictions).idempotency, 1) else old(evictions).idempotency,
                  events := if Evicts(old(events), caps.events, e.eventId)
                  then SaturatingAdd(old(evictions).events, 1) else old(evictions).events))
    {
      var forgotten;
      seen, forgotten := PushWithEviction(seen, caps.idempotency, e.eventId, revision);
      if forgotten.Some? {
        evictions := evictions.(idempotency := SaturatingAdd(evictions.idempotency, 1));
      }
      var displaced;
      events, displaced := PushWithEviction(events, caps.events, e.eventId, EventRecord(e, transport, receivedAt));
      if displaced.Some? {
        evictions := evictions.(events := SaturatingAdd(evictions.events, 1));
      }
    }

    method RecordRejection(transport: Transport)
      modifies this`counters
      ensures View() == Rejected(old(View()), transport)
    {
      counters := counters.(rejected := SaturatingAdd(counters.rejected, 1),
                            rejectedBy := Bumped(counters.rejectedBy, transport));
    }

    method TakeSnapshot(now: Time) returns (snapshot: Snapshot)
      requires Valid()
      ensures snapshot == SnapshotOf(View(), startedAt, now)
    {
      var recent := Values(events);
      if |recent| > SNAPSHOT_EVENT_LIMIT {
        recent := recent[..SNAPSHOT_EVENT_LIMIT];
      }
      var caches := CacheSnapshot(
        StatsOf(agents, caps.agents, evictions.agents), StatsOf(goals, caps.goals, evictions.goals),
        StatsOf(tasks, caps.tasks, evictions.tasks), StatsOf(lessons, caps.lessons, evictions.lessons),
        StatsOf(events, caps.events, evictions.events), StatsOf(seen, caps.idempotency, evictions.idempotency));
      snapshot := Snapshot(now, startedAt, revision, Values(agents), Values(goals), Values(tasks), Values(lessons), recent,
                           caches, counters);
    }
  }
}
