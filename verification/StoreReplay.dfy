/** Replaying a stream with duplicates leaves the same projections as its first
    occurrences alone. */
module StoreReplay {
  import opened Sequences
  import opened Model
  import opened Lru
  import opened Recency
  import opened StoreSpec
  import opened StoreInvariants
  import opened StoreIdempotency

  /** The state with another idempotency window and other submission counters. */
  function With(s: State, seen: Cache<Uuid, nat>, counters: Counters): State {
    s.(seen := seen, counters := counters)
  }

  /** What readers see: everything but the window and the submission counters. */
  function Projection(s: State): State {
    With(s, Empty(), Counters(0, 0, 0, map[], map[]))
  }

  lemma PresentCommutes(s: State, e: EventEnvelope, seen: Cache<Uuid, nat>, c: Counters)
    ensures Present(With(s, seen, c), e) == With(Present(s, e), seen, c)
  {
    hide Push, Put, Bucketed, Refreshed, Evicts;
  }

  lemma UpdateAgentCommutes(s: State, e: EventEnvelope, previous: Option<TaskOutcome>, seen: Cache<Uuid, nat>, c: Counters)
    ensures UpdateAgent(With(s, seen, c), e, previous) == With(UpdateAgent(s, e, previous), seen, c)
  {
    hide Put, AgentAfter;
  }

  lemma InsertTaskCommutes(s: State, k: ScopedId, t: TaskState, seen: Cache<Uuid, nat>, c: Counters)
    ensures InsertTask(With(s, seen, c), k, t) == With(InsertTask(s, k, t), seen, c)
  {
    hide Put, Push, Uncount, Evicts;
  }

  lemma OnTaskCommutes(s: State, k: ScopedId, e: EventEnvelope, seen: Cache<Uuid, nat>, c: Counters)
    ensures OnTask(With(s, seen, c), k, e) == With(OnTask(s, k, e), seen, c)
  {
    hide InsertTask, Put, Gated, UpdateAgent;
    InsertTaskCommutes(s, k, NewTask(InferredSpec(k.entityId), k.agentId, e.occurredAt, true), seen, c);
    var s1 := EnsureTask(s, k, e.occurredAt);
    var t := s1.tasks.data[k];
    UpdateAgentCommutes(SetTask(s1, k, Gated(t, e)), e, t.outcome, seen, c);
  }

  lemma ApplyCommutes(s: State, e: EventEnvelope, seen: Cache<Uuid, nat>, c: Counters)
    ensures Apply(With(s, seen, c), e) == With(Apply(s, e), seen, c)
  {
    hide Present, UpdateAgent, OnTask, InsertTask, Push, Put, Redefined, Evicts, NewTask;
    PresentCommutes(s, e, seen, c);
    var s1, a := Present(s, e), e.agent.agentId;
    match e.event
    case GoalDeclared(goal) =>
      UpdateAgentCommutes(PushGoal(s1, ScopedId(a, goal.goalId), GoalState(goal, a, e.occurredAt)), e, None, seen, c);
    case TaskCreated(spec) =>
      InsertTaskCommutes(s1, ScopedId(a, spec.taskId), NewTask(spec, a, e.occurredAt, false), seen, c);
    case LessonLearned(lesson) =>
    case _ =>
      match TaskIdOf(e.event)
      case Some(id) => OnTaskCommutes(s1, ScopedId(a, id), e, seen, c);
      case None => UpdateAgentCommutes(s1, e, None, seen, c);
  }

  /** Two states that look the same and both accept still look the same. */
  lemma AcceptRespectsProjection(s: State, r: State, e: EventEnvelope, transport: Transport, at: Time)
    requires Projection(s) == Projection(r)
    requires !Evicts(s.seen, s.caps.idempotency, e.eventId) && !Evicts(r.seen, r.caps.idempotency, e.eventId)
    ensures Projection(Accept(s, e, transport, at)) == Projection(Accept(r, e, transport, at))
  {
    hide Apply, Push;
    ApplyCommutes(s, e, r.seen, r.counters);
    assert With(s, r.seen, r.counters) == r;
    ApplyKeepsBookkeeping(s, e);
    ApplyKeepsBookkeeping(r, e);
  }

  /** The first occurrence of every valid id, in order; rejected submissions drop out. */
  function FirstOccurrences(ops: seq<Op>): seq<Op> {
    if ops == [] then []
    else
      var last, before := ops[|ops| - 1], ops[..|ops| - 1];
      FirstOccurrences(before) +
      if last.Submit? && ValidEvent(last.event) && last.event.eventId !in Presented(before) then [last] else []
  }

  ghost function IdSet(ops: seq<Op>): set<Uuid> {
    set x | x in Presented(ops)
  }

  function NewId(op: Op): set<Uuid> {
    if op.Submit? && ValidEvent(op.event) then {op.event.eventId} else {}
  }

  lemma IdSetStep(ops: seq<Op>, op: Op)
    ensures IdSet(ops + [op]) == IdSet(ops) + NewId(op)
  {
    assert (ops + [op])[..|ops|] == ops;
    hide ValidEvent;
    var tail := if op.Submit? && ValidEvent(op.event) then [op.event.eventId] else [];
    assert Presented(ops + [op]) == Presented(ops) + tail;
  }

  lemma {:induction false} FirstOccurrencesPresentSameIds(ops: seq<Op>)
    ensures IdSet(FirstOccurrences(ops)) == IdSet(ops)
  {
    if ops != [] {
      var last, before := ops[|ops| - 1], ops[..|ops| - 1];
      assert ops == before + [last];
      FirstOccurrencesPresentSameIds(before);
      IdSetStep(before, last);
      var f := FirstOccurrences(before);
      IdSetStep(f, last);
      assert f + [] == f;
      hide Presented, ValidEvent;
      assert last.Submit? && last.event.eventId in Presented(before) ==> last.event.eventId in IdSet(before);
    }
  }

  lemma {:induction false} SinceIsOthers(ids: seq<Uuid>, x: Uuid)
    ensures Since(ids, x) <= (set y | y in ids) - {x}
  {
    if ids != [] { SinceIsOthers(ids[..|ids| - 1], x); }
  }

  /** With room for every id, the window flags exactly the ids presented before and has
      room for one more unless it already knows them all. */
  lemma WindowKnowsAll(caps: Capacities, ops: seq<Op>, id: Uuid)
    requires |IdSet(ops) + {id}| <= caps.idempotency
    ensures Flagged(caps, ops, id) <==> id in Presented(ops)
    ensures !Evicts(Run(Initial(caps), ops).seen, caps.idempotency, id)
  {
    FlaggedIffRecentlyPresented(caps, ops, id);
    if id in Presented(ops) {
      SinceIsOthers(Presented(ops), id);
      SubsetCount(Since(Presented(ops), id), IdSet(ops) - {id});
      assert IdSet(ops) + {id} == IdSet(ops);
    } else {
      WindowIsShort(caps, ops);
      assert |IdSet(ops) + {id}| == |IdSet(ops)| + 1;
    }
  }

  lemma WindowIsShort(caps: Capacities, ops: seq<Op>)
    ensures |Run(Initial(caps), ops).seen.order| <= |IdSet(ops)|
  {
    hide Run, Presented, RecentFirst, Structure;
    WindowHoldsRecentIds(caps, ops);
    var r := RecentFirst(Presented(ops));
    RecentFirstDistinct(Presented(ops));
    DistinctCount(r);
    assert Members(r) == IdSet(ops);
  }

  /** For any run with at most `capacity` distinct valid ids, agents, goals, tasks, lessons,
      events (contents and recency order), evictions and revision equal those that the
      first occurrences alone lead to. */
  lemma {:induction false} ReplayIsIdempotent(caps: Capacities, ops: seq<Op>)
    requires |IdSet(ops)| <= caps.idempotency
    ensures Projection(Run(Initial(caps), ops)) == Projection(Run(Initial(caps), FirstOccurrences(ops)))
  {
    hide Step, ValidEvent, Projection, IdSet, Presented, Initial;
    if ops != [] {
      var op, before := ops[|ops| - 1], ops[..|ops| - 1];
      assert ops == before + [op];
      IdSetStep(before, op);
      SubsetCount(IdSet(before), IdSet(ops));
      ReplayIsIdempotent(caps, before);
      FirstOccurrencesPresentSameIds(before);
      RunFirsts(caps, before, op);
      ReplayStep(caps, before, op, FirstOccurrences(before));
    }
  }

  predicate IsNew(ops: seq<Op>, op: Op) {
    op.Submit? && ValidEvent(op.event) && op.event.eventId !in Presented(ops)
  }

  lemma RunFirsts(caps: Capacities, ops: seq<Op>, op: Op)
    ensures var r := Run(Initial(caps), FirstOccurrences(ops));
            Run(Initial(caps), FirstOccurrences(ops + [op])) == if IsNew(ops, op) then Step(r, op) else r
  {
    hide Step, ValidEvent, Presented;
    assert (ops + [op])[..|ops|] == ops;
    var f := FirstOccurrences(ops);
    assert (f + [op])[..|f|] == f && f + [] == f;
  }

  lemma ReplayStep(caps: Capacities, ops: seq<Op>, op: Op, firsts: seq<Op>)
    requires op.Submit? && ValidEvent(op.event) ==> |IdSet(ops) + {op.event.eventId}| <= caps.idempotency
    requires IdSet(firsts) == IdSet(ops)
    requires Projection(Run(Initial(caps), ops)) == Projection(Run(Initial(caps), firsts))
    ensures Projection(Step(Run(Initial(caps), ops), op)) ==
            Projection(if IsNew(ops, op) then Step(Run(Initial(caps), firsts), op) else Run(Initial(caps), firsts))
  {
    var s, r := Run(Initial(caps), ops), Run(Initial(caps), firsts);
    if op.Submit? && ValidEvent(op.event) {
      var id := op.event.eventId;
      WindowKnowsAll(caps, ops, id);
      WindowKnowsAll(caps, firsts, id);
      WindowHoldsRecentIds(caps, ops);
      WindowHoldsRecentIds(caps, firsts);
      assert id in Presented(ops) <==> id in IdSet(ops);
      assert id in Presented(firsts) <==> id in IdSet(firsts);
      if id !in Presented(ops) {
        hide Run, Presented, Structure, Projection, Accept, Take, RecentFirst;
        AcceptRespectsProjection(s, r, op.event, op.transport, op.receivedAt);
      }
    }
  }
}
