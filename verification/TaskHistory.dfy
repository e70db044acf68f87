/** Every field of a retained task, read off the accepted events that name the task since it
    was last inserted (`src/store.rs`). */
module TaskHistory {
  import opened Model
  import opened Histories
  import opened StoreSpec
  import opened StoreTasks

  // ---------- which events take effect ----------

  /** The accepted events that name task `k` since it was inserted; none if it is not retained. */
  function Named(caps: Capacities, ops: seq<Op>, k: ScopedId): seq<EventEnvelope> {
    if ops == [] || k !in Run(Initial(caps), ops).tasks.data then []
    else
      var op, before := ops[|ops| - 1], ops[..|ops| - 1];
      if Accepts(Run(Initial(caps), before), op) && EventKey(op.event) == Some(k)
      then Named(caps, before, k) + [op.event] else Named(caps, before, k)
  }

  predicate Defines(e: EventEnvelope) { e.event.TaskCreated? }

  /** The greatest instant of a history. */
  function Latest(h: seq<EventEnvelope>): Time
    requires h != []
  {
    if |h| == 1 then h[0].occurredAt else MaxTime(Latest(h[..|h| - 1]), h[|h| - 1].occurredAt)
  }

  /** A definition takes effect unless it is older than the last one that did; any other
      event unless it is older than anything that did. */
  predicate TakesEffect(h: seq<EventEnvelope>, e: EventEnvelope) {
    if h == [] then true
    else if Defines(e) then LastWhere(h, Defines).None? || LastWhere(h, Defines).value.occurredAt <= e.occurredAt
    else Latest(h) <= e.occurredAt
  }

  function Effective(es: seq<EventEnvelope>): seq<EventEnvelope> {
    if es == [] then []
    else
      var h, e := Effective(es[..|es| - 1]), es[|es| - 1];
      if TakesEffect(h, e) then h + [e] else h
  }

  // ---------- what the fields say about the history ----------

  predicate Starts(e: EventEnvelope) { e.event.TaskStarted? }

  predicate Progresses(e: EventEnvelope) { e.event.ProgressUpdated? }

  predicate Reflects(e: EventEnvelope) { e.event.ReflectionRecorded? }

  predicate SetsProgress(e: EventEnvelope) {
    e.event.ProgressUpdated? || (e.event.TaskCompleted? && e.event.outcome.Succeeded?)
  }

  predicate SetsNextAction(e: EventEnvelope) {
    e.event.ProgressUpdated? || e.event.ReflectionRecorded? || e.event.ErrorObserved?
  }

  predicate SetsStatus(e: EventEnvelope) {
    e.event.TaskStarted? || e.event.ProgressUpdated? || e.event.ErrorObserved? || e.event.TaskCompleted?
  }

  predicate SetsOutcome(e: EventEnvelope) {
    e.event.TaskStarted? || e.event.ProgressUpdated? || e.event.TaskCompleted?
  }

  /** The shown definition is the last effective one, or inferred if there is none. */
  ghost predicate DefinitionFollows(t: TaskState, k: ScopedId, h: seq<EventEnvelope>)
    requires h != []
  {
    t.agentId == k.agentId &&
    match LastWhere(h, Defines)
    case None =>
      t.inferred && t.definitionUpdatedAt == h[0].occurredAt
      && t.task == TaskSpec(k.entityId, "Task " + k.entityId, None, [], ["inferred"], None)
    case Some(d) => !t.inferred && t.definitionUpdatedAt == d.occurredAt && d.event.TaskCreated? && t.task == d.event.spec
  }

  /** The earliest of the insertion and all effective definitions. */
  function Created(h: seq<EventEnvelope>): Time
    requires h != []
  {
    if |h| == 1 then h[0].occurredAt
    else
      var created, e := Created(h[..|h| - 1]), h[|h| - 1];
      if Defines(e) then MinTime(created, e.occurredAt) else created
  }

  ghost predicate TimesFollow(t: TaskState, h: seq<EventEnvelope>)
    requires h != []
  {
    t.updatedAt == Latest(h) && t.createdAt == Created(h)
  }

  /** Attempt, plan and start are those of the last start. */
  ghost predicate StartFollows(t: TaskState, h: seq<EventEnvelope>) {
    match LastWhere(h, Starts)
    case None => t.attempt == 0 && t.planSummary == None && t.startedAt == None
    case Some(e) =>
      e.event.TaskStarted? && t.attempt == e.event.attempt && t.planSummary == e.event.planSummary
      && t.startedAt == Some(e.occurredAt)
  }

  /** Progress is the last reported value, or full after a later success. */
  ghost predicate ProgressFollows(t: TaskState, h: seq<EventEnvelope>) {
    && (match LastWhere(h, SetsProgress)
        case None => t.progress == 0.0
        case Some(e) => t.progress == if e.event.ProgressUpdated? then e.event.progress else 1.0)
    && (match LastWhere(h, Progresses)
        case None => t.progressSummary == None
        case Some(e) => e.event.ProgressUpdated? && t.progressSummary == Some(e.event.summary))
  }

  ghost predicate AdviceFollows(t: TaskState, h: seq<EventEnvelope>) {
    && (match LastWhere(h, Reflects)
        case None => t.latestReflection == None
        case Some(e) => e.event.ReflectionRecorded? && t.latestReflection == Some(e.event.reflection))
    && (match LastWhere(h, SetsNextAction)
        case None => t.nextAction == None
        case Some(e) =>
          && (e.event.ProgressUpdated? ==> t.nextAction == e.event.nextAction)
          && (e.event.ReflectionRecorded? ==> t.nextAction == e.event.reflection.nextAction)
          && (e.event.ErrorObserved? ==> t.nextAction == e.event.error.proposedRecovery))
  }

  /** Status and blocker are those of the last start, report, error or completion. */
  ghost predicate StatusFollows(t: TaskState, h: seq<EventEnvelope>) {
    match LastWhere(h, SetsStatus)
    case None => t.status.Pending? && t.blocker == None
    case Some(e) =>
      && (e.event.TaskStarted? ==> t.status.Running? && t.blocker == None)
      && (e.event.ProgressUpdated? ==>
            t.blocker == e.event.blocker && (if e.event.blocker.Some? then t.status.Blocked? else t.status.Running?))
      && (e.event.ErrorObserved? ==> t.status.Blocked? && t.blocker == Some(e.event.error.message))
      && (e.event.TaskCompleted? ==>
            && t.blocker == None
            && (e.event.outcome.Succeeded? <==> t.status.Succeeded?) && (e.event.outcome.Failed? <==> t.status.Failed?)
            && (e.event.outcome.Canceled? <==> t.status.Canceled?) && (e.event.outcome.Partial? <==> t.status.Partial?))
  }

  /** The outcome is that of the last completion, unless the task was reopened since. */
  ghost predicate OutcomeFollows(t: TaskState, h: seq<EventEnvelope>) {
    match LastWhere(h, SetsOutcome)
    case Some(e) =>
      if e.event.TaskCompleted? then
        && t.outcome == Some(e.event.outcome) && t.completionSummary == Some(e.event.completionSummary)
        && t.artifacts == e.event.artifacts && t.completedAt == Some(e.occurredAt)
      else t.outcome == None && t.completionSummary == None && t.artifacts == [] && t.completedAt == None
    case None => t.outcome == None && t.completionSummary == None && t.artifacts == [] && t.completedAt == None
  }

  /** Every field of the task is what the effective events say. */
  ghost predicate Follows(t: TaskState, k: ScopedId, h: seq<EventEnvelope>) {
    && h != []
    && DefinitionFollows(t, k, h) && TimesFollow(t, h)
    && StartFollows(t, h) && ProgressFollows(t, h) && AdviceFollows(t, h)
    && StatusFollows(t, h) && OutcomeFollows(t, h)
  }

  // ---------- one event ----------

  lemma Snoc(h: seq<EventEnvelope>, e: EventEnvelope)
    requires h != []
    ensures Latest(h + [e]) == MaxTime(Latest(h), e.occurredAt)
    ensures Created(h + [e]) == if Defines(e) then MinTime(Created(h), e.occurredAt) else Created(h)
  {
    assert (h + [e])[..|h|] == h;
  }

  lemma NextDefinition(t: TaskState, k: ScopedId, h: seq<EventEnvelope>, e: EventEnvelope)
    requires h != [] && DefinitionFollows(t, k, h) && TimesFollow(t, h) && TakesEffect(h, e)
    ensures var r := if Defines(e) then Redefined(t, e.event.spec, k.agentId, e.occurredAt) else TaskAfter(t, e);
            DefinitionFollows(r, k, h + [e])
  {
    LastWhereNext(h, e, Defines);
    hide LastWhere, Latest, Created;
  }

  lemma NextTimes(t: TaskState, k: ScopedId, h: seq<EventEnvelope>, e: EventEnvelope)
    requires h != [] && DefinitionFollows(t, k, h) && TimesFollow(t, h) && TakesEffect(h, e)
    requires Defines(e) || TaskIdOf(e.event).Some?
    ensures var r := if Defines(e) then Redefined(t, e.event.spec, k.agentId, e.occurredAt) else TaskAfter(t, e);
            TimesFollow(r, h + [e])
  {
    Snoc(h, e);
    hide LastWhere, Latest, Created;
  }

  lemma NextStart(t: TaskState, h: seq<EventEnvelope>, e: EventEnvelope)
    requires StartFollows(t, h) && ProgressFollows(t, h)
    ensures StartFollows(TaskAfter(t, e), h + [e]) && ProgressFollows(TaskAfter(t, e), h + [e])
  {
    LastWhereNext(h, e, Starts);
    LastWhereNext(h, e, SetsProgress);
    LastWhereNext(h, e, Progresses);
    hide LastWhere;
  }

  lemma NextAdvice(t: TaskState, h: seq<EventEnvelope>, e: EventEnvelope)
    requires AdviceFollows(t, h)
    ensures AdviceFollows(TaskAfter(t, e), h + [e])
  {
    LastWhereNext(h, e, Reflects);
    LastWhereNext(h, e, SetsNextAction);
    hide LastWhere;
  }

  lemma NextStatus(t: TaskState, h: seq<EventEnvelope>, e: EventEnvelope)
    requires StatusFollows(t, h) && OutcomeFollows(t, h)
    ensures StatusFollows(TaskAfter(t, e), h + [e]) && OutcomeFollows(TaskAfter(t, e), h + [e])
  {
    LastWhereNext(h, e, SetsStatus);
    LastWhereNext(h, e, SetsOutcome);
    hide LastWhere;
  }

  /** A definition leaves the working fields and their history alone. */
  lemma NextWorkOnDefinition(t: TaskState, h: seq<EventEnvelope>, e: EventEnvelope, r: TaskState)
    requires Defines(e) && r == Redefined(t, e.event.spec, t.agentId, e.occurredAt)
    requires StartFollows(t, h) && ProgressFollows(t, h) && AdviceFollows(t, h) && StatusFollows(t, h) && OutcomeFollows(t, h)
    ensures StartFollows(r, h + [e]) && ProgressFollows(r, h + [e]) && AdviceFollows(r, h + [e])
    ensures StatusFollows(r, h + [e]) && OutcomeFollows(r, h + [e])
  {
    assert TaskAfter(t, e) == t;
    NextStart(t, h, e);
    NextAdvice(t, h, e);
    NextStatus(t, h, e);
    hide LastWhere, TaskAfter;
  }

  lemma NextEffect(t: TaskState, k: ScopedId, h: seq<EventEnvelope>, e: EventEnvelope)
    requires Follows(t, k, h) && EventKey(e) == Some(k) && TakesEffect(h, e)
    ensures Follows(if Defines(e) then Redefined(t, e.event.spec, k.agentId, e.occurredAt) else Gated(t, e), k, h + [e])
  {
    NextDefinition(t, k, h, e);
    NextTimes(t, k, h, e);
    if Defines(e) {
      NextWorkOnDefinition(t, h, e, Redefined(t, e.event.spec, k.agentId, e.occurredAt));
    } else {
      NextStart(t, h, e);
      NextAdvice(t, h, e);
      NextStatus(t, h, e);
    }
    hide LastWhere, StartFollows, ProgressFollows, AdviceFollows, StatusFollows, OutcomeFollows, TaskAfter, Redefined;
  }

  /** An event without effect leaves the task as it is. */
  lemma NoEffect(t: TaskState, k: ScopedId, h: seq<EventEnvelope>, e: EventEnvelope)
    requires Follows(t, k, h) && !TakesEffect(h, e)
    ensures (if Defines(e) then Redefined(t, e.event.spec, k.agentId, e.occurredAt) else Gated(t, e)) == t
  {
    hide LastWhere, StartFollows, ProgressFollows, AdviceFollows, StatusFollows, OutcomeFollows;
  }

  lemma NewTaskFollows(k: ScopedId, at: Time, spec: TaskSpec, inferred: bool)
    ensures var t := NewTask(spec, k.agentId, at, inferred);
            StartFollows(t, []) && ProgressFollows(t, []) && AdviceFollows(t, []) && StatusFollows(t, []) && OutcomeFollows(t, [])
  {}

  lemma FirstEffect(tasks: map<ScopedId, TaskState>, k: ScopedId, e: EventEnvelope)
    requires k !in tasks && EventKey(e) == Some(k)
    ensures Follows(Touched(tasks, k, e), k, [e])
  {
    var t := if Defines(e) then NewTask(e.event.spec, k.agentId, e.occurredAt, false) else Found(tasks, k, e.occurredAt);
    LastWhereOne(e, Defines);
    assert [] + [e] == [e];
    if Defines(e) {
      NewTaskFollows(k, e.occurredAt, e.event.spec, false);
      assert TaskAfter(t, e) == t;
    } else {
      NewTaskFollows(k, e.occurredAt, InferredSpec(k.entityId), true);
    }
    NextStart(t, [], e);
    NextAdvice(t, [], e);
    NextStatus(t, [], e);
    hide LastWhere, StartFollows, ProgressFollows, AdviceFollows, StatusFollows, OutcomeFollows;
  }

  lemma TouchedFollows(tasks: map<ScopedId, TaskState>, k: ScopedId, e: EventEnvelope, h: seq<EventEnvelope>)
    requires EventKey(e) == Some(k) && (if k in tasks then Follows(tasks[k], k, h) else h == [])
    ensures Follows(Touched(tasks, k, e), k, if TakesEffect(h, e) then h + [e] else h)
  {
    hide Follows;
    if k !in tasks {
      FirstEffect(tasks, k, e);
      assert [] + [e] == [e];
    } else if TakesEffect(h, e) {
      NextEffect(tasks[k], k, h, e);
    } else {
      NoEffect(tasks[k], k, h, e);
    }
  }

  // ---------- whole runs ----------

  lemma NamedNext(caps: Capacities, ops: seq<Op>, k: ScopedId)
    requires ops != []
    ensures var s, op, before := Run(Initial(caps), ops[..|ops| - 1]), ops[|ops| - 1], ops[..|ops| - 1];
            k in Run(Initial(caps), ops).tasks.data ==>
              Effective(Named(caps, ops, k)) ==
                var h := Effective(Named(caps, before, k));
                if Accepts(s, op) && EventKey(op.event) == Some(k) && TakesEffect(h, op.event) then h + [op.event] else h
  {
    hide Step, TakesEffect, Accepts;
    var op, es := ops[|ops| - 1], Named(caps, ops[..|ops| - 1], k);
    if op.Submit? { assert (es + [op.event])[..|es|] == es; }
  }

  /** After any run every field of a retained task is what the accepted events naming it since
      its insertion say, of those that were not outdated when they arrived. */
  lemma {:induction false} TasksFollowTheirHistory(caps: Capacities, ops: seq<Op>, k: ScopedId)
    ensures var s := Run(Initial(caps), ops);
            if k in s.tasks.data then Follows(s.tasks.data[k], k, Effective(Named(caps, ops, k)))
            else Named(caps, ops, k) == []
    decreases |ops|
  {
    hide Follows, Effective, TakesEffect, Step, Touched;
    var s := Run(Initial(caps), ops);
    if ops != [] && k in s.tasks.data {
      var op, before := ops[|ops| - 1], ops[..|ops| - 1];
      TasksFollowTheirHistory(caps, before, k);
      NamedNext(caps, ops, k);
      EffectiveNothing();
      StepFollows(Run(Initial(caps), before), op, k, Effective(Named(caps, before, k)));
    }
  }

  lemma EffectiveNothing()
    ensures Effective([]) == []
  {}

  lemma StepFollows(s: State, op: Op, k: ScopedId, h: seq<EventEnvelope>)
    requires k in Step(s, op).tasks.data && (if k in s.tasks.data then Follows(s.tasks.data[k], k, h) else h == [])
    ensures Follows(Step(s, op).tasks.data[k], k,
                    if Accepts(s, op) && EventKey(op.event) == Some(k) && TakesEffect(h, op.event) then h + [op.event] else h)
  {
    hide Follows, TakesEffect, Step, Apply, Touched, ValidEvent;
    StepTouches(s, op);
    if Accepts(s, op) {
      ApplyTouches(s, op.event);
      if EventKey(op.event) == Some(k) { TouchedFollows(s.tasks.data, k, op.event, h); }
    }
  }
}
