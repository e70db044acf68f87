/** What a run does to retained tasks: which task a step touches and how, the shape every
    retained task keeps, and what its outcome says about the run. */
module StoreTasks {
  import opened Model
  import opened StoreSpec

  // ---------- the footprint of one event ----------

  /** The task an event creates, redefines or updates. */
  function EventKey(e: EventEnvelope): Option<ScopedId> {
    if e.event.TaskCreated? then Some(ScopedId(e.agent.agentId, e.event.spec.taskId))
    else match TaskIdOf(e.event)
         case Some(id) => Some(ScopedId(e.agent.agentId, id))
         case None => None
  }

  /** The task as an event other than a definition finds it. */
  function Found(tasks: map<ScopedId, TaskState>, k: ScopedId, at: Time): TaskState {
    if k in tasks then tasks[k] else NewTask(InferredSpec(k.entityId), k.agentId, at, true)
  }

  function Touched(tasks: map<ScopedId, TaskState>, k: ScopedId, e: EventEnvelope): TaskState {
    if e.event.TaskCreated? then
      if k in tasks then Redefined(tasks[k], e.event.spec, k.agentId, e.occurredAt)
      else NewTask(e.event.spec, k.agentId, e.occurredAt, false)
    else Gated(Found(tasks, k, e.occurredAt), e)
  }

  /** `after` holds only tasks of `before`, unchanged, and possibly `k` with value `t`. */
  ghost predicate OnlyTouches(before: map<ScopedId, TaskState>, after: map<ScopedId, TaskState>, k: ScopedId, t: TaskState) {
    && k in after && after[k] == t
    && forall j :: j in after && j != k ==> j in before && after[j] == before[j]
  }

  lemma InsertTaskTouches(s: State, k: ScopedId, t: TaskState)
    ensures OnlyTouches(s.tasks.data, InsertTask(s, k, t).tasks.data, k, t)
  {}

  lemma OnTaskTouches(s: State, k: ScopedId, e: EventEnvelope)
    requires !e.event.TaskCreated?
    ensures OnlyTouches(s.tasks.data, OnTask(s, k, e).tasks.data, k, Touched(s.tasks.data, k, e))
  {
    if k !in s.tasks.data {
      InsertTaskTouches(s, k, NewTask(InferredSpec(k.entityId), k.agentId, e.occurredAt, true));
    }
    hide InsertTask, Gated, AgentAfter;
    var s1 := EnsureTask(s, k, e.occurredAt);
    assert s1.tasks.data[k] == Found(s.tasks.data, k, e.occurredAt);
  }

  lemma DefineTaskTouches(s: State, k: ScopedId, e: EventEnvelope)
    requires e.event.TaskCreated?
    ensures OnlyTouches(s.tasks.data, DefineTask(s, k, e.event.spec, e.occurredAt).tasks.data, k, Touched(s.tasks.data, k, e))
  {
    if k !in s.tasks.data {
      InsertTaskTouches(s, k, NewTask(e.event.spec, k.agentId, e.occurredAt, false));
    }
  }

  /** An event touches the task it names and no other; insertion may displace one. */
  lemma ApplyTouches(s: State, e: EventEnvelope)
    ensures match EventKey(e)
            case Some(k) => OnlyTouches(s.tasks.data, Apply(s, e).tasks.data, k, Touched(s.tasks.data, k, e))
            case None => Apply(s, e).tasks == s.tasks
  {
    hide OnTask, DefineTask, Touched, OnlyTouches, AgentAfter, Refreshed, NewAgent;
    var a := e.agent.agentId;
    var s1 := Present(s, e);
    assert s1.tasks == s.tasks;
    if e.event.TaskCreated? {
      DefineTaskTouches(s1, ScopedId(a, e.event.spec.taskId), e);
    } else if TaskIdOf(e.event).Some? {
      OnTaskTouches(s1, ScopedId(a, TaskIdOf(e.event).value), e);
    }
  }

  /** Only an accepted submission changes tasks, agents, goals, lessons or events. */
  predicate Accepts(s: State, op: Op) {
    op.Submit? && ValidEvent(op.event) && op.event.eventId !in s.seen.data
  }

  lemma StepTouches(s: State, op: Op)
    ensures Accepts(s, op) ==> Step(s, op).tasks == Apply(s, op.event).tasks
    ensures !Accepts(s, op) ==> Step(s, op).tasks == s.tasks
  {
    hide Apply;
  }

  // ---------- the shape of a retained task ----------

  ghost predicate Shape(t: TaskState) {
    && (t.status.Blocked? <==> t.blocker.Some?)
    && (t.outcome.Some? <==> t.completedAt.Some?)
    && (t.outcome.Some? <==> t.completionSummary.Some?)
    && (IsTerminal(t.status) ==> t.outcome.Some? && t.status == StatusOf(t.outcome.value))
    && (t.outcome.Some? ==> IsTerminal(t.status) || t.status.Blocked?)
    && (t.status.Succeeded? ==> t.progress == 1.0)
    && UnitInterval(t.progress)
    && t.createdAt <= t.definitionUpdatedAt <= t.updatedAt
  }

  ghost predicate Shaped(s: State) {
    forall k :: k in s.tasks.data ==> Shape(s.tasks.data[k])
  }

  lemma TouchedHasShape(tasks: map<ScopedId, TaskState>, k: ScopedId, e: EventEnvelope)
    requires k in tasks ==> Shape(tasks[k])
    requires ValidEvent(e) && EventKey(e) == Some(k)
    ensures Shape(Touched(tasks, k, e))
  {
    if !e.event.TaskCreated? {
      var t := Found(tasks, k, e.occurredAt);
      assert Shape(t);
    }
  }

  lemma StepKeepsShape(s: State, op: Op)
    requires Shaped(s)
    ensures Shaped(Step(s, op))
  {
    StepTouches(s, op);
    if Accepts(s, op) {
      hide Step, Apply, Shape, Touched;
      ApplyTouches(s, op.event);
      match EventKey(op.event)
      case Some(k) => TouchedHasShape(s.tasks.data, k, op.event);
      case None =>
    }
  }

  /** Over all runs: Blocked iff a blocker is present; outcome, completion time and
      completion summary are present together; a terminal status has the matching outcome;
      Succeeded implies full progress; created <= defined <= updated. */
  lemma {:induction false} TasksKeepTheirShape(caps: Capacities, ops: seq<Op>)
    ensures Shaped(Run(Initial(caps), ops))
  {
    if ops != [] {
      TasksKeepTheirShape(caps, ops[..|ops| - 1]);
      StepKeepsShape(Run(Initial(caps), ops[..|ops| - 1]), ops[|ops| - 1]);
    }
  }

  /** A task that is never evicted never moves back in time. */
  lemma UpdatedAtNeverDecreases(s: State, op: Op, k: ScopedId)
    requires k in s.tasks.data && k in Step(s, op).tasks.data
    ensures s.tasks.data[k].updatedAt <= Step(s, op).tasks.data[k].updatedAt
  {
    StepTouches(s, op);
    if Accepts(s, op) {
      hide Step, Apply;
      ApplyTouches(s, op.event);
    }
  }

  // ---------- where contested completions come from ----------

  /** The task claims a blocker while it still holds an outcome. */
  predicate Contested(t: TaskState) {
    t.status.Blocked? && t.outcome.Some?
  }

  /** The event updates task `k`: it names it and is not older than its last update. */
  predicate Updates(tasks: map<ScopedId, TaskState>, k: ScopedId, e: EventEnvelope) {
    && !e.event.TaskCreated? && EventKey(e) == Some(k)
    && e.occurredAt >= Found(tasks, k, e.occurredAt).updatedAt
  }

  predicate Completes(s: State, op: Op, k: ScopedId) {
    Accepts(s, op) && Updates(s.tasks.data, k, op.event) && op.event.event.TaskCompleted?
  }

  predicate Errs(s: State, op: Op, k: ScopedId) {
    Accepts(s, op) && Updates(s.tasks.data, k, op.event) && op.event.event.ErrorObserved?
  }

  predicate Reopens(s: State, op: Op, k: ScopedId) {
    && Accepts(s, op) && Updates(s.tasks.data, k, op.event)
    && (op.event.event.TaskStarted? || op.event.event.ProgressUpdated?)
  }

  predicate HasOutcome(s: State, k: ScopedId) {
    k in s.tasks.data && s.tasks.data[k].outcome.Some?
  }

  predicate IsContested(s: State, k: ScopedId) {
    k in s.tasks.data && Contested(s.tasks.data[k])
  }

  lemma TouchedOutcome(tasks: map<ScopedId, TaskState>, k: ScopedId, e: EventEnvelope)
    requires EventKey(e) == Some(k) && (k in tasks ==> Shape(tasks[k]))
    ensures var t, u := Touched(tasks, k, e), Updates(tasks, k, e);
            var reopened := u && (e.event.TaskStarted? || e.event.ProgressUpdated?);
            var completed := u && e.event.TaskCompleted?;
            var had := k in tasks && tasks[k].outcome.Some?;
            && (t.outcome.Some? <==> completed || (had && !reopened))
            && (Contested(t) <==>
                !completed && !reopened && had && (Contested(tasks[k]) || (u && e.event.ErrorObserved?)))
  {}

  /** How one step changes a task's outcome and the contest about it. */
  lemma StepOutcome(s: State, op: Op, k: ScopedId)
    requires Shaped(s)
    ensures HasOutcome(Step(s, op), k) <==>
              Completes(s, op, k) || (k in Step(s, op).tasks.data && HasOutcome(s, k) && !Reopens(s, op, k))
    ensures IsContested(Step(s, op), k) <==>
              k in Step(s, op).tasks.data && !Completes(s, op, k) && !Reopens(s, op, k)
              && HasOutcome(s, k) && (IsContested(s, k) || Errs(s, op, k))
  {
    StepTouches(s, op);
    if Accepts(s, op) {
      hide Step, Apply, Touched, Shape, Found;
      ApplyTouches(s, op.event);
      if EventKey(op.event) == Some(k) {
        TouchedOutcome(s.tasks.data, k, op.event);
      }
    }
  }

  // The same, by position in a run.

  ghost predicate RetainedAfter(caps: Capacities, ops: seq<Op>, k: ScopedId, i: nat) {
    i < |ops| && k in Run(Initial(caps), ops[..i + 1]).tasks.data
  }

  ghost predicate CompletesAt(caps: Capacities, ops: seq<Op>, k: ScopedId, i: nat) {
    i < |ops| && Completes(Run(Initial(caps), ops[..i]), ops[i], k)
  }

  ghost predicate ReopensAt(caps: Capacities, ops: seq<Op>, k: ScopedId, i: nat) {
    i < |ops| && Reopens(Run(Initial(caps), ops[..i]), ops[i], k)
  }

  ghost predicate ErrsAt(caps: Capacities, ops: seq<Op>, k: ScopedId, i: nat) {
    i < |ops| && Errs(Run(Initial(caps), ops[..i]), ops[i], k)
  }

  /** Step `i` leaves the task retained and its completion standing. */
  ghost predicate StandsAt(caps: Capacities, ops: seq<Op>, k: ScopedId, i: nat) {
    RetainedAfter(caps, ops, k, i) && !ReopensAt(caps, ops, k, i) && !CompletesAt(caps, ops, k, i)
  }

  /** A completion applied at step `p`, and since then the task was retained and neither
      reopened nor completed again. */
  ghost predicate CompletedSince(caps: Capacities, ops: seq<Op>, k: ScopedId, p: nat) {
    CompletesAt(caps, ops, k, p) && forall i: nat :: p < i < |ops| ==> StandsAt(caps, ops, k, i)
  }

  lemma SamePrefix(caps: Capacities, ops: seq<Op>, k: ScopedId, i: nat)
    requires i + 1 < |ops|
    ensures CompletesAt(caps, ops, k, i) == CompletesAt(caps, ops[..|ops| - 1], k, i)
    ensures StandsAt(caps, ops, k, i) == StandsAt(caps, ops[..|ops| - 1], k, i)
    ensures ErrsAt(caps, ops, k, i) == ErrsAt(caps, ops[..|ops| - 1], k, i)
  {
    hide Run, Completes, Reopens, Errs;
    var before := ops[..|ops| - 1];
    assert before[..i] == ops[..i] && before[..i + 1] == ops[..i + 1] && before[i] == ops[i];
  }

  lemma LastStep(caps: Capacities, ops: seq<Op>, k: ScopedId)
    requires ops != []
    ensures var n := |ops| - 1;
            var s, s' := Run(Initial(caps), ops[..n]), Run(Initial(caps), ops);
            && (HasOutcome(s', k) <==>
                CompletesAt(caps, ops, k, n) || (HasOutcome(s, k) && StandsAt(caps, ops, k, n)))
            && (IsContested(s', k) <==>
                HasOutcome(s, k) && StandsAt(caps, ops, k, n) && (IsContested(s, k) || ErrsAt(caps, ops, k, n)))
  {
    var n := |ops| - 1;
    TasksKeepTheirShape(caps, ops[..n]);
    assert ops[..n + 1] == ops;
    hide Step, Completes, Reopens, Errs, HasOutcome, IsContested, Shaped;
    StepOutcome(Run(Initial(caps), ops[..n]), ops[n], k);
    assert HasOutcome(Run(Initial(caps), ops), k) && !CompletesAt(caps, ops, k, n) ==> RetainedAfter(caps, ops, k, n);
  }

  lemma CompletedSinceStep(caps: Capacities, ops: seq<Op>, k: ScopedId, p: nat)
    requires ops != []
    ensures var n := |ops| - 1;
            CompletedSince(caps, ops, k, p) <==>
              if p < n then CompletedSince(caps, ops[..n], k, p) && StandsAt(caps, ops, k, n)
              else p == n && CompletesAt(caps, ops, k, n)
  {
    hide StandsAt, CompletesAt, Run;
    var n := |ops| - 1;
    forall i: nat | i < n
      ensures CompletesAt(caps, ops, k, i) == CompletesAt(caps, ops[..n], k, i)
      ensures StandsAt(caps, ops, k, i) == StandsAt(caps, ops[..n], k, i)
    {
      SamePrefix(caps, ops, k, i);
    }
    CompletesInside(caps, ops, k, p);
    CompletesInside(caps, ops[..n], k, p);
  }

  lemma CompletesInside(caps: Capacities, ops: seq<Op>, k: ScopedId, i: nat)
    ensures CompletesAt(caps, ops, k, i) || ErrsAt(caps, ops, k, i) ==> i < |ops|
  {}

  /** A retained task holds an outcome exactly when some completion still stands. */
  lemma {:induction false} OutcomeMeansStandingCompletion(caps: Capacities, ops: seq<Op>, k: ScopedId)
    ensures HasOutcome(Run(Initial(caps), ops), k) <==> exists p :: CompletedSince(caps, ops, k, p)
  {
    if ops != [] {
      var n := |ops| - 1;
      OutcomeMeansStandingCompletion(caps, ops[..n], k);
      LastStep(caps, ops, k);
      hide CompletedSince, HasOutcome, StandsAt, Run;
      forall p: nat
        ensures CompletedSince(caps, ops, k, p) <==>
                  if p < n then CompletedSince(caps, ops[..n], k, p) && StandsAt(caps, ops, k, n)
                  else p == n && CompletesAt(caps, ops, k, n)
        ensures CompletedSince(caps, ops[..n], k, p) ==> p < n
      {
        CompletedSinceStep(caps, ops, k, p);
        CompletedSinceIsInside(caps, ops[..n], k, p);
      }
      assert CompletesAt(caps, ops, k, n) ==> CompletedSince(caps, ops, k, n);
    }
  }

  lemma CompletedSinceIsInside(caps: Capacities, ops: seq<Op>, k: ScopedId, p: nat)
    ensures CompletedSince(caps, ops, k, p) ==> p < |ops|
  {}

  ghost predicate ErrorAfterCompletion(caps: Capacities, ops: seq<Op>, k: ScopedId) {
    exists p, q :: p < q && CompletedSince(caps, ops, k, p) && ErrsAt(caps, ops, k, q)
  }

  lemma ErrorPairShrinks(caps: Capacities, ops: seq<Op>, k: ScopedId, p: nat, q: nat)
    requires ops != [] && p < q && CompletedSince(caps, ops, k, p) && ErrsAt(caps, ops, k, q)
    ensures var n := |ops| - 1;
            && CompletedSince(caps, ops[..n], k, p) && StandsAt(caps, ops, k, n)
            && (q == n || ErrsAt(caps, ops[..n], k, q))
  {
    hide CompletedSince, StandsAt, Run, ErrsAt;
    CompletesInside(caps, ops, k, q);
    CompletedSinceStep(caps, ops, k, p);
    if q < |ops| - 1 { SamePrefix(caps, ops, k, q); }
  }

  lemma ErrorPairGrows(caps: Capacities, ops: seq<Op>, k: ScopedId, p: nat, q: nat)
    requires ops != [] && p < q && CompletedSince(caps, ops[..|ops| - 1], k, p) && StandsAt(caps, ops, k, |ops| - 1)
    requires ErrsAt(caps, ops[..|ops| - 1], k, q)
    ensures CompletedSince(caps, ops, k, p) && ErrsAt(caps, ops, k, q)
  {
    hide CompletedSince, StandsAt, Run, ErrsAt;
    CompletesInside(caps, ops[..|ops| - 1], k, q);
    CompletedSinceStep(caps, ops, k, p);
    SamePrefix(caps, ops, k, q);
  }

  lemma ErrorAfterCompletionStep(caps: Capacities, ops: seq<Op>, k: ScopedId)
    requires ops != []
    ensures var n := |ops| - 1;
            ErrorAfterCompletion(caps, ops, k) <==>
              && (exists p :: CompletedSince(caps, ops[..n], k, p)) && StandsAt(caps, ops, k, n)
              && (ErrorAfterCompletion(caps, ops[..n], k) || ErrsAt(caps, ops, k, n))
  {
    hide CompletedSince, StandsAt, Run, ErrsAt;
    var n, before := |ops| - 1, ops[..|ops| - 1];
    if ErrorAfterCompletion(caps, ops, k) {
      var p, q :| p < q && CompletedSince(caps, ops, k, p) && ErrsAt(caps, ops, k, q);
      ErrorPairShrinks(caps, ops, k, p, q);
    } else if StandsAt(caps, ops, k, n) {
      if ErrorAfterCompletion(caps, before, k) {
        var p, q :| p < q && CompletedSince(caps, before, k, p) && ErrsAt(caps, before, k, q);
        ErrorPairGrows(caps, ops, k, p, q);
      } else if p :| CompletedSince(caps, before, k, p) {
        CompletedSinceIsInside(caps, before, k, p);
        CompletedSinceStep(caps, ops, k, p);
      }
    }
  }

  /** A retained task is contested exactly when an error was applied after a completion
      that was neither reopened nor completed again since. */
  lemma {:induction false} ContestedMeansErrorAfterCompletion(caps: Capacities, ops: seq<Op>, k: ScopedId)
    ensures IsContested(Run(Initial(caps), ops), k) <==> ErrorAfterCompletion(caps, ops, k)
  {
    if ops != [] {
      var n := |ops| - 1;
      ContestedMeansErrorAfterCompletion(caps, ops[..n], k);
      OutcomeMeansStandingCompletion(caps, ops[..n], k);
      hide HasOutcome, CompletedSince, IsContested, StandsAt, ErrsAt, Run, ErrorAfterCompletion;
      LastStep(caps, ops, k);
      ErrorAfterCompletionStep(caps, ops, k);
    }
  }
}
