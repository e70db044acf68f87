/** Which definition of a task wins when definitions arrive out of order. */
module StoreDefinitions {
  import opened Model
  import opened StoreSpec
  import opened StoreTasks

  datatype Definition = Definition(spec: TaskSpec, at: Time)

  /** The operation is accepted and defines task `k`. */
  predicate Defines(s: State, op: Op, k: ScopedId) {
    Accepts(s, op) && op.event.event.TaskCreated? && EventKey(op.event) == Some(k)
  }

  /** The definitions of task `k` accepted during a run, together with the one the task
      held before it, unless that was merely inferred. */
  function Definitions(s: State, ops: seq<Op>, k: ScopedId): set<Definition>
    requires k in s.tasks.data
  {
    if ops == [] then
      var t := s.tasks.data[k];
      if t.inferred then {} else {Definition(t.task, t.definitionUpdatedAt)}
    else
      var last := ops[|ops| - 1];
      Definitions(s, ops[..|ops| - 1], k) +
      if Defines(Run(s, ops[..|ops| - 1]), last, k)
      then {Definition(last.event.event.spec, last.event.occurredAt)} else {}
  }

  ghost predicate NeverEvicted(s: State, ops: seq<Op>, k: ScopedId) {
    forall i: nat :: i <= |ops| ==> k in Run(s, ops[..i]).tasks.data
  }

  /** The task shows a definition with the greatest timestamp among `ds`, and counts as
      inferred exactly when there is none. */
  ghost predicate ShowsNewest(t: TaskState, ds: set<Definition>) {
    && (t.inferred <==> ds == {})
    && (!t.inferred ==> Definition(t.task, t.definitionUpdatedAt) in ds)
    && (forall d :: d in ds ==> d.at <= t.definitionUpdatedAt)
  }

  lemma StepDefinition(s: State, op: Op, k: ScopedId)
    requires k in s.tasks.data && k in Step(s, op).tasks.data
    ensures var t, t' := s.tasks.data[k], Step(s, op).tasks.data[k];
            if Defines(s, op, k) && (t.inferred || op.event.occurredAt >= t.definitionUpdatedAt)
            then t'.task == op.event.event.spec && t'.definitionUpdatedAt == op.event.occurredAt && !t'.inferred
            else t'.task == t.task && t'.definitionUpdatedAt == t.definitionUpdatedAt && t'.inferred == t.inferred
  {
    hide Step, Apply, ValidEvent;
    StepTouches(s, op);
    if Accepts(s, op) { ApplyTouches(s, op.event); }
  }

  /** Definitions may arrive in any order and interleave with any other operation: a task
      that is never evicted ends up with the newest of them. */
  lemma {:induction false} NewestDefinitionWins(s: State, ops: seq<Op>, k: ScopedId)
    requires NeverEvicted(s, ops, k)
    ensures k in s.tasks.data && k in Run(s, ops).tasks.data
    ensures ShowsNewest(Run(s, ops).tasks.data[k], Definitions(s, ops, k))
  {
    assert ops[..0] == [] && ops[..|ops|] == ops;
    assert k in Run(s, ops[..0]).tasks.data && k in Run(s, ops[..|ops|]).tasks.data;
    if ops != [] {
      var before := ops[..|ops| - 1];
      forall i: nat | i <= |before| ensures k in Run(s, before[..i]).tasks.data {
        assert before[..i] == ops[..i];
      }
      NewestDefinitionWins(s, before, k);
      hide Step;
      StepDefinition(Run(s, before), ops[|ops| - 1], k);
    }
  }

  /** With distinct timestamps the arrival order of the definitions does not matter. */
  lemma ArrivalOrderDoesNotMatter(s: State, xs: seq<Op>, s': State, ys: seq<Op>, k: ScopedId)
    requires NeverEvicted(s, xs, k) && NeverEvicted(s', ys, k)
    requires k in s.tasks.data && k in s'.tasks.data
    requires Definitions(s, xs, k) == Definitions(s', ys, k) != {}
    requires forall d, d' :: d in Definitions(s, xs, k) && d' in Definitions(s, xs, k) && d.at == d'.at ==> d == d'
    ensures k in Run(s, xs).tasks.data && k in Run(s', ys).tasks.data
    ensures Run(s, xs).tasks.data[k].task == Run(s', ys).tasks.data[k].task
    ensures Run(s, xs).tasks.data[k].definitionUpdatedAt == Run(s', ys).tasks.data[k].definitionUpdatedAt
  {
    hide NeverEvicted, Definitions, Run;
    NewestDefinitionWins(s, xs, k);
    NewestDefinitionWins(s', ys, k);
  }
}
