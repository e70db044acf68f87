/** The coordination planner of `src/coordination.rs`: every retained task becomes an
    assignment candidate, an intervention or a hold; candidates go through the scheduler. */
module Coordination {
  import opened Model
  import opened Orders
  import opened Recency
  import opened RemainingDepth
  import opened Analysis
  import opened FairShare
  import opened Scheduling

  datatype InterventionKind = RepairDependencyGraph | DeclareMissingGoal | ReconcileCompletion

  datatype HoldReason = AgentOffline | WaitingOnDependencies | Terminal | AssignmentLimit

  datatype Intervention = Intervention(
    interventionId: string,
    key: TaskKey,
    goalId: Option<string>,
    kind: InterventionKind,
    priority: nat,
    diagnosticIds: seq<string>,
    sourceEventIds: seq<Uuid>,
    sourceEventsRetained: bool)

  datatype HeldTask = HeldTask(
    key: TaskKey,
    goalId: Option<string>,
    reason: HoldReason,
    unresolved: seq<string>,
    diagnosticIds: seq<string>,
    sourceEventIds: seq<Uuid>,
    sourceEventsRetained: bool)

  datatype PlanningPolicy = PlanningPolicy(maxAssignments: nat, maxPerAgent: nat, maxInterventions: nat, maxHolds: nat)

  predicate ValidPolicy(p: PlanningPolicy) {
    p.maxAssignments > 0 && p.maxPerAgent > 0 && p.maxInterventions > 0 && p.maxHolds > 0
  }

  // ---------- names and identifiers ----------

  function RuleName(r: Rule): string {
    match r
    case StalledTask => "stalled_task"
    case RetryLoop => "retry_loop"
    case BlockedDependency => "blocked_dependency"
    case OrphanDependency => "orphan_dependency"
    case DependencyCycle => "dependency_cycle"
    case OrphanGoal => "orphan_goal"
    case MissingEvidence => "missing_evidence"
    case LowConfidence => "low_confidence"
    case MissingNextAction => "missing_next_action"
    case CompletionMismatch => "completion_mismatch"
  }

  function ActionName(a: Action): string {
    match a
    case StartTask => "start_task"
    case ContinueTask => "continue_task"
    case ResolveBlocker => "resolve_blocker"
    case RequestCheckpoint => "request_checkpoint"
    case ChangeStrategy => "change_strategy"
    case GatherEvidence => "gather_evidence"
    case DefineNextAction => "define_next_action"
  }

  function KindName(k: InterventionKind): string {
    match k
    case RepairDependencyGraph => "repair_dependency_graph"
    case DeclareMissingGoal => "declare_missing_goal"
    case ReconcileCompletion => "reconcile_completion"
  }

  function ScopedName(name: string, k: TaskKey): string {
    name + ":" + k.agent + ":" + k.task
  }

  function Names(fs: seq<Finding>, k: TaskKey): seq<string> {
    if fs == [] then [] else [ScopedName(RuleName(fs[0].rule), k)] + Names(fs[1..], k)
  }

  /** Diagnostic ids in id order. */
  function DiagnosticIds(t: TaskAnalysis): seq<string> {
    Sort(StrLe, Names(t.findings, t.key))
  }

  predicate NatLe(x: nat, y: nat) { x <= y }

  /** Source events of the task and its diagnostics: sorted, deduplicated, at most 16. */
  function SourceIds(t: TaskAnalysis): seq<Uuid> {
    Take(Ascending(NatLe, set id: nat | id in t.sourceEventIds), 16)
  }

  // ---------- priorities ----------

  function SeverityBonus(s: Severity): nat {
    match s
    case Critical => 80
    case Warning => 40
    case Info => 10
  }

  function MaxBonus(fs: seq<Finding>): nat {
    if fs == [] then 0 else Max(SeverityBonus(fs[0].severity), MaxBonus(fs[1..]))
  }

  function ActionPriority(a: Action): nat {
    match a
    case ChangeStrategy => 900
    case RequestCheckpoint => 850
    case ResolveBlocker => 800
    case GatherEvidence => 700
    case DefineNextAction => 650
    case StartTask => 600
    case ContinueTask => 500
  }

  function KindPriority(k: InterventionKind): nat {
    match k
    case ReconcileCompletion => 1200
    case RepairDependencyGraph => 1100
    case DeclareMissingGoal => 1000
  }

  const U32_LIMIT: nat := 0x1_0000_0000

  /** The age in seconds is cast to 32 bits before it is turned into minutes. */
  function StaleBonus(seconds: nat): nat {
    Min((seconds % U32_LIMIT) / 60, 100)
  }

  function AssignmentPriority(t: TaskAnalysis, a: Action): (p: nat)
    ensures p < U32_LIMIT
  {
    BonusIsSmall(t.findings);
    ActionPriority(a) + (if t.onCriticalPath then 100 else 0) + MaxBonus(t.findings) + 5 * Min(t.attempt, 10)
    + StaleBonus(t.staleForSeconds)
  }

  lemma {:induction false} BonusIsSmall(fs: seq<Finding>)
    ensures MaxBonus(fs) <= 80
  {
    if fs != [] { BonusIsSmall(fs[1..]); }
  }

  // ---------- classification ----------

  function InterventionKindFor(t: TaskAnalysis): Option<InterventionKind> {
    if Has(t.findings, CompletionMismatch) then Some(ReconcileCompletion)
    else if Has(t.findings, DependencyCycle) || Has(t.findings, OrphanDependency) then Some(RepairDependencyGraph)
    else if Has(t.findings, OrphanGoal) then Some(DeclareMissingGoal)
    else None
  }

  function ActionFor(t: TaskAnalysis): Option<Action> {
    if Has(t.findings, RetryLoop) then Some(ChangeStrategy)
    else if Has(t.findings, StalledTask) then Some(RequestCheckpoint)
    else if t.status.Blocked? then Some(ResolveBlocker)
    else if Has(t.findings, LowConfidence) || Has(t.findings, MissingEvidence) then Some(GatherEvidence)
    else if Has(t.findings, MissingNextAction) then Some(DefineNextAction)
    else if t.status.Pending? then Some(StartTask)
    else if t.status.Running? then Some(ContinueTask)
    else None
  }

  datatype Class = Intervene(intervention: Intervention) | Hold(held: HeldTask) | Candidate(assignment: Assignment)

  function HoldFor(t: TaskAnalysis, reason: HoldReason): HeldTask {
    HeldTask(t.key, t.goalId, reason, t.unresolved + t.missing, DiagnosticIds(t), SourceIds(t), t.sourceEventIds != [])
  }

  function InterventionFor(t: TaskAnalysis, kind: InterventionKind): Intervention {
    Intervention(ScopedName(KindName(kind), t.key), t.key, t.goalId, kind,
                 KindPriority(kind) + (if t.onCriticalPath then 100 else 0) + MaxBonus(t.findings),
                 DiagnosticIds(t), SourceIds(t), t.sourceEventIds != [])
  }

  function AssignmentFor(t: TaskAnalysis, action: Action): Assignment {
    Assignment(ScopedName(ActionName(action), t.key), t.key, t.goalId, action, AssignmentPriority(t, action),
               t.onCriticalPath, DiagnosticIds(t), SourceIds(t), t.sourceEventIds != [])
  }

  function Classify(t: TaskAnalysis, statuses: map<string, AgentStatus>): Class {
    var kind := InterventionKindFor(t);
    if kind.Some? then Intervene(InterventionFor(t, kind.value))
    else if t.key.agent in statuses && statuses[t.key.agent].Offline? then Hold(HoldFor(t, AgentOffline))
    else if t.missing != [] || t.unresolved != [] then Hold(HoldFor(t, WaitingOnDependencies))
    else
      var action := ActionFor(t);
      if action.Some? then Candidate(AssignmentFor(t, action.value)) else Hold(HoldFor(t, Terminal))
  }

  /** The three lists that the classification loop fills. */
  datatype Sorted3 = Sorted3(candidates: seq<Assignment>, interventions: seq<Intervention>, held: seq<HeldTask>)

  function Classified(ts: seq<TaskAnalysis>, statuses: map<string, AgentStatus>): Sorted3 {
    if ts == [] then Sorted3([], [], [])
    else
      var r := Classified(ts[..|ts| - 1], statuses);
      match Classify(ts[|ts| - 1], statuses)
      case Candidate(a) => r.(candidates := r.candidates + [a])
      case Intervene(i) => r.(interventions := r.interventions + [i])
      case Hold(h) => r.(held := r.held + [h])
  }

  // ---------- the plan ----------

  predicate InterventionLe(x: Intervention, y: Intervention) {
    if x.priority != y.priority then x.priority > y.priority
    else if x.key != y.key then KeyLe(x.key, y.key)
    else StrLe(x.interventionId, y.interventionId)
  }

  function HoldRank(r: HoldReason): nat {
    match r
    case AgentOffline => 1
    case WaitingOnDependencies => 2
    case AssignmentLimit => 3
    case Terminal => 4
  }

  predicate HoldLe(x: HeldTask, y: HeldTask) {
    if x.key != y.key then KeyLe(x.key, y.key) else HoldRank(x.reason) <= HoldRank(y.reason)
  }

  function Suppress(a: Assignment): HeldTask {
    HeldTask(a.key, a.goalId, AssignmentLimit, [], a.diagnosticIds, a.sourceEventIds, a.sourceEventsRetained)
  }

  function SuppressAll(s: seq<Assignment>): (r: seq<HeldTask>)
    ensures |r| == |s|
  {
    if s == [] then [] else [Suppress(s[0])] + SuppressAll(s[1..])
  }

  /** The plan before its lists are cut to the configured lengths. */
  datatype Draft = Draft(candidates: seq<Assignment>, assignments: seq<Assignment>, suppressed: seq<Assignment>,
                         interventions: seq<Intervention>, held: seq<HeldTask>)

  function DraftOf(ts: seq<TaskAnalysis>, statuses: map<string, AgentStatus>, policy: PlanningPolicy): Draft {
    var c := Classified(ts, statuses);
    var candidates := Sort(AssignmentLe, c.candidates);
    var g := Group(candidates);
    var selected := Selected(AgentOrder(g), g, policy.maxAssignments, policy.maxPerAgent);
    var suppressed := Suppressed(g, selected);
    Draft(candidates, selected, suppressed, Sort(InterventionLe, c.interventions),
          Sort(HoldLe, Sort(HoldLe, c.held) + SuppressAll(suppressed)))
  }

  datatype Summary = Summary(totalTasks: nat, candidates: nat, assignments: nat, agentsWithAssignments: nat,
                             interventions: nat, heldTasks: nat, suppressed: nat, omittedInterventions: nat,
                             omittedHolds: nat)

  datatype Plan = Plan(summary: Summary, assignments: seq<Assignment>, interventions: seq<Intervention>,
                       held: seq<HeldTask>)

  function PlanOf(ts: seq<TaskAnalysis>, statuses: map<string, AgentStatus>, policy: PlanningPolicy): Plan {
    var d := DraftOf(ts, statuses, policy);
    var interventions := Take(d.interventions, policy.maxInterventions);
    var held := Take(d.held, policy.maxHolds);
    Plan(Summary(|ts|, |d.candidates|, |d.assignments|, |AgentsOf(d.assignments)|, |interventions|, |held|,
                 |d.suppressed|, SaturatingSub(|d.interventions|, policy.maxInterventions),
                 SaturatingSub(|d.held|, policy.maxHolds)),
         d.assignments, interventions, held)
  }

  /** The planning loop: classify every task, schedule the candidates, cut the lists. */
  method PlanFromAnalysis(ts: seq<TaskAnalysis>, statuses: map<string, AgentStatus>, policy: PlanningPolicy)
      returns (plan: Plan)
    ensures plan == PlanOf(ts, statuses, policy)
  {
    var candidates: seq<Assignment> := [];
    var interventions: seq<Intervention> := [];
    var held: seq<HeldTask> := [];
    var i := 0;
    hide Classify;
    while i < |ts|
      invariant 0 <= i <= |ts|
      invariant Sorted3(candidates, interventions, held) == Classified(ts[..i], statuses)
    {
      assert ts[..i + 1][..i] == ts[..i];
      match Classify(ts[i], statuses) {
        case Intervene(intervention) => interventions := interventions + [intervention];
        case Hold(hold) => held := held + [hold];
        case Candidate(assignment) => candidates := candidates + [assignment];
      }
      i := i + 1;
    }
    assert ts[..i] == ts;
    hide Classified, Selected, Suppressed, Group, AgentOrder;
    candidates := Sort(AssignmentLe, candidates);
    interventions := Sort(InterventionLe, interventions);
    held := Sort(HoldLe, held);
    var assignments, suppressed := SelectAssignments(candidates, policy.maxAssignments, policy.maxPerAgent);
    held := Sort(HoldLe, held + SuppressAll(suppressed));
    var omittedInterventions := SaturatingSub(|interventions|, policy.maxInterventions);
    var omittedHolds := SaturatingSub(|held|, policy.maxHolds);
    interventions := Take(interventions, policy.maxInterventions);
    held := Take(held, policy.maxHolds);
    plan := Plan(Summary(|ts|, |candidates|, |assignments|, |AgentsOf(assignments)|, |interventions|, |held|,
                         |suppressed|, omittedInterventions, omittedHolds),
                 assignments, interventions, held);
  }
}
