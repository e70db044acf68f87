/** What the plan says about a task, in terms of the task, the snapshot and the policy. */
module PlanMeaning {
  import opened Sequences
  import opened Model
  import opened Orders
  import opened DependencyGraph
  import opened RemainingDepth
  import opened Analysis
  import opened FairShare
  import opened Scheduling
  import opened Coordination
  import opened Planning
  import opened PlanProperties
  import opened PlanLists

  // ---------- facts about a task ----------

  /** What the rules of the planner look at. */
  datatype Facts = Facts(
    mismatched: bool,      // status, outcome and progress contradict each other
    cyclic: bool,          // marked as cycle member
    orphaned: bool,        // a dependency is not retained
    homeless: bool,        // its goal is not retained
    offline: bool,         // its agent is offline
    pending: set<string>,  // the retained dependencies that have not succeeded
    looping: bool,         // too many attempts
    stalled: bool,         // no update for too long
    badlyStalled: bool,    // blocked, and no update for twice as long
    doubtful: bool,        // low confidence
    unproven: bool,        // progress without evidence
    aimless: bool,         // no next action
    critical: bool,        // on the critical path of its goal
    age: nat,              // seconds since the last update
    sources: seq<Uuid>)    // the newest retained events about it

  predicate Active(t: TaskState) { t.status.Pending? || t.status.Running? || t.status.Blocked? }

  predicate Ended(t: TaskState) {
    t.status.Succeeded? || t.status.Failed? || t.status.Canceled? || t.status.Partial?
  }

  /** An ended task lacks its outcome, holds another one or succeeded without full progress; or a
      task that has not ended holds an outcome. */
  predicate Contradictory(t: TaskState) {
    if !Ended(t) then t.outcome.Some?
    else
      || (t.status.Succeeded? && (t.outcome != Some(TaskOutcome.Succeeded) || t.progress < 1.0))
      || (t.status.Failed? && t.outcome != Some(TaskOutcome.Failed))
      || (t.status.Canceled? && t.outcome != Some(TaskOutcome.Canceled))
      || (t.status.Partial? && t.outcome != Some(TaskOutcome.Partial))
  }

  lemma MismatchMeans(t: TaskState)
    ensures Mismatched(t) == Contradictory(t)
  {}

  /** The age counts whole seconds, and is zero for an update in the future. */
  lemma AgeMeans(now: Time, updatedAt: Time)
    ensures var n := AgeSeconds(now, updatedAt);
            var elapsed := (Seconds(now) - Seconds(updatedAt)) * 1_000_000_000 + Nanos(now) - Nanos(updatedAt);
            if elapsed < 0 then n == 0 else n * 1_000_000_000 <= elapsed < (n + 1) * 1_000_000_000
  {}

  predicate Looping(policy: Policy, t: TaskState) {
    t.attempt >= 2 && t.attempt >= policy.retryLoopAttempts && !t.status.Succeeded? && !t.status.Canceled?
  }

  predicate Stalled(age: nat, policy: Policy, t: TaskState) {
    Active(t) && age >= 1 && age >= policy.staleAfterSeconds
  }

  predicate BadlyStalled(age: nat, policy: Policy, t: TaskState) {
    t.status.Blocked? && age >= 2 && age >= 2 * policy.staleAfterSeconds
  }

  predicate Doubtful(policy: Policy, t: TaskState) {
    t.latestReflection.Some? &&
    var confidence := t.latestReflection.value.confidence;
    confidence < 1.0 && (confidence < policy.lowConfidence || confidence < 0.0)
  }

  predicate Unproven(t: TaskState) {
    && (t.progress > 0.0 || Ended(t)) && t.artifacts == []
    && (t.latestReflection.Some? ==> t.latestReflection.value.evidence == [])
  }

  ghost predicate IsRetained(input: Input, agent: string, id: string) {
    exists u :: u in input.tasks && u.agentId == agent && u.task.taskId == id
  }

  ghost predicate MissesDependency(input: Input, t: TaskState) {
    exists d :: d in t.task.dependsOn && !IsRetained(input, t.agentId, d)
  }

  ghost predicate IsUnfinished(input: Input, agent: string, id: string) {
    exists u :: u in input.tasks && u.agentId == agent && u.task.taskId == id && !u.status.Succeeded?
  }

  ghost function Pending(input: Input, t: TaskState): set<string> {
    set d | d in t.task.dependsOn && IsUnfinished(input, t.agentId, d)
  }

  ghost predicate Homeless(input: Input, t: TaskState) {
    t.task.goalId.Some? && forall g :: g in input.goals ==> g.agentId != t.agentId || g.goal.goalId != t.task.goalId.value
  }

  ghost predicate Offline(input: Input, agent: string) {
    exists a :: a in input.agents && a.agent.agentId == agent && a.status.Offline?
  }

  ghost predicate OnCriticalPath(input: Input, t: TaskState) {
    var l := LookupOf(input.tasks);
    DepthsCoverTasks(l);
    KeyOf(t) in l && IsCritical(l, CycleMembers(l), RemainingDepths(l, CycleMembers(l), 1), KeyOf(t))
  }

  ghost function FactsOf(input: Input, policy: Policy, t: TaskState): Facts {
    var age := AgeSeconds(input.now, t.updatedAt);
    Facts(Contradictory(t), KeyOf(t) in CycleMembers(LookupOf(input.tasks)), MissesDependency(input, t), Homeless(input, t),
          Offline(input, t.agentId), Pending(input, t), Looping(policy, t), Stalled(age, policy, t), BadlyStalled(age, policy, t),
          Doubtful(policy, t), Unproven(t), Active(t) && t.nextAction.None?, OnCriticalPath(input, t), age,
          NewestIds(input.events, KeyOf(t)))
  }

  predicate Waiting(f: Facts) { f.pending != {} }

  predicate Tangled(f: Facts) { f.cyclic || f.orphaned }

  /** The condition of each diagnostic rule. */
  predicate Fires(rule: Rule, t: TaskState, f: Facts) {
    match rule
    case StalledTask => f.stalled
    case RetryLoop => f.looping
    case BlockedDependency => t.status.Running? && Waiting(f)
    case OrphanDependency => f.orphaned
    case DependencyCycle => f.cyclic
    case OrphanGoal => f.homeless
    case MissingEvidence => f.unproven
    case LowConfidence => f.doubtful
    case MissingNextAction => f.aimless
    case CompletionMismatch => f.mismatched
  }

  /** The cited events are the newest retained ones about the task, the cited diagnostics those
      whose rule fires. */
  ghost predicate CitesRight(events: seq<Uuid>, retained: bool, diagnostics: seq<string>, t: TaskState, f: Facts) {
    && (forall id: nat :: id in events <==> id in f.sources) && (retained <==> f.sources != [])
    && (forall id :: id in diagnostics <==> exists rule :: Fires(rule, t, f) && id == ScopedName(RuleName(rule), KeyOf(t)))
  }

  // ---------- what an entry of the plan means ----------

  /** The bonus for the gravest diagnostic. */
  function Gravity(t: TaskState, f: Facts): nat {
    if f.badlyStalled || Tangled(f) || f.mismatched then 80
    else if f.stalled || f.looping || (t.status.Running? && Waiting(f)) || f.homeless || (f.unproven && Ended(t)) || f.doubtful
            || (f.aimless && t.status.Blocked?)
    then 40
    else if f.unproven || f.aimless then 10
    else 0
  }

  /** The part of a priority that does not depend on what is to be done. */
  function Urgency(t: TaskState, f: Facts): nat {
    (if f.critical then 100 else 0) + Gravity(t, f)
  }

  function Persistence(t: TaskState, f: Facts): nat {
    5 * (if t.attempt < 10 then t.attempt else 10)
    + (if (f.age % 0x1_0000_0000) / 60 < 100 then (f.age % 0x1_0000_0000) / 60 else 100)
  }

  /** Nothing keeps the task from being worked on. */
  predicate Free(f: Facts) { !f.mismatched && !Tangled(f) && !f.homeless && !f.offline && !Waiting(f) }

  ghost predicate ActionMeans(a: Action, t: TaskState, f: Facts) {
    var loud := f.looping || f.stalled || t.status.Blocked?;
    && (a.ChangeStrategy? <==> f.looping)
    && (a.RequestCheckpoint? <==> !f.looping && f.stalled)
    && (a.ResolveBlocker? <==> !f.looping && !f.stalled && t.status.Blocked?)
    && (a.GatherEvidence? <==> !loud && (f.doubtful || f.unproven))
    && (a.DefineNextAction? <==> !loud && !f.doubtful && !f.unproven && f.aimless)
    && (a.StartTask? <==> !loud && !f.doubtful && !f.unproven && !f.aimless && t.status.Pending?)
    && (a.ContinueTask? <==> !loud && !f.doubtful && !f.unproven && !f.aimless && t.status.Running?)
  }

  ghost predicate PriorityMeans(a: Action, priority: nat, rest: nat) {
    && (a.ChangeStrategy? ==> priority == 900 + rest) && (a.RequestCheckpoint? ==> priority == 850 + rest)
    && (a.ResolveBlocker? ==> priority == 800 + rest) && (a.GatherEvidence? ==> priority == 700 + rest)
    && (a.DefineNextAction? ==> priority == 650 + rest) && (a.StartTask? ==> priority == 600 + rest)
    && (a.ContinueTask? ==> priority == 500 + rest)
  }

  /** Something is to be done about the task. */
  predicate Actionable(t: TaskState, f: Facts) {
    Active(t) || f.looping || f.stalled || f.doubtful || f.unproven
  }

  ghost predicate AssignmentMeans(x: Assignment, t: TaskState, f: Facts) {
    && x.key == KeyOf(t) && x.goalId == t.task.goalId && x.onCriticalPath == f.critical
    && Free(f) && Actionable(t, f) && ActionMeans(x.action, t, f)
    && PriorityMeans(x.action, x.priority, Urgency(t, f) + Persistence(t, f))
    && CitesRight(x.sourceEventIds, x.sourceEventsRetained, x.diagnosticIds, t, f)
  }

  ghost predicate InterventionMeans(i: Intervention, t: TaskState, f: Facts) {
    && i.key == KeyOf(t) && i.goalId == t.task.goalId
    && (i.kind.ReconcileCompletion? <==> f.mismatched)
    && (i.kind.RepairDependencyGraph? <==> !f.mismatched && Tangled(f))
    && (i.kind.DeclareMissingGoal? <==> !f.mismatched && !Tangled(f) && f.homeless)
    && (i.kind.ReconcileCompletion? ==> i.priority == 1200 + Urgency(t, f))
    && (i.kind.RepairDependencyGraph? ==> i.priority == 1100 + Urgency(t, f))
    && (i.kind.DeclareMissingGoal? ==> i.priority == 1000 + Urgency(t, f))
    && CitesRight(i.sourceEventIds, i.sourceEventsRetained, i.diagnosticIds, t, f)
  }

  ghost predicate HoldMeans(h: HeldTask, t: TaskState, f: Facts) {
    && h.key == KeyOf(t) && h.goalId == t.task.goalId
    && !f.mismatched && !Tangled(f) && !f.homeless
    && (h.reason.AgentOffline? <==> f.offline)
    && (h.reason.WaitingOnDependencies? <==> !f.offline && Waiting(f))
    && (h.reason.AssignmentLimit? <==> !f.offline && !Waiting(f) && Actionable(t, f))
    && (h.reason.Terminal? <==> !f.offline && !Waiting(f) && !Actionable(t, f))
    && (forall d :: d in h.unresolved <==> d in f.pending)
    && CitesRight(h.sourceEventIds, h.sourceEventsRetained, h.diagnosticIds, t, f)
  }

  // ---------- the analysis knows the facts ----------

  /** The analysis and the agent statuses agree with the facts. */
  ghost predicate Knows(a: TaskAnalysis, statuses: map<string, AgentStatus>, t: TaskState, f: Facts) {
    && a.key == KeyOf(t) && a.goalId == t.task.goalId && a.status == t.status && a.attempt == t.attempt
    && a.staleForSeconds == f.age && a.onCriticalPath == f.critical
    && (a.missing != [] ==> Tangled(f)) && (forall d :: d in a.unresolved <==> d in f.pending)
    && ((t.agentId in statuses && statuses[t.agentId].Offline?) <==> f.offline)
    && a.sourceEventIds == f.sources && |f.sources| <= 16
    && (forall rule :: Has(a.findings, rule) <==> Fires(rule, t, f))
    && MaxBonus(a.findings) == Gravity(t, f)
  }

  lemma AnalysisCites(a: TaskAnalysis, statuses: map<string, AgentStatus>, t: TaskState, f: Facts)
    requires Knows(a, statuses, t, f)
    ensures CitesRight(SourceIds(a), a.sourceEventIds != [], DiagnosticIds(a), t, f)
  {
    hide Has, MaxBonus, DiagnosticIds, SourceIds, Gravity, Fires, ScopedName, RuleName;
    CitedEvents(a);
    forall id ensures id in DiagnosticIds(a) <==> exists rule :: Fires(rule, t, f) && id == ScopedName(RuleName(rule), KeyOf(t)) {
      CitedDiagnostics(a, id);
    }
  }

  /** The rules that decide the class of a task. */
  lemma KnownRules(a: TaskAnalysis, statuses: map<string, AgentStatus>, t: TaskState, f: Facts)
    requires Knows(a, statuses, t, f)
    ensures Has(a.findings, CompletionMismatch) == f.mismatched && Has(a.findings, OrphanGoal) == f.homeless
    ensures (Has(a.findings, DependencyCycle) || Has(a.findings, OrphanDependency)) == Tangled(f)
    ensures Has(a.findings, RetryLoop) == f.looping && Has(a.findings, StalledTask) == f.stalled
    ensures Has(a.findings, LowConfidence) == f.doubtful && Has(a.findings, MissingEvidence) == f.unproven
    ensures Has(a.findings, MissingNextAction) == f.aimless
  {
    hide Has;
  }

  lemma CandidateMeans(a: TaskAnalysis, statuses: map<string, AgentStatus>, t: TaskState, f: Facts, x: Assignment)
    requires Knows(a, statuses, t, f) && Classify(a, statuses) == Candidate(x)
    requires f.aimless ==> Active(t)
    ensures AssignmentMeans(x, t, f)
  {
    hide Has, MaxBonus, DiagnosticIds, SourceIds, ScopedName, Gravity, CitesRight, Fires;
    KnownRules(a, statuses, t, f);
    AnalysisCites(a, statuses, t, f);
  }

  lemma IntervenedMeans(a: TaskAnalysis, statuses: map<string, AgentStatus>, t: TaskState, f: Facts, i: Intervention)
    requires Knows(a, statuses, t, f) && Classify(a, statuses) == Intervene(i)
    ensures InterventionMeans(i, t, f)
  {
    hide Has, MaxBonus, DiagnosticIds, SourceIds, ScopedName, Gravity, CitesRight, Fires;
    KnownRules(a, statuses, t, f);
    AnalysisCites(a, statuses, t, f);
  }

  lemma HeldMeans(a: TaskAnalysis, statuses: map<string, AgentStatus>, t: TaskState, f: Facts, h: HeldTask)
    requires Knows(a, statuses, t, f) && Classify(a, statuses) == Hold(h)
    requires (f.aimless ==> Active(t)) && (f.stalled ==> Active(t))
    ensures HoldMeans(h, t, f) && !h.reason.AssignmentLimit?
  {
    hide Has, MaxBonus, DiagnosticIds, SourceIds, ScopedName, Gravity, CitesRight, Fires;
    KnownRules(a, statuses, t, f);
    AnalysisCites(a, statuses, t, f);
    if a.unresolved != [] { assert a.unresolved[0] in f.pending; }
    if f.pending == {} { assert a.unresolved == []; }
    assert !Tangled(f) ==> a.unresolved + a.missing == a.unresolved;
  }

  lemma SuppressedMeans(x: Assignment, t: TaskState, f: Facts)
    requires AssignmentMeans(x, t, f)
    ensures HoldMeans(Suppress(x), t, f)
  {}

  // ---------- from the snapshot to the facts ----------

  lemma LookupMeans(input: Input, agent: string, id: string)
    requires UniqueTasks(input.tasks)
    ensures var l, k := LookupOf(input.tasks), TaskKey(agent, id);
            && (k in l <==> IsRetained(input, agent, id))
            && (k in l && !l[k].status.Succeeded? <==> IsUnfinished(input, agent, id))
  {
    LookupIsExact(input.tasks, TaskKey(agent, id));
    hide LookupOf;
  }

  lemma MissingMeans(input: Input, t: TaskState)
    requires UniqueTasks(input.tasks)
    ensures MissingOf(LookupOf(input.tasks), t.agentId, t.task.dependsOn) != [] <==> MissesDependency(input, t)
    ensures forall d :: d in UnresolvedOf(LookupOf(input.tasks), t.agentId, t.task.dependsOn) <==> d in Pending(input, t)
  {
    hide LookupOf, MissingOf, UnresolvedOf, IsRetained, IsUnfinished, UniqueTasks;
    var missing := MissingOf(LookupOf(input.tasks), t.agentId, t.task.dependsOn);
    forall d ensures d in missing <==> d in t.task.dependsOn && !IsRetained(input, t.agentId, d) {
      LookupMeans(input, t.agentId, d);
    }
    if missing != [] { assert missing[0] in missing; }
    forall d ensures d in UnresolvedOf(LookupOf(input.tasks), t.agentId, t.task.dependsOn) <==> d in Pending(input, t) {
      LookupMeans(input, t.agentId, d);
    }
  }

  lemma GoalsMean(input: Input, t: TaskState)
    ensures t.task.goalId.Some? && ScopedId(t.agentId, t.task.goalId.value) !in GoalsOf(input.goals) <==> Homeless(input, t)
  {
    if t.task.goalId.Some? {
      var id := ScopedId(t.agentId, t.task.goalId.value);
      if id in GoalsOf(input.goals) {
        var g :| g in input.goals && ScopedId(g.agentId, g.goal.goalId) == id;
      } else {
        forall g | g in input.goals ensures g.agentId != t.agentId || g.goal.goalId != t.task.goalId.value {
          assert ScopedId(g.agentId, g.goal.goalId) in GoalsOf(input.goals);
        }
      }
    }
  }

  lemma OfflineMeans(input: Input, agent: string)
    requires UniqueAgents(input.agents)
    ensures (agent in StatusesOf(input.agents) && StatusesOf(input.agents)[agent].Offline?) <==> Offline(input, agent)
  {
    StatusesAreExact(input.agents, agent);
    hide StatusesOf, UniqueAgents;
  }

  // ---------- the gravest diagnostic ----------

  lemma NoteBonus(condition: bool, rule: Rule, severity: Severity, others: seq<Finding>)
    ensures MaxBonus(Note(condition, rule, severity, others))
            == if condition then Max(SeverityBonus(severity), MaxBonus(others)) else MaxBonus(others)
  {
    assert ([Finding(rule, severity)] + others)[1..] == others;
  }

  /** A list whose gravest entry weighs `n`, by whether it holds anything grave, warning or minor. */
  predicate Weighs(n: nat, grave: bool, warning: bool, minor: bool) {
    n == if grave then 80 else if warning then 40 else if minor then 10 else 0
  }

  lemma ReportWeight(c: Context, t: TaskState)
    ensures var unproven := (t.progress > 0.0 || IsTerminal(t.status)) && EvidenceCount(t) == 0;
            var aimless := IsActive(t.status) && t.nextAction.None?;
            var doubtful := t.latestReflection.Some? && t.latestReflection.value.confidence < c.policy.lowConfidence;
            Weighs(MaxBonus(ReportFindings(c, t)), Mismatched(t),
                   (unproven && IsTerminal(t.status)) || doubtful || (aimless && t.status.Blocked?), unproven || aimless)
  {
    hide MaxBonus, Note, Mismatched, IsActive, IsTerminal, EvidenceCount;
    NothingWeighs();
    forall condition, rule, severity, others
      ensures MaxBonus(Note(condition, rule, severity, others))
              == if condition then Max(SeverityBonus(severity), MaxBonus(others)) else MaxBonus(others)
    {
      NoteBonus(condition, rule, severity, others);
    }
  }

  lemma NothingWeighs()
    ensures MaxBonus([]) == 0
  {}

  lemma StructureWeight(c: Context, t: TaskState, grave: bool, warning: bool, minor: bool)
    requires Weighs(MaxBonus(ReportFindings(c, t)), grave, warning, minor)
    ensures var missing := MissingOf(c.lookup, t.agentId, t.task.dependsOn) != [];
            var waiting := UnresolvedOf(c.lookup, t.agentId, t.task.dependsOn) != [];
            var homeless := t.task.goalId.Some? && ScopedId(t.agentId, t.task.goalId.value) !in c.goals;
            Weighs(MaxBonus(StructureFindings(c, t)), grave || missing || KeyOf(t) in c.members,
                   warning || (t.status.Running? && waiting) || homeless, minor)
  {
    hide MaxBonus, Note, ReportFindings, MissingOf, UnresolvedOf;
    forall condition, rule, severity, others
      ensures MaxBonus(Note(condition, rule, severity, others))
              == if condition then Max(SeverityBonus(severity), MaxBonus(others)) else MaxBonus(others)
    {
      NoteBonus(condition, rule, severity, others);
    }
  }

  lemma FindingsWeight(c: Context, t: TaskState, grave: bool, warning: bool, minor: bool)
    requires Weighs(MaxBonus(StructureFindings(c, t)), grave, warning, minor)
    ensures var stale, limit := AgeSeconds(c.now, t.updatedAt), c.policy.staleAfterSeconds;
            var stalled := IsActive(t.status) && stale >= limit;
            var looping := t.attempt >= c.policy.retryLoopAttempts && !t.status.Succeeded? && !t.status.Canceled?;
            Weighs(MaxBonus(Findings(c, t)), grave || (stalled && t.status.Blocked? && stale >= 2 * limit),
                   warning || stalled || looping, minor)
  {
    hide MaxBonus, Note, StructureFindings, AgeSeconds;
    forall condition, rule, severity, others
      ensures MaxBonus(Note(condition, rule, severity, others))
              == if condition then Max(SeverityBonus(severity), MaxBonus(others)) else MaxBonus(others)
    {
      NoteBonus(condition, rule, severity, others);
    }
  }

  // ---------- the facts of an analysed task ----------

  lemma PolicyMeans(input: Input, policy: Policy, t: TaskState)
    ensures var c, age := ContextFor(input, policy), AgeSeconds(input.now, t.updatedAt);
            && c.now == input.now && c.lookup == LookupOf(input.tasks) && c.goals == GoalsOf(input.goals)
            && c.members == CycleMembers(LookupOf(input.tasks))
            && (IsActive(t.status) && age >= c.policy.staleAfterSeconds <==> Stalled(age, policy, t))
            && (t.attempt >= c.policy.retryLoopAttempts && !t.status.Succeeded? && !t.status.Canceled? <==> Looping(policy, t))
            && (t.latestReflection.Some? && t.latestReflection.value.confidence < c.policy.lowConfidence <==> Doubtful(policy, t))
            && ((IsActive(t.status) && age >= c.policy.staleAfterSeconds && t.status.Blocked?
                 && age >= 2 * c.policy.staleAfterSeconds) <==> BadlyStalled(age, policy, t))
  {
    hide LookupOf, CycleMembers, GoalsOf, AgeSeconds, RemainingDepths, CriticalTasks;
  }

  lemma TaskMeans(t: TaskState)
    ensures IsActive(t.status) == Active(t) && IsTerminal(t.status) == Ended(t)
    ensures ((t.progress > 0.0 || IsTerminal(t.status)) && EvidenceCount(t) == 0) == Unproven(t)
  {}

  lemma CriticalMeans(input: Input, policy: Policy, t: TaskState)
    ensures KeyOf(t) in ContextFor(input, policy).critical <==> OnCriticalPath(input, t)
  {
    var l := LookupOf(input.tasks);
    DepthsCoverTasks(l);
    hide LookupOf, CycleMembers, RemainingDepths, IsCritical;
  }

  /** The findings are those whose rule fires. */
  ghost predicate RulesAgree(fs: seq<Finding>, t: TaskState, f: Facts) {
    && Has(fs, CompletionMismatch) == f.mismatched && Has(fs, OrphanGoal) == f.homeless
    && Has(fs, DependencyCycle) == f.cyclic && Has(fs, OrphanDependency) == f.orphaned
    && Has(fs, RetryLoop) == f.looping && Has(fs, StalledTask) == f.stalled
    && Has(fs, LowConfidence) == f.doubtful && Has(fs, MissingEvidence) == f.unproven
    && Has(fs, MissingNextAction) == f.aimless && Has(fs, BlockedDependency) == (t.status.Running? && Waiting(f))
  }

  lemma AgreeingRulesFire(fs: seq<Finding>, t: TaskState, f: Facts)
    requires RulesAgree(fs, t, f)
    ensures forall rule :: Has(fs, rule) <==> Fires(rule, t, f)
  {
    hide Has;
    forall rule ensures Has(fs, rule) <==> Fires(rule, t, f) {
      match rule
      case StalledTask =>
      case RetryLoop =>
      case BlockedDependency =>
      case OrphanDependency =>
      case DependencyCycle =>
      case OrphanGoal =>
      case MissingEvidence =>
      case LowConfidence =>
      case MissingNextAction =>
      case CompletionMismatch =>
    }
  }

  lemma FindingsMean(input: Input, policy: Policy, t: TaskState)
    requires Unique(input)
    ensures RulesAgree(Findings(ContextFor(input, policy), t), t, FactsOf(input, policy, t))
  {
    hide Findings, Has, Mismatched, Contradictory, MissingOf, UnresolvedOf, LookupOf, CycleMembers, ContextFor, MissesDependency, Pending,
      Homeless, Offline, OnCriticalPath, Stalled, Looping, Doubtful, BadlyStalled, Unproven, IsActive, IsTerminal,
      EvidenceCount, Active, AgeSeconds, GoalsOf;
    var c := ContextFor(input, policy);
    MismatchMeans(t);
    FindingsAreExact(c, t);
    PolicyMeans(input, policy, t);
    TaskMeans(t);
    MissingMeans(input, t);
    GoalsMean(input, t);
    WaitingMeans(input, t);
  }

  lemma GravityMeans(input: Input, policy: Policy, t: TaskState)
    requires Unique(input)
    ensures MaxBonus(Findings(ContextFor(input, policy), t)) == Gravity(t, FactsOf(input, policy, t))
  {
    hide Findings, MaxBonus, Mismatched, Contradictory, MissingOf, UnresolvedOf, LookupOf, CycleMembers, ContextFor, MissesDependency, Pending,
      Homeless, Offline, OnCriticalPath, Stalled, Looping, Doubtful, BadlyStalled, Unproven, IsActive, IsTerminal,
      EvidenceCount, Active, Ended, AgeSeconds, GoalsOf, ReportFindings, StructureFindings;
    var c := ContextFor(input, policy);
    MismatchMeans(t);
    PolicyMeans(input, policy, t);
    TaskMeans(t);
    MissingMeans(input, t);
    WaitingMeans(input, t);
    GoalsMean(input, t);
    ReportWeight(c, t);
    var f := FactsOf(input, policy, t);
    var grave := f.mismatched;
    var warning := (f.unproven && Ended(t)) || f.doubtful || (f.aimless && t.status.Blocked?);
    var minor := f.unproven || f.aimless;
    StructureWeight(c, t, grave, warning, minor);
    FindingsWeight(c, t, grave || Tangled(f), warning || (t.status.Running? && Waiting(f)) || f.homeless, minor);
  }

  lemma WaitingMeans(input: Input, t: TaskState)
    requires Unique(input)
    ensures UnresolvedOf(LookupOf(input.tasks), t.agentId, t.task.dependsOn) != [] <==> Pending(input, t) != {}
  {
    hide LookupOf, UnresolvedOf, MissingOf, IsUnfinished;
    MissingMeans(input, t);
    var u := UnresolvedOf(LookupOf(input.tasks), t.agentId, t.task.dependsOn);
    if u != [] { assert u[0] in u; }
    if d :| d in Pending(input, t) { assert d in u; }
  }

  lemma SourcesMean(input: Input, policy: Policy, t: TaskState)
    requires Unique(input) && t in input.tasks
    ensures var c, k := ContextFor(input, policy), KeyOf(t);
            k in c.sources && c.sources[k] == NewestIds(input.events, k) && |c.sources[k]| <= 12
  {
    LookupIsExact(input.tasks, KeyOf(t));
    hide LookupOf, CycleMembers, RemainingDepths, CriticalTasks, NewestIds, GoalsOf;
    var l := SourcesAreTheNewest(input.events, KeyOf(t));
  }

  lemma AnalysisKnows(input: Input, policy: Policy, t: TaskState)
    requires Unique(input) && t in input.tasks
    ensures Knows(Analyze(ContextFor(input, policy), t), StatusesOf(input.agents), t, FactsOf(input, policy, t))
  {
    hide Findings, Has, MaxBonus, Gravity, MissingOf, UnresolvedOf, LookupOf, CycleMembers, ContextFor, MissesDependency, Pending,
      Homeless, Offline, OnCriticalPath, Stalled, Looping, Doubtful, BadlyStalled, Unproven, Active, StatusesOf, Sort, Mismatched,
      NewestIds, Fires, RulesAgree;
    var c, ds := ContextFor(input, policy), t.task.dependsOn;
    FindingsMean(input, policy, t);
    AgreeingRulesFire(Findings(c, t), t, FactsOf(input, policy, t));
    SourcesMean(input, policy, t);
    GravityMeans(input, policy, t);
    OfflineMeans(input, t.agentId);
    MissingMeans(input, t);
    CriticalMeans(input, policy, t);
    PolicyMeans(input, policy, t);
    SortMultiset(StrLe, UnresolvedOf(c.lookup, t.agentId, ds));
    SameMembers(UnresolvedOf(c.lookup, t.agentId, ds), Sort(StrLe, UnresolvedOf(c.lookup, t.agentId, ds)));
    SortMultiset(StrLe, MissingOf(c.lookup, t.agentId, ds));
  }

  // ---------- the entries of the plan ----------

  ghost predicate Describes(input: Input, k: TaskKey, t: TaskState) {
    t in input.tasks && KeyOf(t) == k
  }

  lemma ClassifiedCandidateMeans(input: Input, policy: Policy, x: Assignment) returns (t: TaskState)
    requires Unique(input) && x in Classified(Analyses(input, policy), StatusesOf(input.agents)).candidates
    ensures Describes(input, x.key, t) && AssignmentMeans(x, t, FactsOf(input, policy, t))
  {
    hide Classified, LookupOf, StatusesOf, Analyses, Analyze, Classify, Knows, AssignmentMeans;
    var ts, statuses := Analyses(input, policy), StatusesOf(input.agents);
    ClassifiedOrigins(ts, statuses);
    var a :| a in ts && Classify(a, statuses) == Candidate(x);
    t := AnalysisOrigins(input, policy, a);
    AnalysisKnows(input, policy, t);
    CandidateMeans(a, statuses, t, FactsOf(input, policy, t), x);
    MeansKey(x, t, FactsOf(input, policy, t));
  }

  lemma MeansKey(x: Assignment, t: TaskState, f: Facts)
    requires AssignmentMeans(x, t, f)
    ensures x.key == KeyOf(t)
  {}

  /** Every assignment tells the agent exactly what the task's own state and the policy call
      for, with the priority that follows from it. */
  lemma AssignmentsSayWhatToDo(input: Input, policy: Policy, planning: PlanningPolicy, x: Assignment) returns (t: TaskState)
    requires Unique(input)
    requires var d := DraftOf(Analyses(input, policy), StatusesOf(input.agents), planning);
             x in d.assignments || x in d.suppressed
    ensures Describes(input, x.key, t) && AssignmentMeans(x, t, FactsOf(input, policy, t))
  {
    hide DraftOf, Classified, Analyses, StatusesOf, AssignmentMeans, FactsOf;
    CandidatesSplit(Analyses(input, policy), StatusesOf(input.agents), planning, x);
    t := ClassifiedCandidateMeans(input, policy, x);
  }

  lemma InterventionsSorted(ts: seq<TaskAnalysis>, statuses: map<string, AgentStatus>, planning: PlanningPolicy, i: Intervention)
    ensures i in DraftOf(ts, statuses, planning).interventions <==> i in Classified(ts, statuses).interventions
  {
    var found := Classified(ts, statuses).interventions;
    hide Classified, Selected, Suppressed, Sort;
    SortMultiset(InterventionLe, found);
    SameMembers(found, Sort(InterventionLe, found));
  }

  /** Every intervention is of the kind that the first applicable defect of its task calls for. */
  lemma InterventionsSayWhatIsWrong(input: Input, policy: Policy, planning: PlanningPolicy, i: Intervention)
      returns (t: TaskState)
    requires Unique(input)
    requires i in DraftOf(Analyses(input, policy), StatusesOf(input.agents), planning).interventions
    ensures Describes(input, i.key, t) && InterventionMeans(i, t, FactsOf(input, policy, t))
  {
    hide DraftOf, Classified, LookupOf, StatusesOf, Analyses, Analyze, Classify, Knows, FactsOf;
    var ts, statuses := Analyses(input, policy), StatusesOf(input.agents);
    InterventionsSorted(ts, statuses, planning, i);
    ClassifiedOrigins(ts, statuses);
    var a :| a in ts && Classify(a, statuses) == Intervene(i);
    t := AnalysisOrigins(input, policy, a);
    AnalysisKnows(input, policy, t);
    IntervenedMeans(a, statuses, t, FactsOf(input, policy, t), i);
  }

  lemma ClassifiedHoldMeans(input: Input, policy: Policy, h: HeldTask) returns (t: TaskState)
    requires Unique(input) && h in Classified(Analyses(input, policy), StatusesOf(input.agents)).held
    ensures Describes(input, h.key, t) && HoldMeans(h, t, FactsOf(input, policy, t))
  {
    hide Classified, LookupOf, StatusesOf, Analyses, Analyze, Classify, Knows;
    var ts, statuses := Analyses(input, policy), StatusesOf(input.agents);
    ClassifiedOrigins(ts, statuses);
    var a :| a in ts && Classify(a, statuses) == Hold(h);
    t := AnalysisOrigins(input, policy, a);
    AnalysisKnows(input, policy, t);
    HeldMeans(a, statuses, t, FactsOf(input, policy, t), h);
  }

  /** Every hold gives the reason that keeps its task, and only its task, from being assigned. */
  lemma HoldsSayWhy(input: Input, policy: Policy, planning: PlanningPolicy, h: HeldTask) returns (t: TaskState)
    requires Unique(input)
    requires h in DraftOf(Analyses(input, policy), StatusesOf(input.agents), planning).held
    ensures Describes(input, h.key, t) && HoldMeans(h, t, FactsOf(input, policy, t))
  {
    hide DraftOf, Classified, Analyses, StatusesOf, FactsOf, AssignmentMeans, HoldMeans;
    var ts, statuses := Analyses(input, policy), StatusesOf(input.agents);
    HeldOrigins(ts, statuses, planning, h);
    if h in Classified(ts, statuses).held {
      t := ClassifiedHoldMeans(input, policy, h);
    } else {
      var x :| x in DraftOf(ts, statuses, planning).suppressed && h == Suppress(x);
      t := AssignmentsSayWhatToDo(input, policy, planning, x);
      SuppressedMeans(x, t, FactsOf(input, policy, t));
    }
  }

  // ---------- every task has its place ----------

  lemma OneTaskPerKey(input: Input, t: TaskState, u: TaskState)
    requires UniqueTasks(input.tasks) && t in input.tasks && u in input.tasks && KeyOf(t) == KeyOf(u)
    ensures t == u
  {
    LookupIsExact(input.tasks, KeyOf(t));
    hide LookupOf;
  }

  /** How the classification of a task follows from its facts. */
  lemma ClassMeans(a: TaskAnalysis, statuses: map<string, AgentStatus>, t: TaskState, f: Facts)
    requires Knows(a, statuses, t, f) && (f.aimless ==> Active(t)) && (f.stalled ==> Active(t))
    ensures Classify(a, statuses).Intervene? <==> f.mismatched || Tangled(f) || f.homeless
    ensures Classify(a, statuses).Candidate? <==> Free(f) && Actionable(t, f)
  {
    hide Has, MaxBonus, DiagnosticIds, SourceIds, ScopedName, Gravity, Fires;
    KnownRules(a, statuses, t, f);
    if a.unresolved != [] { assert a.unresolved[0] in f.pending; }
    if f.pending == {} { assert a.unresolved == []; }
  }

  lemma FactsAreCoherent(input: Input, policy: Policy, t: TaskState)
    ensures var f := FactsOf(input, policy, t); (f.aimless ==> Active(t)) && (f.stalled ==> Active(t))
  {
    hide AgeSeconds, LookupOf, CycleMembers, MissesDependency, Pending, Homeless, Offline, OnCriticalPath;
  }

  /** The verdict of a retained task, by its facts. */
  lemma TaskClass(input: Input, policy: Policy, t: TaskState) returns (a: TaskAnalysis)
    requires Unique(input) && t in input.tasks
    ensures a in Analyses(input, policy)
    ensures var verdict, f := Classify(a, StatusesOf(input.agents)), FactsOf(input, policy, t);
            && (verdict.Intervene? <==> f.mismatched || Tangled(f) || f.homeless)
            && (verdict.Candidate? <==> Free(f) && Actionable(t, f))
            && (verdict.Intervene? ==> verdict.intervention.key == KeyOf(t))
            && (verdict.Candidate? ==> verdict.assignment.key == KeyOf(t))
  {
    hide Analyses, Analyze, StatusesOf, FactsOf, Knows, Has, MaxBonus, Sort, LookupOf, ContextFor;
    a := AnalysisOf(input, policy, t);
    AnalysisKnows(input, policy, t);
    FactsAreCoherent(input, policy, t);
    ClassMeans(a, StatusesOf(input.agents), t, FactsOf(input, policy, t));
    KnowsKey(a, StatusesOf(input.agents), t, FactsOf(input, policy, t));
  }

  lemma KnowsKey(a: TaskAnalysis, statuses: map<string, AgentStatus>, t: TaskState, f: Facts)
    requires Knows(a, statuses, t, f)
    ensures a.key == KeyOf(t)
  {}

  /** A retained task is sent to intervention exactly if it is mismatched, tangled or without its
      goal, and competes for assignment exactly if nothing keeps it and something is to be done;
      every other task is only held. */
  lemma EveryTaskHasItsPlace(input: Input, policy: Policy, planning: PlanningPolicy, t: TaskState)
    requires Unique(input) && t in input.tasks
    ensures var d := DraftOf(Analyses(input, policy), StatusesOf(input.agents), planning);
            var f := FactsOf(input, policy, t);
            && ((exists i :: i in d.interventions && i.key == KeyOf(t)) <==> f.mismatched || Tangled(f) || f.homeless)
            && ((exists x :: (x in d.assignments || x in d.suppressed) && x.key == KeyOf(t)) <==> Free(f) && Actionable(t, f))
  {
    hide DraftOf, Classified, Analyses, StatusesOf, FactsOf, Classify;
    var ts, statuses, f := Analyses(input, policy), StatusesOf(input.agents), FactsOf(input, policy, t);
    var d := DraftOf(ts, statuses, planning);
    ClassifiedOrigins(ts, statuses);
    var a := TaskClass(input, policy, t);
    var verdict := Classify(a, statuses);
    if verdict.Intervene? {
      assert verdict.intervention in Classified(ts, statuses).interventions;
      InterventionsSorted(ts, statuses, planning, verdict.intervention);
    }
    if verdict.Candidate? {
      assert verdict.assignment in Classified(ts, statuses).candidates;
      CandidatesSplit(ts, statuses, planning, verdict.assignment);
    }
    if i :| i in d.interventions && i.key == KeyOf(t) {
      var u := InterventionsSayWhatIsWrong(input, policy, planning, i);
      OneTaskPerKey(input, t, u);
    }
    if x :| (x in d.assignments || x in d.suppressed) && x.key == KeyOf(t) {
      var u := AssignmentsSayWhatToDo(input, policy, planning, x);
      OneTaskPerKey(input, t, u);
    }
  }
}
