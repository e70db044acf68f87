/** The retained-state analysis of `src/metacognition/analysis.rs`: the facts and the
    diagnostics that the planner reads, without message texts. */
module Analysis {
  import opened Model
  import opened Orders
  import opened DependencyGraph
  import opened RemainingDepth

  datatype Rule = StalledTask | RetryLoop | BlockedDependency | OrphanDependency | DependencyCycle | OrphanGoal
                | MissingEvidence | LowConfidence | MissingNextAction | CompletionMismatch

  datatype Severity = Info | Warning | Critical

  datatype Finding = Finding(rule: Rule, severity: Severity)

  datatype Policy = Policy(staleAfterSeconds: int, retryLoopAttempts: nat, lowConfidence: real)

  function Normalized(p: Policy): Policy {
    Policy(if p.staleAfterSeconds < 1 then 1 else p.staleAfterSeconds,
           Max(p.retryLoopAttempts, 2),
           if p.lowConfidence < 0.0 then 0.0 else if p.lowConfidence > 1.0 then 1.0 else p.lowConfidence)
  }

  /** What the analysis of one task consults besides the task itself. */
  datatype Context = Context(
    now: Time,
    policy: Policy,
    lookup: TaskLookup,
    goals: set<ScopedId>,
    members: set<TaskKey>,
    critical: set<TaskKey>,
    sources: map<TaskKey, seq<Uuid>>)

  datatype TaskAnalysis = TaskAnalysis(
    key: TaskKey,
    goalId: Option<string>,
    status: TaskStatus,
    attempt: nat,
    staleForSeconds: nat,
    evidenceCount: nat,
    confidence: Option<real>,
    unresolved: seq<string>,
    missing: seq<string>,
    onCriticalPath: bool,
    sourceEventIds: seq<Uuid>,
    findings: seq<Finding>)

  function KeyOf(t: TaskState): TaskKey { TaskKey(t.agentId, t.task.taskId) }

  // ---------- ages ----------

  function Nanoseconds(t: Time): int { Seconds(t) * 1_000_000_000 + Nanos(t) }

  /** Whole seconds between two instants, never negative. */
  function AgeSeconds(now: Time, then_: Time): nat {
    var elapsed := Nanoseconds(now) - Nanoseconds(then_);
    if elapsed <= 0 then 0 else elapsed / 1_000_000_000
  }

  // ---------- dependencies ----------

  function MissingOf(l: TaskLookup, agent: string, ds: seq<string>): (r: seq<string>)
    ensures forall d :: d in r <==> d in ds && TaskKey(agent, d) !in l
  {
    if ds == [] then []
    else (if TaskKey(agent, ds[0]) in l then [] else [ds[0]]) + MissingOf(l, agent, ds[1..])
  }

  function UnresolvedOf(l: TaskLookup, agent: string, ds: seq<string>): (r: seq<string>)
    ensures forall d :: d in r <==> d in ds && TaskKey(agent, d) in l && !l[TaskKey(agent, d)].status.Succeeded?
  {
    if ds == [] then []
    else
      var k := TaskKey(agent, ds[0]);
      (if k in l && !l[k].status.Succeeded? then [ds[0]] else []) + UnresolvedOf(l, agent, ds[1..])
  }

  method DependencyState(t: TaskState, l: TaskLookup) returns (unresolved: seq<string>, missing: seq<string>)
    ensures unresolved == Sort(StrLe, UnresolvedOf(l, t.agentId, t.task.dependsOn))
    ensures missing == Sort(StrLe, MissingOf(l, t.agentId, t.task.dependsOn))
  {
    unresolved, missing := [], [];
    var ds := t.task.dependsOn;
    var i := 0;
    assert ds[0..] == ds;
    while i < |ds|
      invariant 0 <= i <= |ds|
      invariant unresolved + UnresolvedOf(l, t.agentId, ds[i..]) == UnresolvedOf(l, t.agentId, ds)
      invariant missing + MissingOf(l, t.agentId, ds[i..]) == MissingOf(l, t.agentId, ds)
    {
      hide UnresolvedOf, MissingOf;
      DependencyStep(l, t.agentId, ds, i);
      Regroup(unresolved, ds[i], UnresolvedOf(l, t.agentId, ds[i + 1..]));
      Regroup(missing, ds[i], MissingOf(l, t.agentId, ds[i + 1..]));
      var key := TaskKey(t.agentId, ds[i]);
      if key !in l {
        missing := missing + [ds[i]];
      } else if !l[key].status.Succeeded? {
        unresolved := unresolved + [ds[i]];
      }
      i := i + 1;
    }
    assert ds[i..] == [] && unresolved + [] == unresolved && missing + [] == missing;
    unresolved, missing := Sort(StrLe, unresolved), Sort(StrLe, missing);
  }

  lemma Regroup<T>(s: seq<T>, x: T, rest: seq<T>)
    ensures s + ([x] + rest) == (s + [x]) + rest && s + ([] + rest) == s + rest
  {}

  lemma DependencyStep(l: TaskLookup, agent: string, ds: seq<string>, i: nat)
    requires i < |ds|
    ensures var k := TaskKey(agent, ds[i]);
            && MissingOf(l, agent, ds[i..]) == (if k in l then [] else [ds[i]]) + MissingOf(l, agent, ds[i + 1..])
            && UnresolvedOf(l, agent, ds[i..]) ==
               (if k in l && !l[k].status.Succeeded? then [ds[i]] else []) + UnresolvedOf(l, agent, ds[i + 1..])
  {}

  // ---------- the critical path of a goal ----------

  /** The tasks that share an agent and a goal. */
  predicate SameGoal(l: TaskLookup, k: TaskKey, j: TaskKey)
    requires k in l && j in l
  {
    j.agent == k.agent && l[j].task.goalId == l[k].task.goalId
  }

  /** A task is critical when its goal has no marked task and none of the goal's tasks has
      more remaining work than it. */
  predicate IsCritical(l: TaskLookup, members: set<TaskKey>, depths: map<TaskKey, nat>, k: TaskKey)
    requires k in l && l.Keys <= depths.Keys
  {
    && l[k].task.goalId.Some? && depths[k] > 0
    && forall j | j in l && SameGoal(l, k, j) :: j !in members && depths[j] <= depths[k]
  }

  function CriticalTasks(l: TaskLookup, members: set<TaskKey>, depths: map<TaskKey, nat>): set<TaskKey>
    requires l.Keys <= depths.Keys
  {
    set k | k in l && IsCritical(l, members, depths, k)
  }

  // ---------- diagnostics ----------

  /** Status, outcome and progress contradict each other. */
  predicate Mismatched(t: TaskState) {
    match (t.status, t.outcome)
    case (Succeeded, Some(Succeeded)) => t.progress < 1.0
    case (Failed, Some(Failed)) => false
    case (Canceled, Some(Canceled)) => false
    case (Partial, Some(Partial)) => false
    case (status, outcome) => IsTerminal(status) || outcome.Some?
  }

  /** A finding in front of the others, if its condition holds. */
  function Note(condition: bool, rule: Rule, severity: Severity, others: seq<Finding>): seq<Finding> {
    if condition then [Finding(rule, severity)] + others else others
  }

  function EvidenceCount(t: TaskState): nat {
    (if t.latestReflection.Some? then |t.latestReflection.value.evidence| else 0) + |t.artifacts|
  }

  function ReportFindings(c: Context, t: TaskState): seq<Finding> {
    Note((t.progress > 0.0 || IsTerminal(t.status)) && EvidenceCount(t) == 0, MissingEvidence,
         if IsTerminal(t.status) then Warning else Info,
    Note(t.latestReflection.Some? && t.latestReflection.value.confidence < c.policy.lowConfidence, LowConfidence, Warning,
    Note(IsActive(t.status) && t.nextAction.None?, MissingNextAction, if t.status.Blocked? then Warning else Info,
    Note(Mismatched(t), CompletionMismatch, Critical, []))))
  }

  function StructureFindings(c: Context, t: TaskState): seq<Finding> {
    Note(t.status.Running? && UnresolvedOf(c.lookup, t.agentId, t.task.dependsOn) != [], BlockedDependency, Warning,
    Note(MissingOf(c.lookup, t.agentId, t.task.dependsOn) != [], OrphanDependency, Critical,
    Note(KeyOf(t) in c.members, DependencyCycle, Critical,
    Note(t.task.goalId.Some? && ScopedId(t.agentId, t.task.goalId.value) !in c.goals, OrphanGoal, Warning,
    ReportFindings(c, t)))))
  }

  /** The diagnostics of one task, in the order in which the rules run. */
  function Findings(c: Context, t: TaskState): seq<Finding> {
    var stale := AgeSeconds(c.now, t.updatedAt);
    var limit := c.policy.staleAfterSeconds;
    Note(IsActive(t.status) && stale >= limit, StalledTask,
         if t.status.Blocked? && stale >= 2 * limit then Critical else Warning,
    Note(t.attempt >= c.policy.retryLoopAttempts && !t.status.Succeeded? && !t.status.Canceled?, RetryLoop, Warning,
    StructureFindings(c, t)))
  }

  function Analyze(c: Context, t: TaskState): TaskAnalysis {
    var k := KeyOf(t);
    TaskAnalysis(k, t.task.goalId, t.status, t.attempt, AgeSeconds(c.now, t.updatedAt), EvidenceCount(t),
                 if t.latestReflection.Some? then Some(t.latestReflection.value.confidence) else None,
                 Sort(StrLe, UnresolvedOf(c.lookup, t.agentId, t.task.dependsOn)),
                 Sort(StrLe, MissingOf(c.lookup, t.agentId, t.task.dependsOn)),
                 k in c.critical, if k in c.sources then c.sources[k] else [], Findings(c, t))
  }

  predicate Has(findings: seq<Finding>, rule: Rule) {
    findings != [] && (findings[0].rule == rule || Has(findings[1..], rule))
  }

  lemma HasNote(condition: bool, rule: Rule, severity: Severity, others: seq<Finding>)
    ensures forall r :: Has(Note(condition, rule, severity, others), r) <==> (condition && rule == r) || Has(others, r)
  {}

  lemma HasNothing()
    ensures forall r :: !Has([], r)
  {}

  lemma ReportFindingsAreExact(c: Context, t: TaskState)
    ensures var fs := ReportFindings(c, t);
            && (Has(fs, CompletionMismatch) <==> Mismatched(t))
            && (Has(fs, MissingNextAction) <==> IsActive(t.status) && t.nextAction.None?)
            && (Has(fs, LowConfidence) <==>
                t.latestReflection.Some? && t.latestReflection.value.confidence < c.policy.lowConfidence)
            && (Has(fs, MissingEvidence) <==> (t.progress > 0.0 || IsTerminal(t.status)) && EvidenceCount(t) == 0)
            && (forall r :: Has(fs, r) ==>
                  r in {CompletionMismatch, MissingNextAction, LowConfidence, MissingEvidence})
  {
    hide IsTerminal, IsActive, Mismatched, EvidenceCount, Note, Has;
    forall condition, rule, severity, others
      ensures forall r {:trigger Has(Note(condition, rule, severity, others), r)} ::
                Has(Note(condition, rule, severity, others), r) <==> (condition && rule == r) || Has(others, r)
    {
      HasNote(condition, rule, severity, others);
    }
    HasNothing();
  }

  lemma StructureFindingsAreExact(c: Context, t: TaskState)
    ensures var fs, rest := StructureFindings(c, t), ReportFindings(c, t);
            && (Has(fs, DependencyCycle) <==> KeyOf(t) in c.members)
            && (Has(fs, OrphanDependency) <==> MissingOf(c.lookup, t.agentId, t.task.dependsOn) != [])
            && (Has(fs, OrphanGoal) <==>
                t.task.goalId.Some? && ScopedId(t.agentId, t.task.goalId.value) !in c.goals)
            && (Has(fs, BlockedDependency) <==>
                t.status.Running? && UnresolvedOf(c.lookup, t.agentId, t.task.dependsOn) != [])
            && (forall r :: r !in {DependencyCycle, OrphanDependency, OrphanGoal, BlockedDependency} ==>
                  (Has(fs, r) <==> Has(rest, r)))
  {
    hide IsTerminal, IsActive, MissingOf, UnresolvedOf, ReportFindings, Note, Has, EvidenceCount;
    ReportFindingsAreExact(c, t);
    forall condition, rule, severity, others
      ensures forall r {:trigger Has(Note(condition, rule, severity, others), r)} ::
                Has(Note(condition, rule, severity, others), r) <==> (condition && rule == r) || Has(others, r)
    {
      HasNote(condition, rule, severity, others);
    }
  }

  /** Which diagnostics a task carries: each rule exactly under its condition. */
  lemma FindingsAreExact(c: Context, t: TaskState)
    ensures var fs := Findings(c, t);
            && (Has(fs, CompletionMismatch) <==> Mismatched(t))
            && (Has(fs, DependencyCycle) <==> KeyOf(t) in c.members)
            && (Has(fs, OrphanDependency) <==> MissingOf(c.lookup, t.agentId, t.task.dependsOn) != [])
            && (Has(fs, OrphanGoal) <==>
                t.task.goalId.Some? && ScopedId(t.agentId, t.task.goalId.value) !in c.goals)
            && (Has(fs, BlockedDependency) <==>
                t.status.Running? && UnresolvedOf(c.lookup, t.agentId, t.task.dependsOn) != [])
            && (Has(fs, StalledTask) <==>
                IsActive(t.status) && AgeSeconds(c.now, t.updatedAt) >= c.policy.staleAfterSeconds)
            && (Has(fs, RetryLoop) <==>
                t.attempt >= c.policy.retryLoopAttempts && !t.status.Succeeded? && !t.status.Canceled?)
            && (Has(fs, MissingNextAction) <==> IsActive(t.status) && t.nextAction.None?)
            && (Has(fs, LowConfidence) <==>
                t.latestReflection.Some? && t.latestReflection.value.confidence < c.policy.lowConfidence)
            && (Has(fs, MissingEvidence) <==> (t.progress > 0.0 || IsTerminal(t.status)) && EvidenceCount(t) == 0)
  {
    hide IsTerminal, IsActive, Mismatched, AgeSeconds, MissingOf, UnresolvedOf, ReportFindings, StructureFindings, Note, Has,
      EvidenceCount;
    ReportFindingsAreExact(c, t);
    StructureFindingsAreExact(c, t);
    forall condition, rule, severity, others
      ensures forall r {:trigger Has(Note(condition, rule, severity, others), r)} ::
                Has(Note(condition, rule, severity, others), r) <==> (condition && rule == r) || Has(others, r)
    {
      HasNote(condition, rule, severity, others);
    }
  }
}
