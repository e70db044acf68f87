/** The crash-restartable job supervisor of `scripts/fleet/supervisor.py` as a machine of
    atomic steps: code between two awaits, one durable write, or one file move. */
module Supervisor {

  const MAX_CONCURRENCY_HARD_LIMIT: nat := 15

  type JobId = string

  type Path = string

  datatype Status = Queued | Starting | Running | Stopping | Paused | Succeeded | Failed | Canceled | Partial

  predicate Terminal(s: Status) {
    s.Succeeded? || s.Failed? || s.Canceled? || s.Partial?
  }

  predicate Interrupted(s: Status) {
    s.Running? || s.Starting? || s.Stopping?
  }

  /** The part of `state.json` that the control flow reads. */
  datatype JobState = JobState(status: Status, attempt: nat)

  /** Where a run of `run_one` stands. */
  datatype Phase =
    | Created                       // task scheduled, nothing read yet
    | Preparing(attempt: nat)       // attempt number chosen, discovery and workspace under way
    | Reserved(attempt: nat)        // attempt durably recorded, process not yet created
    | Launched(attempt: nat)        // process created
    | Waiting(attempt: nat)         // "running" durably recorded
    | Archiving(status: Status)     // terminal status durably recorded, file not yet moved
    | Done                          // finished or aborted, not yet removed from the table

  datatype Run = Run(path: Path, phase: Phase)

  datatype Mode = Down | Booting | Up

  /** Durable: `states`, `queue`, `archive`.  Lost in a crash: `mode`, `stopping`,
      `running`.  `launches` counts provider processes ever created per job. */
  datatype Fleet = Fleet(
    maxAttempts: map<JobId, nat>,
    maxConcurrency: nat,
    resumePaused: bool,
    states: map<JobId, JobState>,
    queue: map<Path, JobId>,
    archive: map<Path, JobId>,
    mode: Mode,
    stopping: bool,
    running: map<JobId, Run>,
    launches: map<JobId, nat>)

  /** How a provider process can end. */
  datatype Outcome = Shutdown | Timeout | Delivered | Incomplete | QuotaOrRateLimit | Error(authentication: bool)

  /** How preparation can fail. */
  datatype PrepareFailure = Recoverable | Unrecoverable | Configuration

  datatype Action =
    | Enqueue(path: Path, job: JobId)
    | ArchiveQueued(path: Path)
    | StartRun(path: Path)
    | Begin(job: JobId)
    | FailPreparation(job: JobId, failure: PrepareFailure)
    | Reserve(job: JobId)
    | Launch(job: JobId)
    | RecordRunning(job: JobId)
    | Finish(job: JobId, outcome: Outcome)
    | ArchiveRun(job: JobId)
    | Abort(job: JobId)
    | Reap(job: JobId)
    | Stop
    | Crash
    | Boot(maxConcurrency: nat, resumePaused: bool)
    | Reconcile(job: JobId)
    | Ready

  function StateOf(f: Fleet, j: JobId): JobState {
    if j in f.states then f.states[j] else JobState(Queued, 0)
  }

  function Limit(f: Fleet, j: JobId): nat {
    if j in f.maxAttempts then f.maxAttempts[j] else 0
  }

  function Launches(f: Fleet, j: JobId): nat {
    if j in f.launches then f.launches[j] else 0
  }

  /** Write a job's state file; unspecified fields keep their durable value. */
  function Save(f: Fleet, j: JobId, status: Status, attempt: nat): Fleet {
    f.(states := f.states[j := JobState(status, attempt)])
  }

  function SetPhase(f: Fleet, j: JobId, phase: Phase): Fleet
    requires j in f.running
  {
    f.(running := f.running[j := f.running[j].(phase := phase)])
  }

  function CountLaunch(f: Fleet, j: JobId): Fleet {
    f.(launches := f.launches[j := Launches(f, j) + 1])
  }

  /** A submission names a file after its job and is refused only while that file is queued;
      a finished job may be submitted again under its archived name. */
  predicate CanEnqueue(f: Fleet, path: Path, j: JobId) {
    j in f.maxAttempts && path !in f.queue && (path in f.archive ==> f.archive[path] == j)
  }

  function AddFile(f: Fleet, path: Path, j: JobId): Fleet {
    f.(queue := f.queue[path := j])
  }

  predicate Live(f: Fleet, j: JobId) {
    f.mode.Up? && j in f.running
  }

  function MoveToArchive(f: Fleet, path: Path): Fleet {
    if path in f.queue then f.(queue := f.queue - {path}, archive := f.archive[path := f.queue[path]]) else f
  }

  /** The queue scan skips terminal jobs, and paused ones unless resuming is enabled. */
  predicate Open(s: Status, resumePaused: bool) {
    !Terminal(s) && (s.Paused? ==> resumePaused)
  }

  predicate Eligible(f: Fleet, j: JobId) {
    Open(StateOf(f, j).status, f.resumePaused)
  }

  /** The scan's conditions for starting the run of a queue file. */
  predicate Startable(f: Fleet, path: Path) {
    && f.mode.Up? && !f.stopping && path in f.queue && |f.running| < f.maxConcurrency
    && f.queue[path] !in f.running && Eligible(f, f.queue[path])
  }

  function AddRun(f: Fleet, path: Path): Fleet
    requires path in f.queue
  {
    f.(running := f.running[f.queue[path] := Run(path, Created)])
  }

  function StatusAfter(attempt: nat, limit: nat, outcome: Outcome): Status {
    match outcome
    case Shutdown => Paused
    case Timeout => Queued
    case Delivered => Succeeded
    case Incomplete => if attempt < limit then Queued else Partial
    case QuotaOrRateLimit => Paused
    case Error(authentication) => if attempt < limit && !authentication then Queued else Failed
  }

  function AfterSave(status: Status): Phase {
    if Terminal(status) then Archiving(status) else Done
  }

  /** `g` has the configuration, the job files and the launch counts of `f`. */
  ghost predicate SameFiles(f: Fleet, g: Fleet) {
    && g.maxAttempts == f.maxAttempts && g.maxConcurrency == f.maxConcurrency && g.resumePaused == f.resumePaused
    && g.queue == f.queue && g.archive == f.archive && g.launches == f.launches
  }

  /** `run_one` chooses its attempt number, or gives the job up. */
  function BeginRun(f: Fleet, j: JobId): (g: Fleet)
    ensures SameFiles(f, g)
  {
    if Live(f, j) && f.running[j].phase.Created? then
      var attempt := StateOf(f, j).attempt + 1;
      if attempt > Limit(f, j) then SetPhase(Save(f, j, Partial, StateOf(f, j).attempt), j, Archiving(Partial))
      else SetPhase(f, j, Preparing(attempt))
    else f
  }

  function FailRun(f: Fleet, j: JobId, failure: PrepareFailure): (g: Fleet)
    ensures SameFiles(f, g)
  {
    if Live(f, j) && f.running[j].phase.Preparing? then
      var status := if failure.Unrecoverable? then Failed else Paused;
      SetPhase(Save(f, j, status, f.running[j].phase.attempt), j, AfterSave(status))
    else f
  }

  /** The attempt becomes durable before the process exists. */
  function ReserveRun(f: Fleet, j: JobId): (g: Fleet)
    ensures SameFiles(f, g)
  {
    if Live(f, j) && f.running[j].phase.Preparing? then
      SetPhase(Save(f, j, Starting, f.running[j].phase.attempt), j, Reserved(f.running[j].phase.attempt))
    else f
  }

  predicate CanLaunch(f: Fleet, j: JobId) {
    Live(f, j) && f.running[j].phase.Reserved?
  }

  function LaunchRun(f: Fleet, j: JobId): (g: Fleet)
    ensures SameFiles(f, g.(launches := f.launches))
    ensures g.launches == if CanLaunch(f, j) then f.launches[j := Launches(f, j) + 1] else f.launches
  {
    if CanLaunch(f, j) then CountLaunch(SetPhase(f, j, Launched(f.running[j].phase.attempt)), j) else f
  }

  function RecordRun(f: Fleet, j: JobId): (g: Fleet)
    ensures SameFiles(f, g)
  {
    if Live(f, j) && f.running[j].phase.Launched? then
      SetPhase(Save(f, j, Running, f.running[j].phase.attempt), j, Waiting(f.running[j].phase.attempt))
    else f
  }

  function FinishRun(f: Fleet, j: JobId, outcome: Outcome): (g: Fleet)
    ensures SameFiles(f, g)
  {
    if Live(f, j) && f.running[j].phase.Waiting? && (outcome.Shutdown? ==> f.stopping) then
      var status := StatusAfter(f.running[j].phase.attempt, Limit(f, j), outcome);
      SetPhase(Save(f, j, status, StateOf(f, j).attempt), j, AfterSave(status))
    else f
  }

  function ArchiveFile(f: Fleet, j: JobId): (g: Fleet)
    ensures SameFiles(f, g.(queue := f.queue, archive := f.archive))
    ensures (g.queue == f.queue && g.archive == f.archive)
            || (j in f.running && var m := MoveToArchive(f, f.running[j].path); g.queue == m.queue && g.archive == m.archive)
  {
    if Live(f, j) && f.running[j].phase.Archiving? then SetPhase(MoveToArchive(f, f.running[j].path), j, Done) else f
  }

  /** One atomic step; an action that is not enabled leaves everything as it is. */
  function Step(f: Fleet, a: Action): Fleet {
    match a
    case Enqueue(path, j) =>
      if CanEnqueue(f, path, j) then AddFile(f, path, j) else f
    case ArchiveQueued(path) =>
      if f.mode.Up? && path in f.queue && Terminal(StateOf(f, f.queue[path]).status) then MoveToArchive(f, path) else f
    case StartRun(path) => if Startable(f, path) then AddRun(f, path) else f
    case Begin(j) => BeginRun(f, j)
    case FailPreparation(j, failure) => FailRun(f, j, failure)
    case Reserve(j) => ReserveRun(f, j)
    case Launch(j) => LaunchRun(f, j)
    case RecordRunning(j) => RecordRun(f, j)
    case Finish(j, outcome) => FinishRun(f, j, outcome)
    case ArchiveRun(j) => ArchiveFile(f, j)
    case Abort(j) => if Live(f, j) then SetPhase(f, j, Done) else f
    case Reap(j) => if Live(f, j) && f.running[j].phase.Done? then f.(running := f.running - {j}) else f
    case Stop => f.(stopping := true)
    case Crash => f.(mode := Down, stopping := false, running := map[])
    case Boot(limit, resume) =>
      if f.mode.Down? && 0 < limit <= MAX_CONCURRENCY_HARD_LIMIT
      then f.(mode := Booting, maxConcurrency := limit, resumePaused := resume) else f
    case Reconcile(j) =>
      if f.mode.Booting? && j in f.states && Interrupted(f.states[j].status)
      then Save(f, j, Paused, f.states[j].attempt) else f
    case Ready =>
      if f.mode.Booting? && forall j | j in f.states :: !Interrupted(f.states[j].status) then f.(mode := Up) else f
  }

  function Steps(f: Fleet, actions: seq<Action>): Fleet {
    if actions == [] then f else Step(Steps(f, actions[..|actions| - 1]), actions[|actions| - 1])
  }

  /** A host on which no runner has started yet. */
  function Fresh(maxAttempts: map<JobId, nat>): Fleet {
    Fleet(maxAttempts, 0, false, map[], map[], map[], Down, false, map[], map[])
  }

  // ---------- what every step keeps ----------

  /** A run's volatile knowledge agrees with the durable state of its job. */
  predicate PhaseAgrees(s: JobState, launches: nat, limit: nat, phase: Phase) {
    match phase
    case Created => !Terminal(s.status)
    case Preparing(attempt) => !Terminal(s.status) && attempt == s.attempt + 1 <= limit
    case Reserved(attempt) => !Terminal(s.status) && attempt == s.attempt && launches < attempt
    case Launched(attempt) => !Terminal(s.status) && attempt == s.attempt
    case Waiting(attempt) => !Terminal(s.status) && attempt == s.attempt
    case Archiving(status) => s.status == status && Terminal(status)
    case Done => true
  }

  ghost predicate RunAgrees(f: Fleet, j: JobId)
    requires j in f.running
  {
    && j in f.maxAttempts
    && PhaseAgrees(StateOf(f, j), Launches(f, j), Limit(f, j), f.running[j].phase)
    && FileOf(f, f.running[j].path, j)
  }

  /** The file names the job, in the queue or in the archive. */
  predicate FileOf(f: Fleet, path: Path, j: JobId) {
    (path in f.queue && f.queue[path] == j) || (path !in f.queue && path in f.archive && f.archive[path] == j)
  }

  predicate Bounded(f: Fleet, j: JobId) {
    Launches(f, j) <= StateOf(f, j).attempt <= Limit(f, j)
  }

  ghost predicate AttemptsBounded(f: Fleet) {
    forall j :: Bounded(f, j)
  }

  ghost predicate RunsAgree(f: Fleet) {
    forall j :: j in f.running ==> RunAgrees(f, j)
  }

  ghost predicate FilesKnown(f: Fleet) {
    && (forall p :: p in f.queue ==> f.queue[p] in f.maxAttempts)
    && (forall p :: p in f.archive ==> Terminal(StateOf(f, f.archive[p]).status))
    && (forall p :: p in f.queue && p in f.archive ==> f.queue[p] == f.archive[p])
  }

  ghost predicate Invariant(f: Fleet) {
    && AttemptsBounded(f) && RunsAgree(f) && FilesKnown(f)
    && |f.running| <= f.maxConcurrency <= MAX_CONCURRENCY_HARD_LIMIT
    && (!f.mode.Up? ==> f.running == map[])
  }

  /** A job's durable record only moves forward: its attempt count never decreases, and a
      terminal job keeps its status, its attempt count and its launch count. */
  ghost predicate Forward(f: Fleet, g: Fleet, j: JobId) {
    var s, t := StateOf(f, j), StateOf(g, j);
    && s.attempt <= t.attempt && Launches(f, j) <= Launches(g, j)
    && (Terminal(s.status) ==> t == s && Launches(g, j) == Launches(f, j))
  }

  // ---------- one step ----------

  ghost predicate Advances(f: Fleet, g: Fleet) {
    Invariant(g) && forall j :: Forward(f, g, j)
  }

  /** `g` differs from `f` only in what it records about job `j` and in its run's phase. */
  ghost predicate OnlyJob(f: Fleet, g: Fleet, j: JobId) {
    && g.maxAttempts == f.maxAttempts && g.maxConcurrency == f.maxConcurrency
    && g.queue == f.queue && g.archive == f.archive && g.mode == f.mode
    && (forall i :: i != j ==> StateOf(g, i) == StateOf(f, i) && Launches(g, i) == Launches(f, i))
    && g.running.Keys == f.running.Keys
    && (forall i :: i in f.running ==> g.running[i].path == f.running[i].path)
    && (forall i :: i in f.running && i != j ==> g.running[i].phase == f.running[i].phase)
  }

  lemma OnlyJobBounds(f: Fleet, g: Fleet, j: JobId)
    requires OnlyJob(f, g, j) && AttemptsBounded(f) && Bounded(g, j) && Forward(f, g, j)
    ensures AttemptsBounded(g) && forall i :: Forward(f, g, i)
  {
    forall i ensures Bounded(g, i) && Forward(f, g, i) {
      assert Bounded(f, i);
    }
  }

  lemma OnlyJobRuns(f: Fleet, g: Fleet, j: JobId)
    requires OnlyJob(f, g, j) && RunsAgree(f)
    requires j in f.running ==> PhaseAgrees(StateOf(g, j), Launches(g, j), Limit(g, j), g.running[j].phase)
    ensures RunsAgree(g)
  {
    hide PhaseAgrees;
    forall i | i in g.running ensures RunAgrees(g, i) {
      assert RunAgrees(f, i);
    }
  }

  lemma OnlyJobFiles(f: Fleet, g: Fleet, j: JobId)
    requires OnlyJob(f, g, j) && FilesKnown(f) && Forward(f, g, j)
    ensures FilesKnown(g)
  {}

  lemma SameSize<K, V, W>(m: map<K, V>, n: map<K, W>)
    requires m.Keys == n.Keys
    ensures |m| == |n|
  {}

  /** A step of one job that keeps its bounds, moves forward and agrees with its phase
      keeps the whole invariant. */
  lemma JobAdvances(f: Fleet, g: Fleet, j: JobId)
    requires Invariant(f) && OnlyJob(f, g, j) && Bounded(g, j) && Forward(f, g, j)
    requires j in f.running ==> PhaseAgrees(StateOf(g, j), Launches(g, j), Limit(g, j), g.running[j].phase)
    ensures Advances(f, g)
  {
    OnlyJobBounds(f, g, j);
    OnlyJobRuns(f, g, j);
    OnlyJobFiles(f, g, j);
    SameSize(f.running, g.running);
    assert g.running == map[] <==> f.running == map[] by {
      assert g.running.Keys == f.running.Keys;
    }
  }

  lemma WriteTouchesOnlyJob(f: Fleet, j: JobId, status: Status, attempt: nat, phase: Phase)
    requires j in f.running
    ensures OnlyJob(f, SetPhase(Save(f, j, status, attempt), j, phase), j)
  {}

  lemma PhaseTouchesOnlyJob(f: Fleet, j: JobId, phase: Phase)
    requires j in f.running
    ensures OnlyJob(f, SetPhase(f, j, phase), j)
  {}

  lemma WriteAdvances(f: Fleet, j: JobId, status: Status, attempt: nat, phase: Phase)
    requires Invariant(f) && Live(f, j) && !Terminal(StateOf(f, j).status)
    requires StateOf(f, j).attempt <= attempt <= Limit(f, j)
    requires PhaseAgrees(JobState(status, attempt), Launches(f, j), Limit(f, j), phase)
    ensures Advances(f, SetPhase(Save(f, j, status, attempt), j, phase))
  {
    assert Bounded(f, j);
    hide Invariant, PhaseAgrees, Advances, OnlyJob;
    WriteTouchesOnlyJob(f, j, status, attempt, phase);
    JobAdvances(f, SetPhase(Save(f, j, status, attempt), j, phase), j);
  }

  lemma PhaseAdvances(f: Fleet, j: JobId, phase: Phase)
    requires Invariant(f) && Live(f, j)
    requires PhaseAgrees(StateOf(f, j), Launches(f, j), Limit(f, j), phase)
    ensures Advances(f, SetPhase(f, j, phase))
  {
    assert Bounded(f, j);
    hide Invariant, PhaseAgrees, Advances, OnlyJob;
    PhaseTouchesOnlyJob(f, j, phase);
    JobAdvances(f, SetPhase(f, j, phase), j);
  }

  lemma LaunchTouchesOnlyJob(f: Fleet, j: JobId, phase: Phase)
    requires j in f.running
    ensures OnlyJob(f, CountLaunch(SetPhase(f, j, phase), j), j)
  {}

  lemma LaunchAdvances(f: Fleet, j: JobId)
    requires Invariant(f) && Live(f, j) && f.running[j].phase.Reserved?
    ensures Advances(f, Step(f, Launch(j)))
  {
    assert Bounded(f, j) && RunAgrees(f, j);
    hide Invariant, Advances, OnlyJob;
    LaunchTouchesOnlyJob(f, j, Launched(f.running[j].phase.attempt));
    JobAdvances(f, Step(f, Launch(j)), j);
  }

  lemma SaveTouchesOnlyJob(f: Fleet, j: JobId, status: Status, attempt: nat)
    ensures OnlyJob(f, Save(f, j, status, attempt), j)
  {}

  lemma ReconcileAdvances(f: Fleet, j: JobId)
    requires Invariant(f)
    ensures Advances(f, Step(f, Reconcile(j)))
  {
    Unmoved(f);
    assert Bounded(f, j);
    assert f.mode.Booting? ==> f.running == map[];
    hide Invariant, Advances, PhaseAgrees, OnlyJob;
    if f.mode.Booting? && j in f.states && Interrupted(f.states[j].status) {
      SaveTouchesOnlyJob(f, j, Paused, f.states[j].attempt);
      JobAdvances(f, Save(f, j, Paused, f.states[j].attempt), j);
    }
  }

  /** What the invariant says about one live run. */
  lemma RunFacts(f: Fleet, j: JobId)
    requires Invariant(f) && Live(f, j)
    ensures Bounded(f, j) && PhaseAgrees(StateOf(f, j), Launches(f, j), Limit(f, j), f.running[j].phase)
  {}

  lemma BeginAdvances(f: Fleet, j: JobId)
    requires Invariant(f)
    ensures Advances(f, Step(f, Begin(j)))
  {
    Unmoved(f);
    hide Invariant, Advances;
    if Live(f, j) && f.running[j].phase.Created? {
      RunFacts(f, j);
      var attempt := StateOf(f, j).attempt;
      if attempt + 1 > Limit(f, j) { WriteAdvances(f, j, Status.Partial, attempt, Archiving(Status.Partial)); }
      else { PhaseAdvances(f, j, Preparing(attempt + 1)); }
    }
  }

  lemma FailPreparationAdvances(f: Fleet, j: JobId, failure: PrepareFailure)
    requires Invariant(f)
    ensures Advances(f, Step(f, FailPreparation(j, failure)))
  {
    Unmoved(f);
    hide Invariant, Advances;
    if Live(f, j) && f.running[j].phase.Preparing? {
      RunFacts(f, j);
      var status := if failure.Unrecoverable? then Status.Failed else Paused;
      WriteAdvances(f, j, status, f.running[j].phase.attempt, AfterSave(status));
    }
  }

  lemma ReserveAdvances(f: Fleet, j: JobId)
    requires Invariant(f)
    ensures Advances(f, Step(f, Reserve(j)))
  {
    Unmoved(f);
    hide Invariant, Advances;
    if Live(f, j) && f.running[j].phase.Preparing? {
      RunFacts(f, j);
      var attempt := f.running[j].phase.attempt;
      WriteAdvances(f, j, Starting, attempt, Reserved(attempt));
    }
  }

  lemma RecordRunningAdvances(f: Fleet, j: JobId)
    requires Invariant(f)
    ensures Advances(f, Step(f, RecordRunning(j)))
  {
    Unmoved(f);
    hide Invariant, Advances;
    if Live(f, j) && f.running[j].phase.Launched? {
      RunFacts(f, j);
      var attempt := f.running[j].phase.attempt;
      WriteAdvances(f, j, Status.Running, attempt, Waiting(attempt));
    }
  }

  lemma FinishAdvances(f: Fleet, j: JobId, outcome: Outcome)
    requires Invariant(f)
    ensures Advances(f, FinishRun(f, j, outcome))
  {
    Unmoved(f);
    hide Invariant, Advances, StatusAfter;
    if Live(f, j) && f.running[j].phase.Waiting? && (outcome.Shutdown? ==> f.stopping) {
      RunFacts(f, j);
      var s, limit, launches := StateOf(f, j), Limit(f, j), Launches(f, j);
      var status := StatusAfter(f.running[j].phase.attempt, limit, outcome);
      assert PhaseAgrees(JobState(status, s.attempt), launches, limit, AfterSave(status));
      assert !Terminal(s.status) && s.attempt <= limit;
      hide PhaseAgrees, AfterSave, Bounded;
      WriteAdvances(f, j, status, s.attempt, AfterSave(status));
    }
  }

  lemma RunStepAdvances(f: Fleet, a: Action)
    requires Invariant(f)
    requires a.Begin? || a.FailPreparation? || a.Reserve? || a.Launch? || a.RecordRunning? || a.Finish? || a.Abort?
    ensures Advances(f, Step(f, a))
  {
    Unmoved(f);
    hide Invariant, Advances;
    match a
    case Begin(j) => BeginAdvances(f, j);
    case FailPreparation(j, failure) => FailPreparationAdvances(f, j, failure);
    case Reserve(j) => ReserveAdvances(f, j);
    case Launch(j) => if Live(f, j) && f.running[j].phase.Reserved? { LaunchAdvances(f, j); }
    case RecordRunning(j) => RecordRunningAdvances(f, j);
    case Finish(j, outcome) => FinishAdvances(f, j, outcome);
    case Abort(j) => if Live(f, j) { PhaseAdvances(f, j, Done); }
  }

  lemma Unmoved(f: Fleet)
    requires Invariant(f)
    ensures Advances(f, f)
  {}

  lemma MoveRuns(f: Fleet, path: Path)
    requires RunsAgree(f) && FilesKnown(f)
    ensures RunsAgree(MoveToArchive(f, path))
  {
    var g := MoveToArchive(f, path);
    hide PhaseAgrees;
    forall i | i in g.running ensures RunAgrees(g, i) {
      assert RunAgrees(f, i);
    }
  }

  lemma MoveFiles(f: Fleet, path: Path)
    requires FilesKnown(f) && (path in f.queue ==> Terminal(StateOf(f, f.queue[path]).status))
    ensures FilesKnown(MoveToArchive(f, path))
  {}

  lemma MoveAdvances(f: Fleet, path: Path)
    requires Invariant(f) && (path in f.queue ==> Terminal(StateOf(f, f.queue[path]).status))
    ensures Advances(f, MoveToArchive(f, path))
  {
    var g := MoveToArchive(f, path);
    MoveRuns(f, path);
    MoveFiles(f, path);
    forall j ensures Forward(f, g, j) && Bounded(g, j) { assert Bounded(f, j); }
    hide RunsAgree, FilesKnown, Forward;
  }

  lemma AdvancesTransitive(f: Fleet, g: Fleet, h: Fleet)
    requires Advances(f, g) && Advances(g, h)
    ensures Advances(f, h)
  {
    hide Invariant;
    forall j ensures Forward(f, h, j) {
      assert Forward(f, g, j) && Forward(g, h, j);
    }
  }

  lemma ArchiveRunAdvances(f: Fleet, j: JobId)
    requires Invariant(f)
    ensures Advances(f, ArchiveFile(f, j))
  {
    Unmoved(f);
    if Live(f, j) && f.running[j].phase.Archiving? {
      assert RunAgrees(f, j);
      var path := f.running[j].path;
      MoveAdvances(f, path);
      var m := MoveToArchive(f, path);
      assert Invariant(m) && StateOf(m, j) == StateOf(f, j);
      hide Invariant, Advances, RunAgrees;
      PhaseAdvances(m, j, Done);
      AdvancesTransitive(f, m, SetPhase(m, j, Done));
    }
  }

  lemma EnqueueRuns(f: Fleet, path: Path, j: JobId)
    requires RunsAgree(f) && CanEnqueue(f, path, j)
    ensures RunsAgree(AddFile(f, path, j))
  {
    hide PhaseAgrees;
    forall i | i in f.running ensures RunAgrees(AddFile(f, path, j), i) { assert RunAgrees(f, i); }
  }

  lemma EnqueueFiles(f: Fleet, path: Path, j: JobId)
    requires FilesKnown(f) && CanEnqueue(f, path, j)
    ensures FilesKnown(AddFile(f, path, j))
  {}

  /** `g` records about every job what `f` records. */
  ghost predicate SameRecords(f: Fleet, g: Fleet) {
    g.states == f.states && g.launches == f.launches && g.maxAttempts == f.maxAttempts
  }

  lemma SameRecordsAdvance(f: Fleet, g: Fleet)
    requires Invariant(f) && SameRecords(f, g) && RunsAgree(g) && FilesKnown(g)
    requires |g.running| <= g.maxConcurrency <= MAX_CONCURRENCY_HARD_LIMIT && (!g.mode.Up? ==> g.running == map[])
    ensures Advances(f, g)
  {
    hide RunsAgree, FilesKnown;
    forall i ensures Forward(f, g, i) && Bounded(g, i) { assert Bounded(f, i); }
  }

  lemma EnqueueAdvances(f: Fleet, path: Path, j: JobId)
    requires Invariant(f)
    ensures Advances(f, Step(f, Enqueue(path, j)))
  {
    Unmoved(f);
    hide RunsAgree, FilesKnown, Advances, AttemptsBounded;
    if CanEnqueue(f, path, j) {
      EnqueueRuns(f, path, j);
      EnqueueFiles(f, path, j);
      SameRecordsAdvance(f, AddFile(f, path, j));
    }
  }

  lemma TableRuns(f: Fleet, g: Fleet)
    requires RunsAgree(f) && g == f.(running := g.running)
    requires forall i :: i in g.running ==> (i in f.running && g.running[i] == f.running[i]) || RunAgrees(g, i)
    ensures RunsAgree(g)
  {}

  lemma TableAdvances(f: Fleet, g: Fleet)
    requires Invariant(f) && f.mode.Up? && g == f.(running := g.running) && |g.running| <= f.maxConcurrency
    requires forall i :: i in g.running ==> (i in f.running && g.running[i] == f.running[i]) || RunAgrees(g, i)
    ensures Advances(f, g)
  {
    TableRuns(f, g);
    forall i ensures Forward(f, g, i) && Bounded(g, i) { assert Bounded(f, i); }
    assert forall i :: StateOf(g, i) == StateOf(f, i);
    assert FilesKnown(g);
    hide RunsAgree, FilesKnown, Forward;
  }

  lemma StartedRunAgrees(f: Fleet, path: Path)
    requires FilesKnown(f) && Startable(f, path)
    ensures RunAgrees(AddRun(f, path), f.queue[path])
  {}

  lemma AddedRunSize(f: Fleet, path: Path)
    requires Startable(f, path)
    ensures |AddRun(f, path).running| == |f.running| + 1
  {}

  lemma StartAdvances(f: Fleet, path: Path)
    requires Invariant(f)
    ensures Advances(f, Step(f, StartRun(path)))
  {
    Unmoved(f);
    assert FilesKnown(f);
    hide Invariant, RunAgrees, Advances, FilesKnown, Eligible;
    if Startable(f, path) {
      StartedRunAgrees(f, path);
      AddedRunSize(f, path);
      TableAdvances(f, AddRun(f, path));
    }
  }

  lemma ReapAdvances(f: Fleet, j: JobId)
    requires Invariant(f)
    ensures Advances(f, Step(f, Reap(j)))
  {
    var g := Step(f, Reap(j));
    Unmoved(f);
    if g != f {
      assert g.running.Keys == f.running.Keys - {j};
      assert |g.running| == |g.running.Keys| && |f.running| == |f.running.Keys|;
      assert |f.running| <= f.maxConcurrency;
      hide Invariant, RunAgrees, Advances;
      TableAdvances(f, g);
    }
  }

  lemma ModeRuns(f: Fleet, mode: Mode, stopping: bool)
    requires RunsAgree(f)
    ensures RunsAgree(f.(mode := mode, stopping := stopping))
  {
    var g := f.(mode := mode, stopping := stopping);
    hide PhaseAgrees;
    forall i | i in g.running ensures RunAgrees(g, i) { assert RunAgrees(f, i); }
  }

  lemma ModeFiles(f: Fleet, mode: Mode, stopping: bool)
    requires FilesKnown(f)
    ensures FilesKnown(f.(mode := mode, stopping := stopping))
  {}

  lemma ModeAdvances(f: Fleet, a: Action)
    requires Invariant(f) && (a.Stop? || a.Ready?)
    ensures Advances(f, Step(f, a))
  {
    Unmoved(f);
    hide RunsAgree, FilesKnown, Advances, AttemptsBounded;
    var g := Step(f, a);
    if g != f {
      ModeRuns(f, g.mode, g.stopping);
      ModeFiles(f, g.mode, g.stopping);
      assert g == f.(mode := g.mode, stopping := g.stopping);
      SameRecordsAdvance(f, g);
    }
  }

  lemma BootAdvances(f: Fleet, limit: nat, resume: bool)
    requires Invariant(f)
    ensures Advances(f, Step(f, Boot(limit, resume)))
  {
    Unmoved(f);
    var g := Step(f, Boot(limit, resume));
    hide Advances, AttemptsBounded;
    if g != f {
      assert g.running == map[];
      SameRecordsAdvance(f, g);
    }
  }

  lemma CrashAdvances(f: Fleet)
    requires Invariant(f)
    ensures Advances(f, Step(f, Crash))
  {
    hide Advances, AttemptsBounded;
    SameRecordsAdvance(f, Step(f, Crash));
  }

  /** Every step keeps the invariant, and every job's durable record moves forward. */
  lemma StepAdvances(f: Fleet, a: Action)
    requires Invariant(f)
    ensures Advances(f, Step(f, a))
  {
    hide Invariant, Advances;
    match a
    case Enqueue(path, j) => EnqueueAdvances(f, path, j);
    case ArchiveQueued(path) =>
      Unmoved(f);
      if path in f.queue && Terminal(StateOf(f, f.queue[path]).status) { MoveAdvances(f, path); }
    case StartRun(path) => StartAdvances(f, path);
    case ArchiveRun(j) => ArchiveRunAdvances(f, j);
    case Reap(j) => ReapAdvances(f, j);
    case Reconcile(j) => ReconcileAdvances(f, j);
    case Stop => ModeAdvances(f, a);
    case Crash => CrashAdvances(f);
    case Boot(limit, resume) => BootAdvances(f, limit, resume);
    case Ready => ModeAdvances(f, a);
    case _ => RunStepAdvances(f, a);
  }
}
