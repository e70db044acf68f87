/** The durable state of a job, read off what the steps of a run recorded about it
    (`scripts/fleet/supervisor.py`). */
module SupervisorHistory {
  import opened Supervisor
  import opened SupervisorRuns

  /** What a step durably records about a job; `last` says that the attempt was the last one
      the job allows. */
  datatype Note =
    | Exhausted
    | Unprepared(failure: PrepareFailure)
    | Reserving
    | Recording
    | Ended(outcome: Outcome, last: bool)
    | Reconciled

  datatype Noted = Nothing | Something(note: Note)

  function NoteOf(f: Fleet, a: Action, j: JobId): Noted {
    match a
    case Begin(i) =>
      if i == j && Live(f, j) && f.running[j].phase.Created? && StateOf(f, j).attempt >= Limit(f, j)
      then Something(Exhausted) else Nothing
    case FailPreparation(i, failure) =>
      if i == j && Live(f, j) && f.running[j].phase.Preparing? then Something(Unprepared(failure)) else Nothing
    case Reserve(i) => if i == j && Live(f, j) && f.running[j].phase.Preparing? then Something(Reserving) else Nothing
    case RecordRunning(i) => if i == j && Live(f, j) && f.running[j].phase.Launched? then Something(Recording) else Nothing
    case Finish(i, outcome) =>
      if i == j && Live(f, j) && f.running[j].phase.Waiting? && (outcome.Shutdown? ==> f.stopping)
      then Something(Ended(outcome, StateOf(f, j).attempt >= Limit(f, j))) else Nothing
    case Reconcile(i) =>
      if i == j && f.mode.Booting? && StateOf(f, j).status in {Starting, Running, Stopping} then Something(Reconciled) else Nothing
    case _ => Nothing
  }

  /** The last thing a run recorded about the job. */
  function LastNote(f: Fleet, actions: seq<Action>, j: JobId): Noted {
    if actions == [] then Nothing
    else
      var n := |actions| - 1;
      var note := NoteOf(Steps(f, actions[..n]), actions[n], j);
      if note.Something? then note else LastNote(f, actions[..n], j)
  }

  /** How many attempts a run recorded: reservations and failed preparations. */
  function AttemptCount(f: Fleet, actions: seq<Action>, j: JobId): nat {
    if actions == [] then 0
    else
      var n := |actions| - 1;
      var note := NoteOf(Steps(f, actions[..n]), actions[n], j);
      AttemptCount(f, actions[..n], j) + if note.Something? && IsAttempt(note.note) then 1 else 0
  }

  predicate IsAttempt(n: Note) { n.Reserving? || n.Unprepared? }

  // ---------- what each status means ----------

  predicate MeansSucceeded(n: Note) { n.Ended? && n.outcome.Delivered? }

  predicate MeansFailed(n: Note) {
    || (n.Unprepared? && n.failure.Unrecoverable?)
    || (n.Ended? && n.outcome.Error? && (n.last || n.outcome.authentication))
  }

  predicate MeansPartial(n: Note) { n.Exhausted? || (n.Ended? && n.outcome.Incomplete? && n.last) }

  predicate MeansPaused(n: Note) {
    || n.Reconciled?
    || (n.Unprepared? && !n.failure.Unrecoverable?)
    || (n.Ended? && (n.outcome.Shutdown? || n.outcome.QuotaOrRateLimit?))
  }

  predicate MeansQueued(n: Note) {
    n.Ended? && (n.outcome.Timeout? || (!n.last && (n.outcome.Incomplete? || (n.outcome.Error? && !n.outcome.authentication))))
  }

  /** The status tells what was recorded last, and conversely. */
  ghost predicate StatusTells(s: Status, n: Noted) {
    && (s.Succeeded? <==> n.Something? && MeansSucceeded(n.note))
    && (s.Failed? <==> n.Something? && MeansFailed(n.note))
    && (s.Partial? <==> n.Something? && MeansPartial(n.note))
    && (s.Paused? <==> n.Something? && MeansPaused(n.note))
    && (s.Queued? <==> n.Nothing? || MeansQueued(n.note))
    && (s.Starting? <==> n.Something? && n.note.Reserving?)
    && (s.Running? <==> n.Something? && n.note.Recording?)
    && !s.Canceled? && !s.Stopping?
  }

  // ---------- one step ----------

  /** A step that records nothing about the job leaves its state alone; one that records
      something leaves the status that tells it, and counts an attempt if it was one. */
  ghost predicate Records(f: Fleet, g: Fleet, j: JobId, n: Noted) {
    var s, t := StateOf(f, j), StateOf(g, j);
    if n.Nothing? then t == s
    else StatusTells(t.status, n) && t.attempt == s.attempt + if IsAttempt(n.note) then 1 else 0
  }

  lemma SameStates(f: Fleet, g: Fleet, j: JobId)
    requires g.states == f.states
    ensures Records(f, g, j, Nothing)
  {}

  lemma SavedState(f: Fleet, i: JobId, status: Status, attempt: nat, phase: Phase, j: JobId)
    requires i in f.running
    ensures StateOf(SetPhase(Save(f, i, status, attempt), i, phase), j)
            == if i == j then JobState(status, attempt) else StateOf(f, j)
  {}

  lemma OutcomeTells(attempt: nat, limit: nat, outcome: Outcome)
    ensures StatusTells(StatusAfter(attempt, limit, outcome), Something(Ended(outcome, attempt >= limit)))
  {}

  lemma BeginRecords(f: Fleet, i: JobId, j: JobId)
    ensures Records(f, BeginRun(f, i), j, NoteOf(f, Begin(i), j))
  {
    if Live(f, i) && f.running[i].phase.Created? {
      var attempt := StateOf(f, i).attempt;
      SavedState(f, i, Partial, attempt, Archiving(Partial), j);
      SameStates(f, SetPhase(f, i, Preparing(attempt + 1)), j);
    }
    hide Save, StateOf;
  }

  lemma FailRecords(f: Fleet, i: JobId, failure: PrepareFailure, j: JobId)
    requires Invariant(f)
    ensures Records(f, FailRun(f, i, failure), j, NoteOf(f, FailPreparation(i, failure), j))
  {
    hide Invariant, Save, StateOf, SetPhase;
    if Live(f, i) && f.running[i].phase.Preparing? {
      RunFacts(f, i);
      var status := if failure.Unrecoverable? then Failed else Paused;
      SavedState(f, i, status, f.running[i].phase.attempt, AfterSave(status), j);
    }
  }

  lemma ReserveRecords(f: Fleet, i: JobId, j: JobId)
    requires Invariant(f)
    ensures Records(f, ReserveRun(f, i), j, NoteOf(f, Reserve(i), j))
  {
    hide Invariant, Save, StateOf, SetPhase;
    if Live(f, i) && f.running[i].phase.Preparing? {
      RunFacts(f, i);
      var attempt := f.running[i].phase.attempt;
      SavedState(f, i, Starting, attempt, Reserved(attempt), j);
    }
  }

  lemma RunningRecords(f: Fleet, i: JobId, j: JobId)
    requires Invariant(f)
    ensures Records(f, RecordRun(f, i), j, NoteOf(f, RecordRunning(i), j))
  {
    hide Invariant, Save, StateOf, SetPhase;
    if Live(f, i) && f.running[i].phase.Launched? {
      RunFacts(f, i);
      var attempt := f.running[i].phase.attempt;
      SavedState(f, i, Running, attempt, Waiting(attempt), j);
    }
  }

  lemma FinishRecords(f: Fleet, i: JobId, outcome: Outcome, j: JobId)
    requires Invariant(f)
    ensures Records(f, FinishRun(f, i, outcome), j, NoteOf(f, Finish(i, outcome), j))
  {
    hide Invariant, Save, StateOf, SetPhase, StatusAfter, StatusTells;
    if Live(f, i) && f.running[i].phase.Waiting? && (outcome.Shutdown? ==> f.stopping) {
      RunFacts(f, i);
      var attempt := f.running[i].phase.attempt;
      var status := StatusAfter(attempt, Limit(f, i), outcome);
      OutcomeTells(attempt, Limit(f, i), outcome);
      SavedState(f, i, status, StateOf(f, i).attempt, AfterSave(status), j);
    }
  }

  lemma ReconcileRecords(f: Fleet, i: JobId, j: JobId)
    ensures Records(f, Step(f, Reconcile(i)), j, NoteOf(f, Reconcile(i), j))
  {}

  lemma OtherStepsRecordNothing(f: Fleet, a: Action, j: JobId)
    requires !a.Begin? && !a.FailPreparation? && !a.Reserve? && !a.RecordRunning? && !a.Finish? && !a.Reconcile?
    ensures Step(f, a).states == f.states && NoteOf(f, a, j).Nothing?
  {
    hide Startable, StateOf, CanLaunch, Launches, Eligible;
  }

  lemma StepRecords(f: Fleet, a: Action, j: JobId)
    requires Invariant(f)
    ensures Records(f, Step(f, a), j, NoteOf(f, a, j))
  {
    hide Records, Invariant, NoteOf;
    match a
    case Begin(i) => BeginRecords(f, i, j);
    case FailPreparation(i, failure) => FailRecords(f, i, failure, j);
    case Reserve(i) => ReserveRecords(f, i, j);
    case RecordRunning(i) => RunningRecords(f, i, j);
    case Finish(i, outcome) => FinishRecords(f, i, outcome, j);
    case Reconcile(i) => ReconcileRecords(f, i, j);
    case _ =>
      OtherStepsRecordNothing(f, a, j);
      SameStates(f, Step(f, a), j);
  }

  // ---------- whole runs ----------

  /** After any run, however often it crashed: the durable status of a job tells exactly what
      was recorded last about it, and its attempt count is the number of attempts recorded. */
  lemma {:induction false} StatusTellsTheHistory(maxAttempts: map<JobId, nat>, actions: seq<Action>, j: JobId)
    ensures var f := Fresh(maxAttempts);
            var s := StateOf(Steps(f, actions), j);
            StatusTells(s.status, LastNote(f, actions, j)) && s.attempt == AttemptCount(f, actions, j)
    decreases |actions|
  {
    var f := Fresh(maxAttempts);
    if actions != [] {
      var n := |actions| - 1;
      StatusTellsTheHistory(maxAttempts, actions[..n], j);
      FreshIsSafe(maxAttempts);
      RunAdvances(f, actions[..n]);
      assert Invariant(Steps(f, actions[..n]));
      hide Step, Invariant, Advances, StatusTells, NoteOf, IsAttempt;
      StepRecords(Steps(f, actions[..n]), actions[n], j);
    }
  }

  /** A step of the run records that the job was delivered. */
  ghost predicate DeliveredAt(f: Fleet, actions: seq<Action>, j: JobId, i: nat) {
    i < |actions| &&
    var note := NoteOf(Steps(f, actions[..i]), actions[i], j);
    note.Something? && MeansSucceeded(note.note)
  }

  /** A job is recorded as succeeded exactly if one of its runs was found delivered, then and
      ever after. */
  lemma SucceededMeansDelivered(maxAttempts: map<JobId, nat>, actions: seq<Action>, j: JobId)
    ensures StateOf(Steps(Fresh(maxAttempts), actions), j).status.Succeeded?
            <==> exists i :: DeliveredAt(Fresh(maxAttempts), actions, j, i)
  {
    hide Steps, NoteOf, StateOf, DeliveredAt;
    var f := Fresh(maxAttempts);
    if StateOf(Steps(f, actions), j).status.Succeeded? {
      var i := SuccessIsThere(maxAttempts, actions, j);
    }
    if i :| DeliveredAt(f, actions, j, i) {
      DeliveredStays(maxAttempts, actions, j, i);
    }
  }

  lemma SuccessIsThere(maxAttempts: map<JobId, nat>, actions: seq<Action>, j: JobId) returns (i: nat)
    requires StateOf(Steps(Fresh(maxAttempts), actions), j).status.Succeeded?
    ensures DeliveredAt(Fresh(maxAttempts), actions, j, i)
  {
    hide Steps, NoteOf, StateOf;
    StatusTellsTheHistory(maxAttempts, actions, j);
    i := LastNoteIsThere(Fresh(maxAttempts), actions, j);
  }

  lemma {:induction false} LastNoteIsThere(f: Fleet, actions: seq<Action>, j: JobId) returns (i: nat)
    requires LastNote(f, actions, j).Something?
    ensures i < |actions| && NoteOf(Steps(f, actions[..i]), actions[i], j) == LastNote(f, actions, j)
    decreases |actions|
  {
    hide Steps, NoteOf;
    i := |actions| - 1;
    if NoteOf(Steps(f, actions[..i]), actions[i], j).Nothing? {
      var n := i;
      i := LastNoteIsThere(f, actions[..n], j);
      assert actions[..n][..i] == actions[..i];
    }
  }

  lemma DeliveredStays(maxAttempts: map<JobId, nat>, actions: seq<Action>, j: JobId, i: nat)
    requires DeliveredAt(Fresh(maxAttempts), actions, j, i)
    ensures StateOf(Steps(Fresh(maxAttempts), actions), j).status.Succeeded?
  {
    var f := Fresh(maxAttempts);
    var past, future := actions[..i + 1], actions[i + 1..];
    assert past[..i] == actions[..i] && past + future == actions;
    hide NoteOf, Step;
    StatusTellsTheHistory(maxAttempts, past, j);
    StepsAppend(f, past, future);
    RecordsOnlyMoveForward(maxAttempts, past, future, j);
  }

  // ---------- what a process starts with and what it starts ----------

  /** A process begins to poll only when no job is left recorded as starting, running or
      stopping. */
  lemma PollingStartsReconciled(f: Fleet, j: JobId)
    requires f.mode.Booting? && Step(f, Ready).mode.Up?
    ensures StateOf(f, j).status !in {Starting, Running, Stopping}
  {}

  /** A run is started only from a queue file of a job that is not finished and, if it is
      paused, only where resuming is enabled; never while stopping or beyond the limit. */
  lemma StartedRunsAreOpen(f: Fleet, path: Path, j: JobId)
    requires j !in f.running && j in Step(f, StartRun(path)).running
    ensures path in f.queue && f.queue[path] == j && !f.stopping && |f.running| < f.maxConcurrency
    ensures StateOf(f, j).status !in {Succeeded, Failed, Canceled, Partial}
    ensures StateOf(f, j).status == Paused ==> f.resumePaused
  {}
}
