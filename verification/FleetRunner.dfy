/** `FleetRunner` of `scripts/fleet/supervisor.py`: the code between two awaits, tied to the
    step machine. */
module FleetRunner {
  import opened Sequences
  import opened Supervisor
  import opened SupervisorRuns
  import opened SupervisorHistory
  import Model
  import opened Orders

  datatype Candidate = Candidate(path: Path, job: JobId, priority: int)

  /** The start order of queued jobs: priority, then job id. */
  predicate CandidateLe(x: Candidate, y: Candidate) {
    if x.priority == y.priority then StrLe(x.job, y.job) else x.priority < y.priority
  }

  lemma CandidateLePreorder()
    ensures TotalPreorder(CandidateLe)
  {
    forall x, y ensures CandidateLe(x, y) || CandidateLe(y, x) { StrLeTotal(x.job, y.job); }
    forall x, y, z | CandidateLe(x, y) && CandidateLe(y, z) ensures CandidateLe(x, z) {
      if x.priority == z.priority { StrLeTransitive(x.job, y.job, z.job); }
    }
  }

  /** Lower priority numbers start first, ties by job id. */
  predicate InStartOrder(x: Candidate, y: Candidate) {
    x.priority < y.priority || (x.priority == y.priority && StrLe(x.job, y.job))
  }

  ghost predicate AllInStartOrder(jobs: seq<Candidate>) {
    forall i, k :: 0 <= i < k < |jobs| ==> InStartOrder(jobs[i], jobs[k])
  }

  lemma SortOffers(jobs: seq<Candidate>)
    ensures AllInStartOrder(Sort(CandidateLe, jobs))
    ensures forall c :: c in jobs <==> c in Sort(CandidateLe, jobs)
  {
    CandidateLePreorder();
    SortSorted(CandidateLe, jobs);
    SortMultiset(CandidateLe, jobs);
    SameMembers(jobs, Sort(CandidateLe, jobs));
    var s := Sort(CandidateLe, jobs);
    hide Sort, TotalPreorder;
    forall i, k | 0 <= i < k < |s| ensures InStartOrder(s[i], s[k]) { assert CandidateLe(s[i], s[k]); }
  }

  /** Some run of the step machine leads from `f` to `g`. */
  ghost predicate Reaches(f: Fleet, g: Fleet) {
    exists actions :: Steps(f, actions) == g
  }

  lemma ReachesItself(f: Fleet)
    ensures Reaches(f, f)
  {
    assert Steps(f, []) == f;
  }

  lemma ReachesStep(f: Fleet, g: Fleet, a: Action)
    requires Reaches(f, g)
    ensures Reaches(f, Step(g, a))
  {
    hide Step;
    var actions :| Steps(f, actions) == g;
    assert (actions + [a])[..|actions|] == actions;
    assert Steps(f, actions + [a]) == Step(g, a);
  }

  lemma ReachesTransitive(f: Fleet, g: Fleet, h: Fleet)
    requires Reaches(f, g) && Reaches(g, h)
    ensures Reaches(f, h)
  {
    var xs :| Steps(f, xs) == g;
    var ys :| Steps(g, ys) == h;
    StepsAppend(f, xs, ys);
    assert Steps(f, xs + ys) == h;
  }

  lemma SameLaunches(f: Fleet, g: Fleet, j: JobId)
    requires f.launches == g.launches
    ensures Launches(f, j) == Launches(g, j)
  {}

  lemma Overwrite<K, V>(m: map<K, V>, k: K, x: V, y: V)
    ensures m[k := x][k := y] == m[k := y]
  {}

  /** What restart reconciliation makes of a state file. */
  function AfterRestart(s: JobState): JobState {
    if Interrupted(s.status) then JobState(Paused, s.attempt) else s
  }

  /** The status in which an attempt leaves its job. */
  function AttemptStatus(attempt: nat, limit: nat, failure: Model.Option<PrepareFailure>, outcome: Outcome): Status {
    if failure.Some? then if failure.value.Unrecoverable? then Failed else Paused
    else StatusAfter(attempt, limit, outcome)
  }

  /** The durable state in which an uninterrupted run leaves its job. */
  function EndState(attempt: nat, limit: nat, failure: Model.Option<PrepareFailure>, outcome: Outcome): JobState {
    if attempt >= limit then JobState(Partial, attempt)
    else JobState(AttemptStatus(attempt + 1, limit, failure, outcome), attempt + 1)
  }

  /** What an uninterrupted run records last. */
  function EndNote(attempt: nat, limit: nat, failure: Model.Option<PrepareFailure>, outcome: Outcome): Note {
    if attempt >= limit then Exhausted
    else if failure.Some? then Unprepared(failure.value)
    else Ended(outcome, attempt + 1 >= limit)
  }

  lemma EndStateTells(attempt: nat, limit: nat, failure: Model.Option<PrepareFailure>, outcome: Outcome)
    ensures StatusTells(EndState(attempt, limit, failure, outcome).status, Something(EndNote(attempt, limit, failure, outcome)))
  {
    OutcomeTells(attempt + 1, limit, outcome);
  }

  class FleetRunner {
    const maxAttempts: map<JobId, nat>
    const maxConcurrency: nat
    const resumePaused: bool
    const priority: map<JobId, int>
    var states: map<JobId, JobState>
    var queue: map<Path, JobId>
    var archive: map<Path, JobId>
    var mode: Mode
    var stopping: bool
    var running: map<JobId, Run>
    ghost var launches: map<JobId, nat>

    ghost function View(): Fleet
      reads this
    {
      Fleet(maxAttempts, maxConcurrency, resumePaused, states, queue, archive, mode, stopping, running, launches)
    }

    /** A process starts over the durable state that the previous one left, with its own
        settings. */
    constructor (disk: Fleet, limit: nat, resume: bool, priority: map<JobId, int>)
      requires disk.mode.Down? && disk.running == map[] && !disk.stopping
      requires 0 < limit <= MAX_CONCURRENCY_HARD_LIMIT
      ensures View() == Step(disk, Boot(limit, resume)) && this.priority == priority
    {
      maxAttempts := disk.maxAttempts;
      maxConcurrency := limit;
      resumePaused := resume;
      this.priority := priority;
      states := disk.states;
      queue := disk.queue;
      archive := disk.archive;
      mode := Booting;
      stopping := false;
      running := map[];
      launches := disk.launches;
    }

    method ReconcileState(j: JobId)
      requires mode.Booting? && j in states
      modifies this`states
      ensures View() == Step(old(View()), Reconcile(j))
      ensures states == old(states)[j := AfterRestart(old(states)[j])]
    {
      assert states == states[j := states[j]];
      if Interrupted(states[j].status) {
        states := states[j := JobState(Paused, states[j].attempt)];
      }
    }

    method Activate()
      requires mode.Booting? && forall j :: j in states ==> !Interrupted(states[j].status)
      modifies this`mode
      ensures View() == Step(old(View()), Ready) && mode.Up?
    {
      mode := Up;
    }

    /** Restart: every interrupted job is paused with its attempt count, nothing else changes. */
    method ReconcileInterruptedStates()
      requires mode.Booting?
      modifies this`states, this`mode
      ensures Reaches(old(View()), View()) && mode.Up?
      ensures states.Keys == old(states.Keys)
      ensures forall j :: j in states ==> states[j] == AfterRestart(old(states)[j])
    {
      hide Step, Reaches;
      ghost var before := View();
      var todo := states.Keys;
      ReachesItself(before);
      while todo != {}
        invariant mode.Booting? && Reaches(before, View())
        invariant states.Keys == before.states.Keys && todo <= states.Keys
        invariant forall j :: j in todo ==> states[j] == before.states[j]
        invariant forall j :: j in states && j !in todo ==> states[j] == AfterRestart(before.states[j])
        decreases |todo|
      {
        var j :| j in todo;
        ReachesStep(before, View(), Reconcile(j));
        ReconcileState(j);
        todo := todo - {j};
      }
      ReachesStep(before, View(), Ready);
      Activate();
    }

    function RecordOf(j: JobId): JobState
      reads this`states
    {
      if j in states then states[j] else JobState(Queued, 0)
    }

    function LimitOf(j: JobId): nat {
      if j in maxAttempts then maxAttempts[j] else 0
    }

    method SaveState(j: JobId, status: Status, attempt: nat)
      modifies this`states
      ensures View() == Save(old(View()), j, status, attempt)
    {
      states := states[j := JobState(status, attempt)];
    }

    /** The coroutine of job `j` moves on; the table keeps its queue file. */
    method Proceed(j: JobId, phase: Phase)
      requires j in running
      modifies this`running
      ensures View() == SetPhase(old(View()), j, phase)
    {
      running := running[j := running[j].(phase := phase)];
    }

    method BeginAttempt(j: JobId)
      requires mode.Up? && j in running && running[j].phase.Created?
      modifies this`states, this`running
      ensures View() == Step(old(View()), Begin(j))
      ensures if RecordOf(j).attempt < LimitOf(j)
              then states == old(states) && running == old(running)[j := Run(old(running)[j].path, Preparing(RecordOf(j).attempt + 1))]
              else states == old(states)[j := JobState(Partial, old(RecordOf(j)).attempt)]
                   && running == old(running)[j := Run(old(running)[j].path, Archiving(Partial))]
    {
      var attempt := RecordOf(j).attempt + 1;
      if attempt > LimitOf(j) {
        SaveState(j, Partial, RecordOf(j).attempt);
        Proceed(j, Archiving(Partial));
      } else {
        Proceed(j, Preparing(attempt));
      }
    }

    method AbandonPreparation(j: JobId, failure: PrepareFailure)
      requires mode.Up? && j in running && running[j].phase.Preparing?
      modifies this`states, this`running
      ensures View() == Step(old(View()), FailPreparation(j, failure))
      ensures var status := if failure.Unrecoverable? then Failed else Paused;
              && states == old(states)[j := JobState(status, old(running)[j].phase.attempt)]
              && running == old(running)[j := Run(old(running)[j].path, AfterSave(status))]
    {
      var status := if failure.Unrecoverable? then Failed else Paused;
      SaveState(j, status, running[j].phase.attempt);
      Proceed(j, AfterSave(status));
    }

    method ReserveAttempt(j: JobId)
      requires mode.Up? && j in running && running[j].phase.Preparing?
      modifies this`states, this`running
      ensures View() == Step(old(View()), Reserve(j))
      ensures var attempt := old(running)[j].phase.attempt;
              && states == old(states)[j := JobState(Starting, attempt)]
              && running == old(running)[j := Run(old(running)[j].path, Reserved(attempt))]
    {
      SaveState(j, Starting, running[j].phase.attempt);
      Proceed(j, Reserved(running[j].phase.attempt));
    }

    method LaunchProcess(j: JobId)
      requires mode.Up? && j in running && running[j].phase.Reserved?
      modifies this`running, this`launches
      ensures View() == Step(old(View()), Launch(j))
      ensures running == old(running)[j := Run(old(running)[j].path, Launched(old(running)[j].phase.attempt))]
      ensures launches == old(launches)[j := Launches(old(View()), j) + 1]
    {
      launches := launches[j := if j in launches then launches[j] + 1 else 1];
      Proceed(j, Launched(running[j].phase.attempt));
    }

    method RecordProcess(j: JobId)
      requires mode.Up? && j in running && running[j].phase.Launched?
      modifies this`states, this`running
      ensures View() == Step(old(View()), RecordRunning(j))
      ensures var attempt := old(running)[j].phase.attempt;
              && states == old(states)[j := JobState(Running, attempt)]
              && running == old(running)[j := Run(old(running)[j].path, Waiting(attempt))]
    {
      SaveState(j, Running, running[j].phase.attempt);
      Proceed(j, Waiting(running[j].phase.attempt));
    }

    method FinishProcess(j: JobId, outcome: Outcome)
      requires mode.Up? && j in running && running[j].phase.Waiting? && (outcome.Shutdown? ==> stopping)
      modifies this`states, this`running
      ensures View() == Step(old(View()), Finish(j, outcome))
      ensures var status := StatusAfter(old(running)[j].phase.attempt, LimitOf(j), outcome);
              && states == old(states)[j := JobState(status, old(RecordOf(j)).attempt)]
              && running == old(running)[j := Run(old(running)[j].path, AfterSave(status))]
    {
      var status := StatusAfter(running[j].phase.attempt, LimitOf(j), outcome);
      SaveState(j, status, RecordOf(j).attempt);
      Proceed(j, AfterSave(status));
    }

    method FileAway(j: JobId)
      requires mode.Up? && j in running && running[j].phase.Archiving?
      modifies this`queue, this`archive, this`running
      ensures View() == Step(old(View()), ArchiveRun(j))
      ensures queue == old(queue) - {old(running)[j].path}
      ensures running == old(running)[j := Run(old(running)[j].path, Done)]
    {
      ArchiveJob(running[j].path);
      Proceed(j, Done);
    }

    /** The attempt becomes durable, then the process is created. */
    method Spawn(j: JobId)
      requires mode.Up? && j in running && running[j].phase.Preparing?
      modifies this`states, this`running, this`launches
      ensures Reaches(old(View()), View())
      ensures launches == old(launches)[j := Launches(old(View()), j) + 1]
      ensures var attempt := old(running)[j].phase.attempt;
              && states == old(states)[j := JobState(Starting, attempt)]
              && running == old(running)[j := Run(old(running)[j].path, Launched(attempt))]
    {
      hide Step, Reaches;
      ghost var before := View();
      ReachesItself(before);
      ReachesStep(before, before, Reserve(j));
      ReserveAttempt(j);
      ReachesStep(before, View(), Launch(j));
      LaunchProcess(j);
    }

    /** The running process is recorded and ends with `outcome`. */
    method Await(j: JobId, outcome: Outcome)
      requires mode.Up? && j in running && running[j].phase.Launched? && (outcome.Shutdown? ==> stopping)
      modifies this`states, this`running
      ensures Reaches(old(View()), View())
      ensures var attempt := old(running)[j].phase.attempt;
              var status := StatusAfter(attempt, LimitOf(j), outcome);
              && states == old(states)[j := JobState(status, attempt)]
              && running == old(running)[j := Run(old(running)[j].path, AfterSave(status))]
    {
      hide Step, Reaches, StatusAfter, AfterSave;
      ghost var before := View();
      ReachesItself(before);
      ReachesStep(before, before, RecordRunning(j));
      RecordProcess(j);
      ReachesStep(before, View(), Finish(j, outcome));
      ghost var recorded := View();
      FinishProcess(j, outcome);
      Overwrite(before.states, j, recorded.states[j], states[j]);
      Overwrite(before.running, j, recorded.running[j], running[j]);
    }

    /** Preparation fails, or the provider runs. */
    method Attempt(j: JobId, failure: Model.Option<PrepareFailure>, outcome: Outcome)
      requires mode.Up? && j in running && running[j].phase.Preparing? && (outcome.Shutdown? ==> stopping)
      modifies this`states, this`running, this`launches
      ensures Reaches(old(View()), View())
      ensures launches == if failure.None? then old(launches)[j := Launches(old(View()), j) + 1] else old(launches)
      ensures var attempt := old(running)[j].phase.attempt;
              var status := AttemptStatus(attempt, LimitOf(j), failure, outcome);
              && states == old(states)[j := JobState(status, attempt)]
              && running == old(running)[j := Run(old(running)[j].path, AfterSave(status))]
    {
      if failure.Some? {
        hide Step, Reaches;
        ghost var before := View();
        ReachesItself(before);
        ReachesStep(before, before, FailPreparation(j, failure.value));
        AbandonPreparation(j, failure.value);
      } else {
        hide StatusAfter, AfterSave, Reaches;
        ghost var before := View();
        Spawn(j);
        ghost var was := View();
        Await(j, outcome);
        Overwrite(before.states, j, was.states[j], states[j]);
        Overwrite(before.running, j, was.running[j], running[j]);
        ReachesTransitive(before, was, View());
      }
    }

    /** A terminal job's file is moved before the coroutine returns. */
    method Conclude(j: JobId)
      requires mode.Up? && j in running && (running[j].phase.Archiving? || running[j].phase.Done?)
      modifies this`queue, this`archive, this`running
      ensures Reaches(old(View()), View())
      ensures running == old(running)[j := Run(old(running)[j].path, Done)]
      ensures queue == if old(running)[j].phase.Archiving? then old(queue) - {old(running)[j].path} else old(queue)
    {
      hide Step, Reaches;
      ghost var before := View();
      ReachesItself(before);
      if running[j].phase.Archiving? {
        ReachesStep(before, before, ArchiveRun(j));
        FileAway(j);
      } else {
        assert running == running[j := Run(running[j].path, Done)];
      }
    }

    /** `run_one` up to the last durable write. */
    method Work(j: JobId, failure: Model.Option<PrepareFailure>, outcome: Outcome)
      requires mode.Up? && j in running && running[j].phase.Created? && (outcome.Shutdown? ==> stopping)
      modifies this`states, this`running, this`launches
      ensures Reaches(old(View()), View())
      ensures var end := EndState(old(RecordOf(j)).attempt, LimitOf(j), failure, outcome);
              && states == old(states)[j := end]
              && running == old(running)[j := Run(old(running)[j].path, AfterSave(end.status))]
      ensures launches == if old(RecordOf(j)).attempt < LimitOf(j) && failure.None?
                          then old(launches)[j := Launches(old(View()), j) + 1] else old(launches)
    {
      hide Step, Reaches, AttemptStatus, Launches;
      ghost var before := View();
      ReachesItself(before);
      ReachesStep(before, before, Begin(j));
      BeginAttempt(j);
      if running[j].phase.Preparing? {
        hide AfterSave;
        ghost var begun := View();
        SameLaunches(before, begun, j);
        Attempt(j, failure, outcome);
        Overwrite(before.running, j, begun.running[j], running[j]);
        ReachesTransitive(before, begun, View());
      }
    }

    /** `run_one` from start to end without a crash.  An exhausted job is never launched; the
        attempt is recorded even when preparation fails; otherwise there is exactly one
        launch; and the queue file leaves the queue exactly when the recorded state is terminal. */
    method RunOne(j: JobId, failure: Model.Option<PrepareFailure>, outcome: Outcome)
      requires mode.Up? && j in running && running[j].phase.Created? && (outcome.Shutdown? ==> stopping)
      modifies this`states, this`queue, this`archive, this`running, this`launches
      ensures Reaches(old(View()), View())
      ensures running == old(running)[j := Run(old(running)[j].path, Done)]
      ensures states == old(states)[j := EndState(old(RecordOf(j)).attempt, LimitOf(j), failure, outcome)]
      ensures StatusTells(states[j].status, Something(EndNote(old(RecordOf(j)).attempt, LimitOf(j), failure, outcome)))
      ensures launches == if old(RecordOf(j)).attempt < LimitOf(j) && failure.None?
                          then old(launches)[j := Launches(old(View()), j) + 1] else old(launches)
      ensures queue == if Terminal(states[j].status) then old(queue) - {old(running)[j].path} else old(queue)
    {
      hide Reaches, EndState, Launches, StatusTells, EndNote;
      ghost var before := View();
      EndStateTells(RecordOf(j).attempt, LimitOf(j), failure, outcome);
      Work(j, failure, outcome);
      ghost var tried := View();
      Conclude(j);
      Overwrite(before.running, j, tried.running[j], running[j]);
      ReachesTransitive(before, tried, View());
    }

    method ArchiveJob(path: Path)
      modifies this`queue, this`archive
      ensures View() == MoveToArchive(old(View()), path)
    {
      if path in queue {
        archive := archive[path := queue[path]];
        queue := queue - {path};
      }
    }

    function PriorityOf(j: JobId): int {
      if j in priority then priority[j] else 0
    }

    /** A queue file that the scan offers to the poll loop. */
    ghost predicate Offered(c: Candidate)
      reads this`queue, this`states
    {
      && c.path in queue && c.job == queue[c.path] && Open(StatusIn(states, c.job), resumePaused)
      && c.priority == PriorityOf(c.job)
    }

    /** What one scan does with one queue file. */
    method ScanFile(path: Path) returns (offer: Model.Option<Candidate>)
      requires mode.Up? && path in queue
      modifies this`queue, this`archive
      ensures View() == Step(old(View()), ArchiveQueued(path))
      ensures Terminal(StatusIn(states, old(queue)[path]))
              ==> queue == old(queue) - {path} && archive == old(archive)[path := old(queue)[path]]
      ensures !Terminal(StatusIn(states, old(queue)[path])) ==> queue == old(queue) && archive == old(archive)
      ensures offer.Some? <==> path in queue && Open(StatusIn(states, queue[path]), resumePaused)
      ensures offer.Some? ==> offer.value == Candidate(path, queue[path], PriorityOf(queue[path]))
    {
      offer := Model.None;
      var j := queue[path];
      var status := StatusIn(states, j);
      if Terminal(status) {
        ArchiveJob(path);
      } else if !(status.Paused? && !resumePaused) {
        offer := Model.Some(Candidate(path, j, PriorityOf(j)));
      }
    }

    /** One scan of the queue directory: files of terminal jobs move to the archive, and
        exactly the eligible rest is offered, in start order. */
    method LoadJobs() returns (jobs: seq<Candidate>)
      requires mode.Up?
      modifies this`queue, this`archive
      ensures Reaches(old(View()), View())
      ensures Scanned(old(queue), queue, archive, states, {})
      ensures forall c :: c in jobs <==> Offered(c)
      ensures AllInStartOrder(jobs)
    {
      hide Step, Reaches, Open, Scanned, AllInStartOrder;
      ghost var before := View();
      var todo := queue.Keys;
      jobs := [];
      ReachesItself(before);
      NothingScanned(queue, archive, states);
      while todo != {}
        invariant Reaches(before, View()) && mode.Up? && todo <= queue.Keys
        invariant Scanned(before.queue, queue, archive, states, todo)
        invariant forall c :: c in jobs <==> Offered(c) && c.path !in todo
        decreases |todo|
      {
        var path :| path in todo;
        ReachesStep(before, View(), ArchiveQueued(path));
        OneMoreScanned(before.queue, queue, archive, states, todo, path);
        var offer := ScanFile(path);
        if offer.Some? { jobs := jobs + [offer.value]; }
        todo := todo - {path};
      }
      SortOffers(jobs);
      jobs := Sort(CandidateLe, jobs);
    }

    method StartRunOf(c: Candidate)
      requires mode.Up? && Offered(c) && !stopping && |running| < maxConcurrency && c.job !in running
      modifies this`running
      ensures View() == Step(old(View()), StartRun(c.path))
      ensures running == old(running)[c.job := Run(c.path, Created)]
    {
      running := running[c.job := Run(c.path, Created)];
    }

    /** The poll loop's pass over the scanned jobs.  It considers them in start order and
        stops early only when the table is full or the runner stops; each considered job
        then runs or has a blocked provider, no other job is started, every live run stays. */
    method StartJobs(jobs: seq<Candidate>, blocked: set<JobId>) returns (taken: nat)
      requires mode.Up? && forall c :: c in jobs ==> Offered(c)
      modifies this`running
      ensures Reaches(old(View()), View())
      ensures taken <= |jobs| && (taken < |jobs| ==> stopping || |running| >= maxConcurrency)
      ensures StartedExactly(old(running), running, jobs[..taken], blocked)
    {
      hide Step, Reaches, StartedExactly;
      ghost var before := View();
      ReachesItself(before);
      NothingStarted(running, blocked);
      taken := 0;
      while taken < |jobs| && !stopping && |running| < maxConcurrency
        invariant taken <= |jobs| && Reaches(before, View())
        invariant StartedExactly(before.running, running, jobs[..taken], blocked)
      {
        var c := jobs[taken];
        assert c in jobs && Offered(c);
        OneMoreConsidered(before.running, running, jobs[..taken], blocked, c);
        assert jobs[..taken + 1] == jobs[..taken] + [c];
        if c.job !in running && c.job !in blocked {
          ReachesStep(before, View(), StartRun(c.path));
          StartRunOf(c);
        }
        taken := taken + 1;
      }
    }

    /** One turn of the poll loop: it starts no terminal or paused-and-not-resumable job and
        wastes no slot, since with room left every open queue file runs or is blocked. */
    method Poll(blocked: set<JobId>)
      requires mode.Up?
      modifies this`queue, this`archive, this`running
      ensures Reaches(old(View()), View())
      ensures Scanned(old(queue), queue, archive, states, {})
      ensures forall j :: j in running && j !in old(running) ==> j !in blocked && Open(StatusIn(states, j), resumePaused)
      ensures !stopping && |running| < maxConcurrency ==>
                forall p :: p in queue && Open(StatusIn(states, queue[p]), resumePaused) ==>
                  queue[p] in running || queue[p] in blocked
    {
      hide Reaches, Open, Scanned, AllInStartOrder;
      ghost var before := View();
      var jobs := LoadJobs();
      ghost var scanned := View();
      var taken := StartJobs(jobs, blocked);
      ReachesTransitive(before, scanned, View());
      assert taken == |jobs| ==> jobs[..taken] == jobs;
      forall j | j in running && j !in before.running
        ensures j !in blocked && Open(StatusIn(states, j), resumePaused)
      {
        var c :| c in jobs[..taken] && running[j] == Run(c.path, Created) && c.job == j;
        assert c in jobs;
        assert Offered(c);
      }
      forall p | p in queue && Open(StatusIn(states, queue[p]), resumePaused) && taken == |jobs|
        ensures queue[p] in running || queue[p] in blocked
      {
        assert Offered(Candidate(p, queue[p], PriorityOf(queue[p])));
      }
    }
  }

  /** The considered jobs run unless blocked, and nothing else was added to the table. */
  ghost predicate StartedExactly(before: map<JobId, Run>, after: map<JobId, Run>, considered: seq<Candidate>,
                                 blocked: set<JobId>) {
    && (forall j :: j in before ==> j in after && after[j] == before[j])
    && (forall c :: c in considered ==> c.job in after || c.job in blocked)
    && (forall j :: j in after && j !in before ==>
          j !in blocked && exists c :: c in considered && after[j] == Run(c.path, Created) && c.job == j)
  }

  lemma NothingStarted(running: map<JobId, Run>, blocked: set<JobId>)
    ensures StartedExactly(running, running, [], blocked)
  {}

  lemma OneMoreConsidered(before: map<JobId, Run>, after: map<JobId, Run>, considered: seq<Candidate>,
                          blocked: set<JobId>, c: Candidate)
    requires StartedExactly(before, after, considered, blocked)
    ensures StartedExactly(before,
                           if c.job !in after && c.job !in blocked then after[c.job := Run(c.path, Created)] else after,
                           considered + [c], blocked)
  {}

  /** What a scan knows of the queue files outside `todo`. */
  ghost predicate Scanned(before: map<Path, JobId>, queue: map<Path, JobId>, archive: map<Path, JobId>,
                          states: map<JobId, JobState>, todo: set<Path>) {
    && todo <= queue.Keys
    && (forall p :: p in queue ==> p in before && queue[p] == before[p])
    && (forall p :: p in queue && p !in todo ==> !Terminal(StatusIn(states, queue[p])))
    && (forall p :: p in before && p !in queue ==>
          p in archive && archive[p] == before[p] && Terminal(StatusIn(states, before[p])))
  }

  lemma NothingScanned(queue: map<Path, JobId>, archive: map<Path, JobId>, states: map<JobId, JobState>)
    ensures Scanned(queue, queue, archive, states, queue.Keys)
  {}

  function StatusIn(states: map<JobId, JobState>, j: JobId): Status {
    if j in states then states[j].status else Queued
  }

  lemma OneMoreScanned(before: map<Path, JobId>, queue: map<Path, JobId>, archive: map<Path, JobId>,
                       states: map<JobId, JobState>, todo: set<Path>, path: Path)
    requires Scanned(before, queue, archive, states, todo) && path in todo
    ensures if Terminal(StatusIn(states, queue[path]))
            then Scanned(before, queue - {path}, archive[path := queue[path]], states, todo - {path})
            else Scanned(before, queue, archive, states, todo - {path})
  {}
}
