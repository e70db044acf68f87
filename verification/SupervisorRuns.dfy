/** What holds of the supervisor over whole runs: any interleaving of polls, run steps,
    shutdowns, crashes at any point and restarts. */
module SupervisorRuns {
  import opened Supervisor

  lemma {:induction false} StepsAppend(f: Fleet, xs: seq<Action>, ys: seq<Action>)
    ensures Steps(f, xs + ys) == Steps(Steps(f, xs), ys)
    decreases |ys|
  {
    hide Step;
    if ys == [] {
      assert xs + ys == xs;
    } else {
      var n := |ys| - 1;
      assert (xs + ys)[..|xs| + n] == xs + ys[..n];
      StepsAppend(f, xs, ys[..n]);
    }
  }

  lemma {:induction false} RunAdvances(f: Fleet, actions: seq<Action>)
    requires Invariant(f)
    ensures Advances(f, Steps(f, actions))
    decreases |actions|
  {
    if actions == [] {
      Unmoved(f);
    } else {
      var n := |actions| - 1;
      var g := Steps(f, actions[..n]);
      RunAdvances(f, actions[..n]);
      assert Invariant(g);
      hide Invariant, Advances, Step;
      StepAdvances(g, actions[n]);
      AdvancesTransitive(f, g, Step(g, actions[n]));
    }
  }

  lemma FreshIsSafe(maxAttempts: map<JobId, nat>)
    ensures Invariant(Fresh(maxAttempts))
  {}

  // ---------- provider launches counted on the history ----------

  /** The step creates a provider process for job `j`. */
  predicate LaunchesProcess(f: Fleet, a: Action, j: JobId) {
    a == Launch(j) && CanLaunch(f, j)
  }

  /** How many steps of a run create a provider process for job `j`. */
  function LaunchCount(f: Fleet, actions: seq<Action>, j: JobId): nat {
    if actions == [] then 0
    else
      var n := |actions| - 1;
      LaunchCount(f, actions[..n], j)
      + (if LaunchesProcess(Steps(f, actions[..n]), actions[n], j) then 1 else 0)
  }

  lemma StepCountsLaunches(f: Fleet, a: Action, j: JobId)
    ensures Launches(Step(f, a), j) == Launches(f, j) + (if LaunchesProcess(f, a, j) then 1 else 0)
  {
    hide BeginRun, FailRun, ReserveRun, LaunchRun, RecordRun, FinishRun, ArchiveFile, Startable, StateOf, CanLaunch;
    if a.Launch? {} else { assert Step(f, a).launches == f.launches; }
  }

  lemma {:induction false} LaunchesAreCounted(f: Fleet, actions: seq<Action>, j: JobId)
    ensures Launches(Steps(f, actions), j) == Launches(f, j) + LaunchCount(f, actions, j)
    decreases |actions|
  {
    if actions != [] {
      var n := |actions| - 1;
      LaunchesAreCounted(f, actions[..n], j);
      StepCountsLaunches(Steps(f, actions[..n]), actions[n], j);
      hide Step;
    }
  }

  // ---------- crash safety ----------

  /** In every run from an empty fleet, however often it crashes and restarts: a job is
      launched at most `max_attempts` times and never more often than attempts are durably
      recorded, and no more runs are live than the current process allows, at most fifteen. */
  lemma LaunchesNeverExceedAttempts(maxAttempts: map<JobId, nat>, actions: seq<Action>, j: JobId)
    ensures var f := Fresh(maxAttempts);
            var g := Steps(f, actions);
            && LaunchCount(f, actions, j) <= StateOf(g, j).attempt
            && (j in maxAttempts ==> StateOf(g, j).attempt <= maxAttempts[j])
            && (j !in maxAttempts ==> StateOf(g, j).attempt == 0)
            && |g.running| <= g.maxConcurrency <= MAX_CONCURRENCY_HARD_LIMIT
  {
    var f := Fresh(maxAttempts);
    FreshIsSafe(maxAttempts);
    RunAdvances(f, actions);
    LaunchesAreCounted(f, actions, j);
    LimitsAreConstant(f, actions);
    var g := Steps(f, actions);
    assert Bounded(g, j);
  }

  lemma StepKeepsLimits(f: Fleet, a: Action)
    ensures Step(f, a).maxAttempts == f.maxAttempts
  {
    hide BeginRun, FailRun, ReserveRun, LaunchRun, RecordRun, FinishRun, ArchiveFile, Startable, StateOf;
  }

  lemma {:induction false} LimitsAreConstant(f: Fleet, actions: seq<Action>)
    ensures Steps(f, actions).maxAttempts == f.maxAttempts
    decreases |actions|
  {
    hide Step;
    if actions != [] {
      var n := |actions| - 1;
      LimitsAreConstant(f, actions[..n]);
      StepKeepsLimits(Steps(f, actions[..n]), actions[n]);
    }
  }

  /** From any reachable fleet on, the durable attempt count never decreases, and a job
      that is terminal keeps its recorded state and is never launched again. */
  lemma RecordsOnlyMoveForward(maxAttempts: map<JobId, nat>, past: seq<Action>, future: seq<Action>, j: JobId)
    ensures var f := Steps(Fresh(maxAttempts), past);
            var g := Steps(f, future);
            && StateOf(f, j).attempt <= StateOf(g, j).attempt
            && (Terminal(StateOf(f, j).status) ==> StateOf(g, j) == StateOf(f, j) && LaunchCount(f, future, j) == 0)
  {
    var o := Fresh(maxAttempts);
    FreshIsSafe(maxAttempts);
    RunAdvances(o, past);
    var f := Steps(o, past);
    RunAdvances(f, future);
    hide Invariant;
    assert Forward(f, Steps(f, future), j);
    LaunchesAreCounted(f, future, j);
  }

  // ---------- job files ----------

  lemma MoveKeepsFiles(f: Fleet, moved: Path, path: Path, j: JobId)
    requires FileOf(f, path, j)
    ensures FileOf(MoveToArchive(f, moved), path, j)
  {}

  lemma FilesOutsideMoves(f: Fleet, a: Action)
    requires !a.Enqueue? && !a.ArchiveQueued? && !a.ArchiveRun?
    ensures Step(f, a).queue == f.queue && Step(f, a).archive == f.archive
  {
    hide BeginRun, FailRun, ReserveRun, LaunchRun, RecordRun, FinishRun, Startable, StateOf, CanLaunch;
  }

  lemma StepKeepsFiles(f: Fleet, a: Action, path: Path, j: JobId)
    requires FileOf(f, path, j)
    ensures FileOf(Step(f, a), path, j)
  {
    hide ArchiveFile, StateOf;
    if a.Enqueue? {
    } else if a.ArchiveQueued? {
      MoveKeepsFiles(f, a.path, path, j);
      hide MoveToArchive;
    } else if a.ArchiveRun? {
      if a.job in f.running { MoveKeepsFiles(f, f.running[a.job].path, path, j); }
      hide MoveToArchive;
    } else {
      hide Step;
      FilesOutsideMoves(f, a);
    }
  }

  lemma {:induction false} StepsKeepFiles(f: Fleet, actions: seq<Action>, path: Path, j: JobId)
    requires FileOf(f, path, j)
    ensures FileOf(Steps(f, actions), path, j)
    decreases |actions|
  {
    hide Step, FileOf;
    if actions != [] {
      var n := |actions| - 1;
      StepsKeepFiles(f, actions[..n], path, j);
      StepKeepsFiles(Steps(f, actions[..n]), actions[n], path, j);
    }
  }

  /** No job file is ever lost: a file that is queued or archived stays, naming its job, in the
      queue or in the archive, through re-submission too, and it is in the archive only once
      its job is terminal. */
  lemma JobFilesAreNeverLost(maxAttempts: map<JobId, nat>, past: seq<Action>, future: seq<Action>, path: Path, j: JobId)
    ensures var f := Steps(Fresh(maxAttempts), past);
            var g := Steps(f, future);
            (path in f.queue && f.queue[path] == j) || (path in f.archive && f.archive[path] == j) ==>
              || (path in g.queue && g.queue[path] == j)
              || (path in g.archive && g.archive[path] == j && Terminal(StateOf(g, j).status))
  {
    var o := Fresh(maxAttempts);
    var f := Steps(o, past);
    FreshIsSafe(maxAttempts);
    RunAdvances(o, past);
    assert FilesKnown(f);
    if FileOf(f, path, j) {
      RunAdvances(f, future);
      StepsKeepFiles(f, future, path, j);
      hide Steps, AttemptsBounded, RunsAgree, Forward;
      assert FilesKnown(Steps(f, future));
    }
  }
}
