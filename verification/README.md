# Verified model of the agent control plane

This project models the behaviour that carries the control plane: a bounded, in-memory,
event-sourced store; the dependency analysis and the coordination planner that read its
snapshots; the paged event timeline; the crash-restartable fleet supervisor; the runtime
hook and command monitor; and the dashboard page that refreshes its plan. Every statement
below is proved for all inputs, all runs or all reachable states. Check it with

    dafny verify --resource-limit 2000000 dfyconfig.toml

## How the model is organised

| part | files |
|---|---|
| sequences, orders, LRU caches, recency lists, histories | `Sequences`, `Orders`, `Lru`, `Recency`, `Histories` |
| entities and time | `Model` |
| cycle marking, remaining depth, critical paths | `DependencyGraph`, `MarkingCompleteness`, `MarkingExamples`, `RemainingDepth`, `GraphAnalysis`, `CriticalPath` |
| the store reducer | `StoreSpec`, `StoreInvariants`, `StoreCounters`, `StoreTasks`, `StoreDefinitions`, `StoreIdempotency`, `StoreReplay`, `StoreIsolation`, `TaskHistory`, `AgentHistory`, `AgentRecency`, `StoreLedger`, `StoreFigures`, `Store` |
| the timeline | `Cursor`, `Timeline` |
| the planner | `Analysis`, `FairShare`, `Scheduling`, `Coordination`, `PlanConservation`, `Planning`, `PlanProperties`, `PlanLists`, `PlanMeaning`, `StorePlan` |
| the supervisor | `Supervisor`, `SupervisorRuns`, `SupervisorHistory`, `FleetRunner` |
| the runtime monitor | `RuntimeSpec`, `RuntimeRuns`, `RuntimeMonitor` |
| the dashboard | `Dashboard` |

Code that changes state in place is a class or a method with loops (`Store.StoreInner`,
`GraphAnalysis.CycleFinder`, `GraphAnalysis.DepthTable`, `Scheduling.SelectAssignments`,
`Coordination.PlanFromAnalysis`, `FleetRunner.FleetRunner`, `RuntimeMonitor.RuntimeMonitor`,
`Dashboard.DashboardPage`); each method is proved equal to a step of a specification, and the
theorems are about whole runs of those steps. What a step leaves behind is stated on the history
alone: every field of a task, of an agent's record, of a job's state and of a runtime record is
the one that the last event concerning it reported, with the events defined by the run and not
by the state.

Results worth knowing:

- The remaining-depth recursion writes a placeholder into its memo before it recurses. It is
  right only because cycle marking, which does *not* mark every task on a cycle
  (`MarkingMissesSomeCycleTasks`, with the lookup in `SampleMarks`), marks one on every cycle.
  `PlaceholderIsNeverRead` quantifies over the placeholder's value.
- Marking is complete wherever no task has two different retained dependencies that both lead
  back to it (`MarkingIsCompleteWithOneWayBack`). No condition on the graph alone can be exact,
  because the order inside one dependency list decides whether a cycle task is marked
  (`MarkingDependsOnListOrder`).
- "Equal revision means equal retained events", on which paging rests, ends at the largest
  64-bit revision, where the counter saturates (`SaturatedRevisionHidesChanges`); such a state is
  reached (`LargestRevisionIsReached`), and below it the statement holds for every run.
- A page that ends with an event inside a leap second (section 5.7 of RFC 3339) hands out a
  cursor that the parser refuses. `ParseUndoesEncode` states the round trip with the exact
  condition, and `FetchAtPosition` carries it to requests.
- A failed fetch is not retried by the dashboard before its next poll. `FailureLosesExactly`
  says when that leaves a delivered revision unseen; `NoDeliveredNotificationIsLost` and
  `SettlingCatchesUp` say when it cannot.
- A resolved control command may be acknowledged again with the other verdict
  (`VerdictCanBeReversed`); `StatusIsTheLastVerdict` states what its status then is.

## Assumptions

- A locked section, the code between two awaits, a durable state write and a file move are each
  one atomic step. The supervisor is the only runner on its state directory.
- The content of a job does not change: a file of a given name always holds the same job. A
  finished job may be submitted again under its archived name, and the archived file is then
  replaced by an equal one; submitting changed content under that name, which would replace the
  archived content, is excluded.
- Instants are integers ordered like chrono's `DateTime<Utc>`; the range of seconds it can
  represent is a parameter. Confidence and progress are reals. Identifiers are ordered strings
  or numbers. Field validation of store events is the predicate `Model.ValidEvent`; the runtime
  monitor takes its verdict as a parameter.
- Generated command ids do not repeat. The clock, generated ids, the outcome of discovery, of
  workspace preparation and of provider processes, and the order of messages are parameters or
  nondeterministic steps.

## Model

| member | source | states |
|---|---|---|
| DependencyGraph.MarkedTasksLieOnMarkedCycles | src/metacognition/graph.rs:94-173 | every marked task is retained and lies on a directed dependency cycle all of whose tasks are marked |
| DependencyGraph.EveryCycleIsHit | src/metacognition/graph.rs:94-173 | every closed walk along dependencies passes a marked task |
| DependencyGraph.UnmarkedGraphIsAcyclic | src/metacognition/graph.rs:94-173 | the graph without the marked tasks has no cycle |
| DependencyGraph.NothingMarkedIffAcyclic | src/metacognition/graph.rs:94-173 | nothing is marked if and only if the dependency graph is acyclic |
| DependencyGraph.SearchNumbers | src/metacognition/graph.rs:94-173 | the search leaves a finishing number on every task under which an unmarked task finishes after each unmarked task it depends on |
| MarkingExamples.MarkingMissesSomeCycleTasks | src/metacognition/graph.rs:136-173 | with a -> [b, c], b -> [a], c -> [b] the task c lies on a cycle and stays unmarked |
| MarkingCompleteness.MarkingIsCompleteWithOneWayBack | src/metacognition/graph.rs:94-173 | where no task has two different retained dependencies that both lead back to it, the marked tasks are exactly the tasks on cycles |
| MarkingExamples.SampleMarks | src/metacognition/graph.rs:94-173 | three tasks of one agent of which one lies on a cycle and stays unmarked, and is marked once one dependency list is reversed |
| MarkingExamples.MarkingDependsOnListOrder | src/metacognition/graph.rs:136-173 | the same tasks and dependencies, listed in another order, are marked differently |
| RemainingDepth.RemainingDepthsAreLongestChains | src/metacognition/graph.rs:175-220 | for exactly the retained tasks the memoised depth is the length of the longest chain of unfinished tasks, whatever the placeholder, and never exceeds the number of the agent's tasks |
| RemainingDepth.PlaceholderIsNeverRead | src/metacognition/graph.rs:186-220 | any value written as placeholder gives the same depths |
| GraphAnalysis.CycleFinder.VisitCycle | src/metacognition/graph.rs:136-173 | the mutating three-colour visit takes states, stack and members to the specified search state, and terminates on the number of uncoloured tasks |
| GraphAnalysis.CycleFinder.MarkFrom | src/metacognition/graph.rs:146-153 | marks exactly the stack from the first occurrence of the repeated task to the top |
| GraphAnalysis.DependencyCycleMembers | src/metacognition/graph.rs:94-134 | the search from every task in key order yields the marked set |
| GraphAnalysis.DepthTable.DepthOf | src/metacognition/graph.rs:186-220 | the mutating recursion returns the specified depth and leaves the specified memo |
| GraphAnalysis.LongestRemainingChains | src/metacognition/graph.rs:175-184 | for exactly the retained tasks the computed depth is the longest chain of unfinished tasks |
| CriticalPath.CriticalPaths | src/metacognition/graph.rs:222-257 | a task is critical exactly when its goal has no marked task and no task of the goal has more remaining work; a goal's remaining depth is unknown exactly when one of its tasks is marked, else the greatest depth |
| CriticalPath.PickCritical | src/metacognition/graph.rs:239-254 | the same for one goal |
| Analysis.DependencyState | src/metacognition/graph.rs:75-92 | splits the dependencies into the unresolved and the missing ones, sorted |
| Store.PushWithEviction | src/store.rs:437-448 | the key becomes the most recent; a full cache gives up its least recently used entry and reports it |
| Store.TaskCounts | src/store.rs:730-750 | the counts are the numbers of the agent's retained tasks with a completed and with a failed outcome |
| Store.StoreInner.constructor | src/store.rs:242-262 | the empty store is the initial state |
| Store.StoreInner.EnsureAgent | src/store.rs:675-701 | an unknown agent is added with counters recomputed from the retained tasks, displacing the oldest agent when full |
| Store.StoreInner.InsertTask | src/store.rs:721-728 | inserting a task that displaces another uncounts the displaced one for its agent |
| Store.StoreInner.EnsureTask | src/store.rs:703-719 | an unknown task is inferred from the event |
| Store.StoreInner.ApplyEvent | src/store.rs:450-673 | the in-place update equals one application of the reducer and keeps the store's structure |
| Store.StoreInner.Ingest | src/store.rs:268-335 | validation, duplicate detection, application, recording and the acknowledgement are one step of the run |
| Store.StoreInner.TakeSnapshot | src/store.rs:347-435 | the snapshot lists the retained entries by recency, at most 250 events, with revision, cache statistics, counters and times |
| StoreInvariants.StepKeepsStructure | src/store.rs:268-345 | every step keeps recency lists distinct and within capacity and every entry under the key its fields spell |
| StoreCounters.CountersAreExactInEveryRun | src/store.rs:450-788 | in every reachable state each retained agent's counters equal the number of its retained tasks in the bucket, through stale events, corrections, reopening, evictions and return |
| StoreCounters.CountersCountOutcomes | src/store.rs:730-788 | after any run an agent's counters are the numbers of its retained tasks that succeeded at least in part, and that failed or were canceled |
| StoreCounters.CountersNeverSaturate | src/store.rs:721-788 | from every reachable state, every saturating operation of the next step moves the counters as unbounded integers would: uncounting a displaced task for its owner, and uncounting or counting the event's own task, with the agent admitted or the task inferred by that same step or not |
| StoreTasks.TasksKeepTheirShape | src/store.rs:525-666 | in every reachable state: blocked iff a blocker is present; outcome, completion time and summary together; a terminal status has the matching outcome; succeeded means full progress; created <= defined <= updated |
| StoreTasks.UpdatedAtNeverDecreases | src/store.rs:502-666 | a task that stays retained never moves back in time |
| StoreTasks.OutcomeMeansStandingCompletion | src/store.rs:525-666 | after any run a task holds an outcome exactly when some completion still stands |
| StoreTasks.ContestedMeansErrorAfterCompletion | src/store.rs:525-666 | after any run a task is blocked while holding an outcome exactly when an error was applied after a completion neither reopened nor completed again |
| TaskHistory.TasksFollowTheirHistory | src/store.rs:502-666 | after any run every field of a retained task is what the accepted events naming it since its insertion say, of those not outdated on arrival: progress, attempt, plan, start, status, blocker, next action, reflection, outcome, definition and times |
| AgentHistory.AgentsFollowTheirHistory | src/store.rs:450-673 | after any run every field of a retained agent's record is what the accepted events of the agent since its admission say: identity, session, registration, goal, status, active task, reflection and error |
| AgentRecency.RetainedAgentsAreTheMostRecent | src/store.rs:450-728 | the retained agents are the most recently touched ones, in order, where inserting a task also touches the owner of the task it displaces |
| StoreLedger.RetainedTasksAreTheMostRecent | src/store.rs:502-728 | the retained tasks are the most recently named ones, in order; an outdated event counts too |
| StoreLedger.LedgerFollowsHistory | src/store.rs:293-326 | the retained events, goals and lessons are the most recently accepted ones, in order, each as accepted last under its key |
| StoreLedger.LessonsCountObservations | src/store.rs:601-617 | a retained lesson counts how often it was accepted since its insertion, up to the word limit |
| StoreLedger.CountersCountTraffic | src/store.rs:268-345 | the traffic counters are the numbers of accepted, repeated and refused submissions, overall and by transport |
| StoreFigures.EvictionsBalanceAdmissions | src/store.rs:437-448 | for agents, goals, tasks, lessons and events, what is held and what was evicted together are what was admitted |
| StoreFigures.SnapshotShowsRecentEvents | src/store.rs:377-383 | a snapshot's events are the most recently accepted ones, newest first, at most 250 |
| StoreFigures.SnapshotFigures | src/store.rs:347-435 | a snapshot lists what the caches hold and reports lengths, capacities, evictions and pressure |
| StoreDefinitions.NewestDefinitionWins | src/store.rs:502-524 | a task that is never evicted shows the definition with the greatest timestamp accepted, whatever else interleaves |
| StoreDefinitions.ArrivalOrderDoesNotMatter | src/store.rs:502-524 | two runs that accepted the same definitions with distinct timestamps end with the same definition |
| StoreIdempotency.WindowHoldsRecentIds | src/store.rs:281-305 | after any run the window is exactly the most recently presented distinct valid ids, as many as fit, in recency order |
| StoreIdempotency.FlaggedIffRecentlyPresented | src/store.rs:281-291 | an event is flagged iff its id was presented before and fewer than the capacity of other ids came since |
| StoreIdempotency.LargerWindowFlagsMore | src/store.rs:281-305 | a larger window flags every duplicate that a smaller one flags |
| StoreIdempotency.RevisionCountsAcceptance | src/store.rs:293-326 | revision and accepted counter equal the number of accepted events up to the word limit, and below it window length plus evictions equals it too |
| StoreIdempotency.OnlyAcceptedStepsChangeProjections | src/store.rs:268-291 | duplicates and rejections leave every projection, the evictions and the revision unchanged |
| StoreIdempotency.EqualRevisionMeansEqualProjections | src/store.rs:293-326 | later in a run an equal revision below saturation means equal projections |
| StoreIdempotency.RevisionAfterRun | src/store.rs:293-326 | the revision moves by the number of accepted events, saturating |
| StoreIdempotency.SaturatedRevisionHidesChanges | src/store.rs:293-326 | at the largest revision an accepted event changes the events and not the revision |
| StoreIdempotency.LargestRevisionIsReached | src/store.rs:293-326 | some run reaches the largest revision, and its next event changes the retained events only |
| StoreReplay.ReplayIsIdempotent | src/store.rs:268-335 | with at most capacity distinct ids, all projections (contents and recency), evictions and revision equal those of the first occurrences alone |
| StoreIsolation.ApplyAlone | src/store.rs:450-719 | without eviction, restricting the store to an agent commutes with its own events and ignores the others' |
| StoreIsolation.AgentsAreIsolated | src/store.rs:450-719 | without eviction an agent's record, goals, tasks and lessons equal those that its own events alone yield |
| Cursor.ParseUndoesEncode | src/timeline.rs:54-99 | parsing an encoded cursor returns it if its nanoseconds are below 10^9 and is refused otherwise, negative seconds included |
| Cursor.EncodeIsInjective | src/timeline.rs:54-62 | different representable cursors have different texts |
| Cursor.ParsedCursorsRoundTrip | src/timeline.rs:64-99 | an accepted text yields a representable cursor that survives encoding and parsing |
| Timeline.SortedIsDescending | src/timeline.rs:127-134 | the timeline holds every event of the snapshot once, strictly descending by time and id |
| Timeline.PageAtPosition | src/timeline.rs:112-184 | a page at a position holds the next events, skipped + returned + remaining equals the total, and a cursor is handed out exactly while events remain |
| Timeline.PageOfAnyCursor | src/timeline.rs:112-184 | whatever cursor of the current revision is sent, the page holds the first events older than it, and skipped + returned + remaining equals the total |
| Timeline.FetchAtPosition | src/timeline.rs:64-184 | a request with the text of that cursor is served exactly outside leap seconds, with the next stretch of the timeline |
| Timeline.FollowFromPosition | src/timeline.rs:112-184 | following cursors from a position returns the timeline from there without gap or repetition as far as the limits reach |
| Timeline.FollowingCursorsCoversTheTimeline | src/timeline.rs:112-184 | with any limits from 1 to 100 and any duplicates or rejections between requests, the pages end and cover every event of the snapshot exactly once in order |
| Timeline.AcceptedEventStopsPaging | src/timeline.rs:118-125 | one accepted event between requests makes the next one fail with both revisions |
| FairShare.SelectionIsFairShare | src/coordination.rs:531-587 | a round k and a prefix of the agent order exist such that each agent gets min(k+1, cap, n) inside and min(k, cap, n) outside from the front of its queue; the total is min(maximum, sum of min(cap, n)) |
| FairShare.TrailingAgentIsExhausted | src/coordination.rs:531-587 | an agent trailing another by two or more has no candidate left |
| FairShare.ServedAgentsCount | src/coordination.rs:531-587 | the number of served agents is min(maximum, agents with candidates) |
| Scheduling.BestCandidateIsSelectedFirst | src/coordination.rs:314-323 | the globally best candidate is selected first |
| Orders.StrLeIsLexicographic | src/coordination.rs:668-691 | names compare lexicographically: a prefix first, otherwise by the first difference |
| Scheduling.AgentsAreRanked | src/coordination.rs:543-556 | agents are visited by the priority of their best candidate, ties by name |
| Scheduling.FewerMeansOutranked | src/coordination.rs:531-587 | an agent below the cap that gets fewer candidates than another although it has more is outranked by it; so no unserved agent outranks a served one |
| Scheduling.CandidatesAreRanked | src/coordination.rs:668-675 | candidates are considered by priority, ties by agent, task and id |
| Scheduling.SelectionPartitionsCandidates | src/coordination.rs:531-587 | selected and suppressed candidates together are the candidates, nothing lost or duplicated |
| Scheduling.SuppressedIsSorted | src/coordination.rs:581-586 | what the limits suppress is listed in assignment order |
| Scheduling.GroupByAgent | src/coordination.rs:536-542 | each agent's queue holds its candidates in order |
| Scheduling.RunRound | src/coordination.rs:560-576 | one round takes the next candidate of every agent below its cap until the maximum |
| Scheduling.SelectAssignments | src/coordination.rs:531-587 | the queue-draining loops return the rounds cut at the maximum, and the rest sorted |
| Coordination.PlanFromAnalysis | src/coordination.rs:236-376 | the classification loop, the scheduler, the sorts and the cuts produce the specified plan |
| PlanConservation.DraftAccountsForEveryTask | src/coordination.rs:252-334 | every analysed task lands in exactly one of assignments, interventions and holds |
| PlanConservation.PlanConservesTasks | src/coordination.rs:314-376 | total = assignments + interventions shown and omitted + holds shown and omitted; each list respects its limit |
| PlanProperties.PlanIgnoresSnapshotOrder | src/coordination.rs:218-392 | the plan is the same for any rearrangement of the snapshot's tasks, agents, goals and events |
| PlanProperties.AssignmentsAreDependencySafe | src/coordination.rs:252-312 | every dependency of an assigned task is a retained succeeded task of the same agent, and the agent is not offline |
| PlanProperties.HeldTasksMissNoDependency | src/coordination.rs:252-312 | no held task has a missing dependency |
| PlanProperties.ReconcilesExactlyMismatches | src/coordination.rs:394-435 | a task is sent to reconciliation exactly when status, outcome and progress contradict each other |
| PlanMeaning.AssignmentsSayWhatToDo | src/coordination.rs:437-505 | every assignment, selected or suppressed, has the action that its task's own state and the policy call for, one if-and-only-if per action, with the priority, the cited events and the cited diagnostics that follow |
| PlanMeaning.InterventionsSayWhatIsWrong | src/coordination.rs:394-435 | every intervention is of the kind that the first applicable defect of its task calls for, one if-and-only-if per kind, with its priority |
| PlanMeaning.HoldsSayWhy | src/coordination.rs:252-376 | every hold gives the one reason that keeps its task, one if-and-only-if per reason, with exactly the unfinished dependencies |
| PlanMeaning.EveryTaskHasItsPlace | src/coordination.rs:252-312 | a retained task is sent to intervention exactly if it is contradictory, tangled or without its goal, and competes for assignment exactly if nothing keeps it and something is to be done |
| PlanLists.InterventionsAreRanked | src/coordination.rs:677-684 | interventions are listed by priority, ties by agent and task |
| PlanLists.HoldsAreOrdered | src/coordination.rs:686-691 | holds are listed by agent and task |
| PlanLists.PlanShowsTheFirst | src/coordination.rs:314-376 | the plan shows the selected assignments and the first interventions and holds |
| PlanLists.SourcesAreTheNewest | src/metacognition/graph.rs:45-73 | a task's source events are the twelve newest retained ones about it, newest first |
| PlanLists.AboutIsNamed | src/metacognition/graph.rs:45-62 | the events about a task are those that name it in the store, and lessons that cite it |
| PlanMeaning.AgeMeans | src/metacognition/graph.rs:5-7 | an age is the whole seconds elapsed, zero for an update in the future |
| StorePlan.SnapshotsAreUnique | src/store.rs:347-387 | a snapshot of any well-formed store has unique keys, so the plan's order independence applies |
| StorePlan.LookupIsTheCache | src/metacognition/analysis.rs:12-21 | the planner's task index of a snapshot is the store's task cache |
| StorePlan.ReconciliationMeansErrorAfterCompletion | src/metacognition/analysis.rs:229-251 | over every run, reconciliation is asked for exactly when an error followed a completion neither reopened nor completed again |
| Supervisor.StepAdvances | scripts/fleet/supervisor.py:66-318 | every step keeps launches <= recorded attempts <= limit, agreement of live runs with durable state, and never moves a job's record back |
| SupervisorRuns.LaunchesNeverExceedAttempts | scripts/fleet/supervisor.py:155-211 | over all polls, shutdowns, crashes and restarts, the launches counted on the history never exceed the recorded attempts nor max_attempts, and no more runs are live than the current process allows, at most 15 |
| SupervisorRuns.RecordsOnlyMoveForward | scripts/fleet/supervisor.py:66-211 | from any reachable fleet the attempt count never decreases, and a terminal job, submitted again or not, keeps its state and is never launched again |
| SupervisorRuns.LaunchesAreCounted | scripts/fleet/supervisor.py:207-211 | the launch counter of the state equals the launching steps of the history |
| SupervisorRuns.JobFilesAreNeverLost | scripts/fleet/supervisor.py:314-318 | a job file stays in the queue or the archive, naming its job, through re-submission too, and is archived only when its job is terminal |
| SupervisorHistory.StatusTellsTheHistory | scripts/fleet/supervisor.py:155-312 | after any run, however often it crashed, a job's durable status tells exactly what was recorded last about it, one if-and-only-if per status, and its attempt count is the number of attempts recorded |
| SupervisorHistory.SucceededMeansDelivered | scripts/fleet/supervisor.py:247-270 | a job is succeeded exactly if one of its runs was found delivered, then and ever after |
| SupervisorHistory.PollingStartsReconciled | scripts/fleet/supervisor.py:93-101 | a process polls only when no job is left recorded as starting, running or stopping |
| SupervisorHistory.StartedRunsAreOpen | scripts/fleet/supervisor.py:115-135 | a run is started only from a queue file of an unfinished job, a paused one only where resuming is enabled, never while stopping or beyond the limit |
| FleetRunner.FleetRunner.ReconcileInterruptedStates | scripts/fleet/supervisor.py:93-101 | exactly the interrupted jobs become paused with their attempt count, by steps of the machine |
| FleetRunner.FleetRunner.LoadJobs | scripts/fleet/supervisor.py:103-123 | files of terminal jobs are archived; exactly the eligible rest is offered, lower priority numbers first, ties by id |
| FleetRunner.FleetRunner.StartJobs | scripts/fleet/supervisor.py:128-135 | jobs are considered in order until the table is full or the runner stops; each considered job runs or is blocked and nothing else starts |
| FleetRunner.FleetRunner.Poll | scripts/fleet/supervisor.py:125-139 | one turn starts only open, unblocked jobs and with room left leaves no open job waiting |
| FleetRunner.FleetRunner.RunOne | scripts/fleet/supervisor.py:155-312 | an uninterrupted run records its attempt and the status that tells how it ended, launches exactly once unless exhausted or unprepared, and removes the file exactly when terminal |
| RuntimeRuns.HookWindowIsExact | src/runtime/monitor.rs:266-275 | after any run the retained hooks are the last hook_capacity accepted ones, hook_ids lists their ids in order, all distinct |
| RuntimeRuns.DuplicateIffRecentlyAccepted | src/runtime/monitor.rs:192-194 | a hook is refused as duplicate iff its id is among the last hook_capacity accepted ones |
| RuntimeRuns.AgentRecordsAreExact | src/runtime/monitor.rs:196-264 | after any run an agent is known iff a hook of it was accepted; token totals are saturated sums, capability is the disjunction, time and identity those of the newest hook; status, tool, session, process, activity and readings are the last ones reported by a hook not older than those before it |
| RuntimeRuns.ArrivalOrderDoesNotMatter | src/runtime/monitor.rs:215-228 | two runs that accepted the same hooks of an agent in any order agree on totals, capability and last time, and on identity if the instants differ |
| RuntimeRuns.RetainedCommandsAreTheNewest | src/runtime/monitor.rs:291-304 | the retained commands are the last command_capacity issued ones in order |
| RuntimeRuns.CommandsStayBacked | src/runtime/monitor.rs:278-345 | every retained command belongs to an agent that is control-capable |
| RuntimeRuns.StatusIsTheLastVerdict | src/runtime/monitor.rs:323-345 | a retained command shows its last accepted acknowledgement: verdict, time and message; pending if none |
| RuntimeRuns.ResolvedStaysResolved | src/runtime/monitor.rs:323-345 | a resolved command is never pending again |
| RuntimeRuns.EnqueueNeedsCapability | src/runtime/monitor.rs:284-290 | a command is refused for want of capability exactly if no accepted hook of the agent declared it |
| RuntimeRuns.AcknowledgementsNeedTheCommand | src/runtime/monitor.rs:329-336 | an acknowledgement is refused as unknown exactly if its command is not among the last issued ones, as mismatched exactly if it belongs to another agent |
| RuntimeRuns.VerdictCanBeReversed | src/runtime/monitor.rs:323-345 | a run in which an acknowledged command is acknowledged again and becomes rejected |
| RuntimeMonitor.RuntimeMonitor.IngestHook | src/runtime/monitor.rs:189-276 | the branchwise update and the trimming loops are one step, with its reply |
| RuntimeMonitor.RuntimeMonitor.EnqueueCommand | src/runtime/monitor.rs:278-305 | refused unless the agent is capable; otherwise issued as pending and the oldest trimmed |
| RuntimeMonitor.RuntimeMonitor.PendingCommands | src/runtime/monitor.rs:307-321 | the agent's retained pending commands, newest first |
| RuntimeMonitor.RuntimeMonitor.AcknowledgeCommand | src/runtime/monitor.rs:323-345 | not found, wrong agent, or exactly that command resolved |
| RuntimeMonitor.Trim | src/runtime/monitor.rs:269-274 | keeps the newest elements up to the capacity |
| Dashboard.NoDeliveredNotificationIsLost | scripts/coordination-dashboard.js:48-80 | under every interleaving at most one fetch is in flight, and an idle page whose last fetch did not fail has every revision it was told of and, after a resynchronisation, a login, a poll or a click, all that the server had by then |
| Dashboard.SettlingCatchesUp | scripts/coordination-dashboard.js:48-80 | from every reachable page successful fetches make it idle and, if anything was pending, up to date |
| Dashboard.PlanNeverGoesBack | scripts/coordination-dashboard.js:48-72 | the displayed revision never decreases |
| Dashboard.FailureLosesExactly | scripts/coordination-dashboard.js:63-71 | a failing fetch leaves the page idle and behind exactly when it was behind with neither timer nor coalesced refresh pending |
| Dashboard.FailedFetchLosesNotification | scripts/coordination-dashboard.js:63-71 | a run that ends idle and behind after one failed fetch |
| Dashboard.DashboardPage.StartRefresh | scripts/coordination-dashboard.js:48-58 | starts a fetch, or remembers that one is needed |
| Dashboard.DashboardPage.OnRequest | scripts/coordination-dashboard.js:198-210 | a poll, a click or a login starts or remembers a refresh, and the page owes what the server has |
| Dashboard.DashboardPage.FinishRefresh | scripts/coordination-dashboard.js:59-72 | stores the plan on success, clears the flag, schedules a remembered refresh |
| Dashboard.DashboardPage.OnTimer | scripts/coordination-dashboard.js:76-79 | the timer clears itself and refreshes, or marks the page dirty while a fetch runs |
| Dashboard.DashboardPage.OnMessage | scripts/coordination-dashboard.js:164-188 | which messages refresh, schedule or do nothing |

## Left out

- HTTP, TCP, UDP and WebSocket plumbing, authentication, the embedded client, OpenAPI and the pages: input, output and presentation.
- Message, rationale and recommended-action texts: they do not influence the control flow.
- Field-length validation in `src/model.rs` and `src/runtime/model.rs`, and job validation in `load_jobs` with its move to `archive/invalid`: thin checks.
- The order of the diagnostics list across tasks, goal and fleet summaries, means and ratios: figures that no decision depends on, and rounding is not modelled.
- Floating-point rounding and non-finite thresholds: progress, confidence and thresholds are reals.
- The leap-second adjustment of chrono's duration subtraction in ages: ages are differences of nanosecond counts.
- Broadcasting to subscribers and update-channel lag: no statement depends on them. The plain additions on the per-transport counters are unbounded.
- Store caches nested per agent in the analysis are one map keyed by agent and task: same contents, no separate map per agent.
- `RuntimeMonitor` snapshots, process sampling and CPU figures: ownership of a shared process depends on hash-map order.
- `ProviderCircuit` timing, signals, logs, git and `gh` calls: the circuit is a set of blocked jobs, the rest nondeterministic outcomes; a provider process that survives a crash of the runner is not followed.
- `missing_delivery_requirements` in `scripts/fleet/workspace.py`: its verdict is the parameter between the outcomes Delivered and Incomplete; which requirement is missing does not influence the run.
- The gap between `authenticated` and the subscription in `src/http.rs`, and a server restart that resets the revision: the dashboard statements are about notifications that are delivered by one server process.
- A dashboard fetch whose plan is stored but whose rendering throws counts as a success: the plan's revision is what the statements are about.
- FleetRunner.FleetRunner.RunOne: states an uninterrupted run only; interruptions at any point are covered by the step machine.
- Submitting a job again with changed content: job content is immutable, so the archived file that `archive_job` would overwrite with other content is not followed.
