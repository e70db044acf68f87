/** The critical-path selection of `src/metacognition/graph.rs` as it runs: group the tasks
    by goal, then pick the deepest tasks of every goal without a marked task. */
module CriticalPath {
  import opened Model
  import opened Orders
  import opened DependencyGraph
  import opened RemainingDepth
  import opened Analysis

  function GoalOf(l: TaskLookup, k: TaskKey): Option<ScopedId>
    requires k in l
  {
    if l[k].task.goalId.Some? then Some(ScopedId(k.agent, l[k].task.goalId.value)) else None
  }

  /** The lookup holds exactly the given tasks. */
  ghost predicate Indexes(l: TaskLookup, tasks: seq<TaskState>) {
    && (forall t :: t in tasks ==> KeyOf(t) in l && l[KeyOf(t)] == t)
    && (forall k :: k in l ==> l[k] in tasks && KeyOf(l[k]) == k)
  }

  type GoalGroups = map<ScopedId, seq<TaskKey>>

  /** `grouped` lists, for every goal, the tasks of `done` that belong to it. */
  ghost predicate GroupsGoals(l: TaskLookup, grouped: GoalGroups, done: set<TaskKey>)
    requires done <= l.Keys
  {
    && (forall g :: g in grouped ==> grouped[g] != [])
    && (forall g, k :: g in grouped && k in grouped[g] ==> k in done && GoalOf(l, k) == Some(g))
    && (forall k :: k in done && GoalOf(l, k).Some? ==> GoalOf(l, k).value in grouped && k in grouped[GoalOf(l, k).value])
  }

  method GroupByGoal(tasks: seq<TaskState>, ghost l: TaskLookup) returns (grouped: GoalGroups)
    requires Indexes(l, tasks)
    ensures GroupsGoals(l, grouped, l.Keys)
  {
    grouped := map[];
    ghost var done: set<TaskKey> := {};
    var i := 0;
    while i < |tasks|
      invariant 0 <= i <= |tasks|
      invariant done <= l.Keys && forall j :: 0 <= j < i ==> KeyOf(tasks[j]) in done
      invariant GroupsGoals(l, grouped, done)
    {
      var task := tasks[i];
      assert task in tasks && l[KeyOf(task)] == task;
      if task.task.goalId.Some? {
        var goal := ScopedId(task.agentId, task.task.goalId.value);
        AddToGoal(l, grouped, done, goal, KeyOf(task));
        grouped := grouped[goal := (if goal in grouped then grouped[goal] else []) + [KeyOf(task)]];
      }
      done := done + {KeyOf(task)};
      i := i + 1;
    }
    assert done == l.Keys by {
      forall k | k in l ensures k in done {
        var j :| 0 <= j < |tasks| && tasks[j] == l[k];
        assert KeyOf(tasks[j]) == k;
      }
    }
  }

  lemma AddToGoal(l: TaskLookup, grouped: GoalGroups, done: set<TaskKey>, g: ScopedId, k: TaskKey)
    requires done <= l.Keys && k in l && GoalOf(l, k) == Some(g) && GroupsGoals(l, grouped, done)
    ensures GroupsGoals(l, grouped[g := (if g in grouped then grouped[g] else []) + [k]], done + {k})
  {}

  predicate AnyMarked(ks: seq<TaskKey>, members: set<TaskKey>) {
    exists k :: k in ks && k in members
  }

  function Deepest(ks: seq<TaskKey>, depths: map<TaskKey, nat>): (m: nat)
    requires forall k :: k in ks ==> k in depths
    ensures forall k :: k in ks ==> depths[k] <= m
    ensures m > 0 ==> exists k :: k in ks && depths[k] == m
  {
    if ks == [] then 0 else Max(depths[ks[0]], Deepest(ks[1..], depths))
  }

  /** Within a goal, the critical tasks are those of greatest depth, if that is positive
      and no task of the goal is marked. */
  lemma CriticalWithinGoal(l: TaskLookup, members: set<TaskKey>, depths: map<TaskKey, nat>, grouped: GoalGroups,
                           g: ScopedId, k: TaskKey)
    requires GroupsGoals(l, grouped, l.Keys) && l.Keys <= depths.Keys && g in grouped && k in grouped[g]
    ensures k in l && forall j :: j in grouped[g] ==> j in depths
    ensures IsCritical(l, members, depths, k) <==>
              !AnyMarked(grouped[g], members) && depths[k] > 0 && depths[k] == Deepest(grouped[g], depths)
  {
    var ks := grouped[g];
    assert GoalOf(l, k) == Some(g);
    forall j | j in l ensures SameGoal(l, k, j) <==> j in ks {
      if j in ks { assert GoalOf(l, j) == Some(g); }
      if SameGoal(l, k, j) { assert GoalOf(l, j) == Some(g); }
    }
  }

  ghost predicate RemainingIs(ks: seq<TaskKey>, members: set<TaskKey>, depths: map<TaskKey, nat>, r: Option<nat>) {
    if AnyMarked(ks, members) then r == None
    else (forall k :: k in ks ==> k in depths) && r == Some(Deepest(ks, depths))
  }

  /** One goal: its critical tasks and its remaining depth. */
  method PickCritical(ghost l: TaskLookup, members: set<TaskKey>, depths: map<TaskKey, nat>, ghost grouped: GoalGroups,
                      ghost goal: ScopedId, ks: seq<TaskKey>)
      returns (picked: set<TaskKey>, remaining: Option<nat>)
    requires GroupsGoals(l, grouped, l.Keys) && l.Keys <= depths.Keys && goal in grouped && ks == grouped[goal]
    ensures forall k :: k in picked <==> k in l && GoalOf(l, k) == Some(goal) && IsCritical(l, members, depths, k)
    ensures RemainingIs(ks, members, depths, remaining)
  {
    forall k | k in ks
      ensures k in l && k in depths && GoalOf(l, k) == Some(goal)
      ensures IsCritical(l, members, depths, k) <==>
                !AnyMarked(ks, members) && depths[k] > 0 && depths[k] == Deepest(ks, depths)
    {
      CriticalWithinGoal(l, members, depths, grouped, goal, k);
    }
    assert forall k :: k in l && GoalOf(l, k) == Some(goal) ==> k in ks;
    hide IsCritical, AnyMarked, GroupsGoals, GoalOf, Deepest;
    picked := {};
    if AnyMarked(ks, members) {
      remaining := None;
    } else {
      var deepest := Deepest(ks, depths);
      picked := set k | k in ks && deepest > 0 && depths[k] == deepest;
      remaining := Some(deepest);
    }
  }

  /** Critical tasks exactly as specified; a goal's remaining depth is unknown exactly when
      one of its tasks is marked, and otherwise the greatest depth among its tasks. */
  method CriticalPaths(tasks: seq<TaskState>, ghost l: TaskLookup, members: set<TaskKey>, depths: map<TaskKey, nat>)
      returns (critical: set<TaskKey>, remaining: map<ScopedId, Option<nat>>, ghost grouped': GoalGroups)
    requires Indexes(l, tasks) && l.Keys <= depths.Keys
    ensures critical == CriticalTasks(l, members, depths)
    ensures GroupsGoals(l, grouped', l.Keys) && remaining.Keys == grouped'.Keys
    ensures forall g :: g in remaining ==> RemainingIs(grouped'[g], members, depths, remaining[g])
  {
    var grouped := GroupByGoal(tasks, l);
    grouped' := grouped;
    critical, remaining := {}, map[];
    var todo := grouped.Keys;
    hide IsCritical, RemainingIs, Indexes;
    while todo != {}
      invariant todo <= grouped.Keys && remaining.Keys == grouped.Keys - todo
      invariant forall k :: k in critical <==>
                  k in l && GoalOf(l, k).Some? && GoalOf(l, k).value in grouped.Keys - todo && IsCritical(l, members, depths, k)
      invariant forall g :: g in remaining ==> RemainingIs(grouped[g], members, depths, remaining[g])
      decreases |todo|
    {
      hide GroupsGoals;
      var goal :| goal in todo;
      var picked, depth := PickCritical(l, members, depths, grouped, goal, grouped[goal]);
      critical := critical + picked;
      remaining := remaining[goal := depth];
      todo := todo - {goal};
    }
    AllPicked(l, members, depths, grouped, critical);
  }

  lemma AllPicked(l: TaskLookup, members: set<TaskKey>, depths: map<TaskKey, nat>, grouped: GoalGroups, critical: set<TaskKey>)
    requires GroupsGoals(l, grouped, l.Keys) && l.Keys <= depths.Keys
    requires forall k :: k in critical <==>
               k in l && GoalOf(l, k).Some? && GoalOf(l, k).value in grouped.Keys && IsCritical(l, members, depths, k)
    ensures critical == CriticalTasks(l, members, depths)
  {}
}
