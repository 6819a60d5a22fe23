/**
 When a workflow run succeeds (src/ai/langgraph_workflow.py): the goals that a run completes in which the
 model answers every call and the critic approves everything.
 */
module WorkflowCompletion {
  import opened Options
  import opened WorkflowStates
  import opened WorkflowSafety
  import opened WorkflowFates
  import Graphs = DependencyGraphs

  // ---------------------------------------------------------------- the tasks by their ids

  /** The ids of the tasks with this status. */
  function IdsWith(tasks: seq<Task>, status: TaskStatus): (r: set<TaskId>)
    ensures forall k :: 0 <= k < |tasks| && tasks[k].status == status ==> tasks[k].id in r
  {
    set k | 0 <= k < |tasks| && tasks[k].status == status :: tasks[k].id
  }

  function DependenciesOf(tasks: seq<Task>, t: TaskId): seq<TaskId> {
    match Find(tasks, t)
    case Some(k) => tasks[k].dependencies
    case None => []
  }

  /** The pending tasks, and what each depends on. */
  function PendingGraph(tasks: seq<Task>): Graphs.Graph {
    map t | t in IdsWith(tasks, Pending) :: DependenciesOf(tasks, t)
  }

  /** A pending task depends only on tasks of the goal that are pending or completed. */
  ghost predicate Closed(tasks: seq<Task>) {
    forall t, d {:trigger d in DependenciesOf(tasks, t)} ::
      t in IdsWith(tasks, Pending) && d in DependenciesOf(tasks, t) ==>
        d in IdsWith(tasks, Pending) || d in CompletedIds(tasks)
  }

  /** No task has failed or is blocked, and the pending ones can be put in order. */
  ghost predicate Completable(tasks: seq<Task>) {
    && (forall k :: 0 <= k < |tasks| ==> tasks[k].status in {Pending, Completed, Skipped})
    && Closed(tasks) && !Graphs.Cyclic(PendingGraph(tasks))
  }

  /** Pending tasks, each once, and after all of its dependencies that are not yet completed. */
  ghost predicate InOrder(tasks: seq<Task>, order: seq<TaskId>) {
    && Graphs.NoDuplicates(order)
    && (forall i :: 0 <= i < |order| ==> order[i] in IdsWith(tasks, Pending))
    && (forall i, d {:trigger d in DependenciesOf(tasks, order[i])} ::
          0 <= i < |order| && d in DependenciesOf(tasks, order[i]) ==> d in CompletedIds(tasks) || d in order[..i])
  }

  /** Ids that the source's truth test accepts, no two alike, and no task under way. */
  ghost predicate AtRest(tasks: seq<Task>) {
    && DistinctIds(tasks)
    && forall k :: 0 <= k < |tasks| ==> tasks[k].id != "" && tasks[k].status != Ready && tasks[k].status != Running
  }

  // ---------------------------------------------------------------- what is executed, and what is left

  function PendingCount(tasks: seq<Task>): nat {
    if tasks == [] then 0 else PendingCount(tasks[1..]) + if tasks[0].status == Pending then 1 else 0
  }

  lemma {:induction false} OneLessPending(tasks: seq<Task>, k: nat)
    requires k < |tasks| && tasks[k].status == Pending
    ensures PendingCount(SetStatus(tasks, k, Completed)) == PendingCount(tasks) - 1
  {
    var after := SetStatus(tasks, k, Completed);
    if k == 0 {
      assert after[1..] == tasks[1..];
    } else {
      assert after[1..] == SetStatus(tasks[1..], k - 1, Completed);
      OneLessPending(tasks[1..], k - 1);
    }
  }

  /** The order in which the coordinator picks tasks that are then completed: the first ready one, every time. */
  function Picked(tasks: seq<Task>): seq<TaskId>
    decreases PendingCount(tasks)
  {
    match FirstReady(tasks, CompletedIds(tasks))
    case None => []
    case Some(k) => OneLessPending(tasks, k); [tasks[k].id] + Picked(SetStatus(tasks, k, Completed))
  }

  function Worked(tasks: seq<Task>): seq<Task>
    decreases PendingCount(tasks)
  {
    match FirstReady(tasks, CompletedIds(tasks))
    case None => tasks
    case Some(k) => OneLessPending(tasks, k); Worked(SetStatus(tasks, k, Completed))
  }

  lemma PendingGraphAt(tasks: seq<Task>, k: nat)
    requires DistinctIds(tasks) && k < |tasks|
    ensures DependenciesOf(tasks, tasks[k].id) == tasks[k].dependencies
    ensures tasks[k].id in IdsWith(tasks, Pending) <==> tasks[k].status == Pending
    ensures tasks[k].id in CompletedIds(tasks) <==> tasks[k].status == Completed
  {
    FindDistinct(tasks, k);
  }

  /** Completing a pending task moves its id and nothing else. */
  lemma CompletingOne(tasks: seq<Task>, k: nat)
    requires AtRest(tasks) && k < |tasks| && tasks[k].status == Pending
    ensures var after := SetStatus(tasks, k, Completed);
            && AtRest(after)
            && CompletedIds(after) == CompletedIds(tasks) + {tasks[k].id}
            && IdsWith(after, Pending) == IdsWith(tasks, Pending) - {tasks[k].id}
            && forall t :: DependenciesOf(after, t) == DependenciesOf(tasks, t)
  {
    var after := SetStatus(tasks, k, Completed);
    forall t ensures t in CompletedIds(after) <==> t in CompletedIds(tasks) || t == tasks[k].id {
      if t in CompletedIds(tasks) {
        var j :| 0 <= j < |tasks| && tasks[j].status == Completed && tasks[j].id == t;
        assert after[j].status == Completed && after[j].id == t;
      }
      assert after[k].status == Completed && after[k].id == tasks[k].id;
    }
    forall t ensures t in IdsWith(after, Pending) <==> t in IdsWith(tasks, Pending) && t != tasks[k].id {
      if t in IdsWith(tasks, Pending) && t != tasks[k].id {
        var j :| 0 <= j < |tasks| && tasks[j].status == Pending && tasks[j].id == t;
        assert after[j].status == Pending && after[j].id == t;
      }
    }
    forall t ensures DependenciesOf(after, t) == DependenciesOf(tasks, t) {
      FindAgain(tasks, after, t);
    }
  }

  /** What is picked is in order, and leaves exactly the other tasks, of which none can start. */
  lemma {:induction false} PickedIsInOrder(tasks: seq<Task>)
    requires AtRest(tasks)
    ensures InOrder(tasks, Picked(tasks)) && AtRest(Worked(tasks))
    ensures CompletedIds(Worked(tasks)) == CompletedIds(tasks) + Graphs.Elements(Picked(tasks))
    ensures IdsWith(Worked(tasks), Pending) == IdsWith(tasks, Pending) - Graphs.Elements(Picked(tasks))
    ensures forall t :: DependenciesOf(Worked(tasks), t) == DependenciesOf(tasks, t)
    ensures FirstReady(Worked(tasks), CompletedIds(Worked(tasks))).None?
    decreases PendingCount(tasks)
  {
    match FirstReady(tasks, CompletedIds(tasks))
    case None =>
    case Some(k) =>
      var after := SetStatus(tasks, k, Completed);
      OneLessPending(tasks, k);
      CompletingOne(tasks, k);
      PickedIsInOrder(after);
      PickFirst(tasks, k, Picked(after));
  }

  lemma PickFirst(tasks: seq<Task>, k: nat, rest: seq<TaskId>)
    requires AtRest(tasks) && k < |tasks| && CanStart(tasks[k], CompletedIds(tasks))
    requires InOrder(SetStatus(tasks, k, Completed), rest)
    ensures InOrder(tasks, [tasks[k].id] + rest)
    ensures Graphs.Elements([tasks[k].id] + rest) == {tasks[k].id} + Graphs.Elements(rest)
  {
    var t, order := tasks[k].id, [tasks[k].id] + rest;
    CompletingOne(tasks, k);
    PendingGraphAt(tasks, k);
    forall i, d | 0 <= i < |order| && d in DependenciesOf(tasks, order[i])
      ensures d in CompletedIds(tasks) || d in order[..i]
    {
      if i > 0 {
        assert order[i] == rest[i - 1] && order[..i] == [t] + rest[..i - 1];
        assert d in DependenciesOf(SetStatus(tasks, k, Completed), rest[i - 1]);
      }
    }
  }

  /** Only pending tasks change, and they become completed. */
  lemma {:induction false} OnlyPendingChange(tasks: seq<Task>, k: nat)
    requires k < |tasks|
    ensures |Worked(tasks)| == |tasks|
    ensures Worked(tasks)[k] == tasks[k]
            || (tasks[k].status == Pending && Worked(tasks)[k] == tasks[k].(status := Completed))
    decreases PendingCount(tasks)
  {
    match FirstReady(tasks, CompletedIds(tasks))
    case None =>
    case Some(j) =>
      OneLessPending(tasks, j);
      OnlyPendingChange(SetStatus(tasks, j, Completed), k);
  }

  lemma OrderIsTopological(tasks: seq<Task>, order: seq<TaskId>)
    requires AtRest(tasks) && InOrder(tasks, order)
    ensures Graphs.Topological(PendingGraph(tasks), order)
  {
    var g := PendingGraph(tasks);
    forall i, d | 0 <= i < |order| && Graphs.Edge(g, d, order[i]) ensures d in order[..i] {
      var j :| 0 <= j < |tasks| && tasks[j].status == Pending && tasks[j].id == d;
      PendingGraphAt(tasks, j);
    }
  }

  /** Whatever is left waits for something else that is left. */
  lemma LeftIsStuck(tasks: seq<Task>)
    requires AtRest(tasks) && Closed(tasks)
    ensures Graphs.Stuck(PendingGraph(tasks), IdsWith(Worked(tasks), Pending))
  {
    PickedIsInOrder(tasks);
    var after, g := Worked(tasks), PendingGraph(tasks);
    var left := IdsWith(after, Pending);
    forall t | t in left ensures Graphs.HasPredecessorIn(g, left, t) {
      var k :| 0 <= k < |after| && after[k].status == Pending && after[k].id == t;
      PendingGraphAt(after, k);
      var d :| d in after[k].dependencies && d !in CompletedIds(after);
      assert d in DependenciesOf(tasks, t);
      assert d in left && Graphs.Edge(g, d, t);
    }
  }

  /** The picking completes the goal exactly if nothing has failed and the pending tasks are closed and acyclic. */
  lemma WorkedIsCompleteIff(tasks: seq<Task>)
    requires AtRest(tasks)
    ensures IsComplete(Worked(tasks)) <==> Completable(tasks)
    ensures Completable(tasks) ==> Graphs.Elements(Picked(tasks)) == IdsWith(tasks, Pending)
  {
    if IsComplete(Worked(tasks)) {
      CompleteIsCompletable(tasks);
    }
    if Completable(tasks) {
      AllIsPicked(tasks);
      WorkedLength(tasks);
      forall k | 0 <= k < |Worked(tasks)| ensures Worked(tasks)[k].status in {Completed, Skipped} {
        OnlyPendingChange(tasks, k);
        assert Worked(tasks)[k].id !in IdsWith(Worked(tasks), Pending);
      }
    }
  }

  lemma WorkedLength(tasks: seq<Task>)
    ensures |Worked(tasks)| == |tasks|
  {
    if tasks != [] {
      OnlyPendingChange(tasks, 0);
    }
  }

  lemma AllIsPicked(tasks: seq<Task>)
    requires AtRest(tasks) && Completable(tasks)
    ensures IdsWith(Worked(tasks), Pending) == {} && Graphs.Elements(Picked(tasks)) == IdsWith(tasks, Pending)
  {
    PickedIsInOrder(tasks);
    var left, picked := IdsWith(Worked(tasks), Pending), Graphs.Elements(Picked(tasks));
    LeftIsStuck(tasks);
    if left != {} {
      Graphs.StuckSetHasCycle(PendingGraph(tasks), left);
    }
    forall t | t in IdsWith(tasks, Pending) ensures t in picked {
      assert t !in picked ==> t in left;
    }
  }

  lemma CompleteIsCompletable(tasks: seq<Task>)
    requires AtRest(tasks) && IsComplete(Worked(tasks))
    ensures Completable(tasks)
  {
    PickedIsInOrder(tasks);
    var order := Picked(tasks);
    forall k | 0 <= k < |tasks| ensures tasks[k].status in {Pending, Completed, Skipped} {
      OnlyPendingChange(tasks, k);
    }
    forall t | t in IdsWith(tasks, Pending) ensures t in order {
      assert t in IdsWith(tasks, Pending) - Graphs.Elements(order) <==> t in IdsWith(Worked(tasks), Pending);
    }
    forall t, d | t in IdsWith(tasks, Pending) && d in DependenciesOf(tasks, t)
      ensures d in IdsWith(tasks, Pending) || d in CompletedIds(tasks)
    {
      var i :| 0 <= i < |order| && order[i] == t;
      assert d in CompletedIds(tasks) || d in order[..i];
    }
    OrderIsTopological(tasks, order);
    Graphs.TopologicalIsAcyclic(PendingGraph(tasks), order);
  }

  // ---------------------------------------------------------------- the run

  predicate Good(o: Oracle) {
    o.execution == Replied && o.critique == Approved
  }

  ghost predicate AllGood(oracles: seq<Oracle>) {
    forall i :: 0 <= i < |oracles| ==> Good(oracles[i])
  }

  /** A goal that is planned, or whose current task has just been completed. */
  ghost predicate Poised(s: State) {
    && AtRest(s.tasks) && !s.feedback && !s.error
    && (s.status == Planning || (s.status == Executing && CurrentIs(s, Completed)))
  }

  /** The state after the task at position `k` was picked, executed and approved. */
  function Lapped(s: State, k: nat): State
    requires k < |s.tasks|
  {
    s.(status := Executing, tasks := SetStatus(s.tasks, k, Completed), current := Some(s.tasks[k].id),
       iteration := s.iteration + 1, executed := s.executed + [s.tasks[k].id])
  }

  /** The coordinator picks the first ready task. */
  lemma CoordinatorPicks(s: State, k: nat)
    requires Poised(s) && FirstReady(s.tasks, CompletedIds(s.tasks)) == Some(k)
    ensures CoordinatorStep(s) == Select(s, k).(status := Executing, iteration := s.iteration + 1)
    ensures AfterCoordinator(CoordinatorStep(s)) == if s.iteration + 1 < s.maxIterations then AtExecutor else Ended
  {
    assert !IsComplete(s.tasks) by {
      assert s.tasks[k].status == Pending;
    }
  }

  /** It is then executed and approved. */
  lemma PickedIsDone(s: State, k: nat, o: Oracle, p: Oracle, visits: nat)
    requires Poised(s) && k < |s.tasks| && Good(o) && Good(p)
    ensures var c := Config(AtExecutor, Select(s, k).(status := Executing, iteration := s.iteration + 1), visits);
            Step(Step(c, o), p) == Config(AtCoordinator, Lapped(s, k), visits)
  {
    var t := s.tasks[k].id;
    FindDistinct(s.tasks, k);
    var ready, done := SetStatus(s.tasks, k, Ready), SetStatus(s.tasks, k, Completed);
    FindAgain(s.tasks, ready, t);
    FindAgain(s.tasks, done, t);
    assert SetStatus(ready, k, Completed) == done;
    var c := Config(AtExecutor, Select(s, k).(status := Executing, iteration := s.iteration + 1), visits);
    assert Step(c, o) == Config(AtCritic, Lapped(s, k), visits);
  }

  lemma LappedIsPoised(s: State, k: nat)
    requires Poised(s) && k < |s.tasks| && s.tasks[k].status == Pending
    ensures Poised(Lapped(s, k))
  {
    CompletingOne(s.tasks, k);
    FindDistinct(Lapped(s, k).tasks, k);
  }

  /** Some task is blocked, or has failed with its retries used up. */
  ghost predicate Broken(tasks: seq<Task>) {
    exists k :: 0 <= k < |tasks| && (tasks[k].status == Blocked
                                     || (tasks[k].status == Failed && tasks[k].retryCount >= tasks[k].maxRetries))
  }

  /** Nothing can start, something is left, and no step of a good run changes that. */
  ghost predicate Dead(c: Config) {
    && c.node != AtPlanner && c.node != AtHuman && !c.state.feedback
    && (c.state.status == Planning || (c.state.status == Executing && !Broken(c.state.tasks)))
    && FirstReady(c.state.tasks, CompletedIds(c.state.tasks)).None? && !IsComplete(c.state.tasks)
    && forall k :: 0 <= k < |c.state.tasks| ==> c.state.tasks[k].status != Ready
  }

  lemma DeadStep(c: Config, o: Oracle)
    requires Dead(c) && Good(o)
    ensures Dead(Step(c, o))
  {
  }

  lemma {:induction false} DeadForGood(c: Config, oracles: seq<Oracle>)
    requires Dead(c) && AllGood(oracles)
    ensures Run(c, oracles).state.status in {Planning, Executing}
    decreases |oracles|
  {
    if oracles != [] {
      DeadStep(c, oracles[0]);
      DeadForGood(Step(c, oracles[0]), oracles[1..]);
    }
  }

  /** What a good run makes of a poised state: the picked tasks are executed, if the iterations suffice. */
  ghost predicate Outcome(s: State, r: State) {
    var picked := Picked(s.tasks);
    && (r.status == GoalCompleted <==>
          IsComplete(Worked(s.tasks)) && (picked == [] || s.iteration + |picked| < s.maxIterations))
    && (r.status == GoalCompleted ==> r.executed == s.executed + picked && r.tasks == Worked(s.tasks))
    && (r.status == GoalFailed <==>
          && !IsComplete(Worked(s.tasks)) && Broken(Worked(s.tasks)) && (picked == [] ==> s.status == Executing)
          && (picked == [] || s.iteration + |picked| < s.maxIterations))
  }

  lemma {:induction false} GoodRun(s: State, visits: nat, oracles: seq<Oracle>)
    requires Poised(s) && AllGood(oracles) && |oracles| >= 3 * |Picked(s.tasks)| + 1
    ensures Outcome(s, Run(Config(AtCoordinator, s, visits), oracles).state)
    decreases |oracles|
  {
    match FirstReady(s.tasks, CompletedIds(s.tasks))
    case None =>
      LastVisit(s, visits, oracles);
    case Some(k) =>
      if s.iteration + 1 < s.maxIterations {
        LapOn(s, k, visits, oracles);
        LappedIsPoised(s, k);
        GoodRun(Lapped(s, k), visits + 1, oracles[3..]);
        LapOutcome(s, k, Run(Config(AtCoordinator, s, visits), oracles).state);
      } else {
        CoordinatorPicks(s, k);
        StaysOver(Step(Config(AtCoordinator, s, visits), oracles[0]), oracles[1..]);
      }
  }

  /** One lap of a good run. */
  lemma LapOn(s: State, k: nat, visits: nat, oracles: seq<Oracle>)
    requires Poised(s) && FirstReady(s.tasks, CompletedIds(s.tasks)) == Some(k)
    requires s.iteration + 1 < s.maxIterations && AllGood(oracles) && |oracles| >= 3
    ensures Run(Config(AtCoordinator, s, visits), oracles)
         == Run(Config(AtCoordinator, Lapped(s, k), visits + 1), oracles[3..])
  {
    CoordinatorPicks(s, k);
    PickedIsDone(s, k, oracles[1], oracles[2], visits + 1);
    ThreeMore(Config(AtCoordinator, s, visits), oracles);
  }

  lemma LapOutcome(s: State, k: nat, r: State)
    requires FirstReady(s.tasks, CompletedIds(s.tasks)) == Some(k) && s.iteration + 1 < s.maxIterations
    requires Outcome(Lapped(s, k), r)
    ensures Outcome(s, r)
  {
    var rest := Picked(Lapped(s, k).tasks);
    assert Picked(s.tasks) == [s.tasks[k].id] + rest;
    assert s.executed + [s.tasks[k].id] + rest == s.executed + ([s.tasks[k].id] + rest);
  }

  lemma ThreeMore(c: Config, oracles: seq<Oracle>)
    requires |oracles| >= 3
    ensures Run(c, oracles) == Run(Step(Step(Step(c, oracles[0]), oracles[1]), oracles[2]), oracles[3..])
  {
    assert oracles[1..][1..] == oracles[2..] && oracles[2..][1..] == oracles[3..];
    assert oracles[1..][0] == oracles[1] && oracles[2..][0] == oracles[2];
    assert Run(c, oracles) == Run(Step(c, oracles[0]), oracles[1..]);
    assert Run(Step(c, oracles[0]), oracles[1..]) == Run(Step(Step(c, oracles[0]), oracles[1]), oracles[2..]);
  }

  /** When nothing can start, the goal is completed or failed at once, or never. */
  lemma LastVisit(s: State, visits: nat, oracles: seq<Oracle>)
    requires Poised(s) && AllGood(oracles) && oracles != []
    requires FirstReady(s.tasks, CompletedIds(s.tasks)).None?
    ensures Outcome(s, Run(Config(AtCoordinator, s, visits), oracles).state)
  {
    var c := Config(AtCoordinator, s, visits);
    assert s.executed + [] == s.executed;
    if IsComplete(s.tasks) || (s.status == Executing && Broken(s.tasks)) {
      assert Step(c, oracles[0]).node == Ended;
      StaysOver(Step(c, oracles[0]), oracles[1..]);
    } else {
      DeadForGood(c, oracles);
    }
  }

  /** A planned goal with nothing under way. */
  ghost predicate Planned(s: State) {
    s.status == Planning && AtRest(s.tasks) && !s.feedback && !s.error
  }

  /**
   The goal `s` ends up completed exactly if nothing in it has failed, its pending tasks have no cycle and depend on
   nothing outside the goal, and there are more iterations left than pending tasks.  Then each of these is executed
   once, in an order of their dependencies.
   */
  ghost predicate CompletesIff(s: State, r: State, order: seq<TaskId>) {
    var n := |IdsWith(s.tasks, Pending)|;
    && (r.status == GoalCompleted <==> Completable(s.tasks) && (n == 0 || s.iteration + n < s.maxIterations))
    && (r.status == GoalCompleted ==>
          && r.executed == s.executed + order
          && InOrder(s.tasks, order) && Graphs.Elements(order) == IdsWith(s.tasks, Pending)
          && Graphs.Topological(PendingGraph(s.tasks), order))
  }

  /** So it is when the model answers every call and the critic approves everything. */
  lemma GoodRunCompletesIff(s: State, oracles: seq<Oracle>) returns (order: seq<TaskId>)
    requires Planned(s) && AllGood(oracles) && |oracles| >= 3 * |IdsWith(s.tasks, Pending)| + 1
    ensures CompletesIff(s, Run(Config(AtCoordinator, s, 0), oracles).state, order)
  {
    order := Picked(s.tasks);
    PickedIsInOrder(s.tasks);
    OrderIsTopological(s.tasks, order);
    WorkedIsCompleteIff(s.tasks);
    Graphs.DistinctCardinality(order);
    Graphs.SubsetCardinality(Graphs.Elements(order), IdsWith(s.tasks, Pending));
    GoodRun(s, 0, oracles);
  }

  /** Working through the pending tasks breaks nothing and mends nothing. */
  lemma WorkedIsBrokenIff(tasks: seq<Task>)
    ensures Broken(Worked(tasks)) <==> Broken(tasks)
  {
    WorkedLength(tasks);
    forall k | 0 <= k < |tasks|
      ensures Worked(tasks)[k] == tasks[k] || (tasks[k].status == Pending && Worked(tasks)[k].status == Completed)
    {
      OnlyPendingChange(tasks, k);
    }
    if Broken(tasks) {
      var k :| 0 <= k < |tasks| && (tasks[k].status == Blocked
                                    || (tasks[k].status == Failed && tasks[k].retryCount >= tasks[k].maxRetries));
      assert Worked(tasks)[k].status == tasks[k].status;
    }
  }

  /** And the goal fails exactly if some task is broken, at least one other can start, and the iterations suffice. */
  lemma GoodRunFailsIff(s: State, oracles: seq<Oracle>) returns (order: seq<TaskId>)
    requires Planned(s) && AllGood(oracles) && |oracles| >= 3 * |IdsWith(s.tasks, Pending)| + 1
    ensures InOrder(s.tasks, order) && (order == [] <==> FirstReady(s.tasks, CompletedIds(s.tasks)).None?)
    ensures Run(Config(AtCoordinator, s, 0), oracles).state.status == GoalFailed <==>
            Broken(s.tasks) && order != [] && s.iteration + |order| < s.maxIterations
  {
    order := Picked(s.tasks);
    PickedIsInOrder(s.tasks);
    WorkedIsBrokenIff(s.tasks);
    Graphs.DistinctCardinality(order);
    Graphs.SubsetCardinality(Graphs.Elements(order), IdsWith(s.tasks, Pending));
    GoodRun(s, 0, oracles);
  }

  /** The same from the start of the graph, for a goal that the model has just planned. */
  lemma GoodPlanCompletesIff(s0: State, plan: seq<NewTask>, s: State, oracles: seq<Oracle>)
      returns (order: seq<TaskId>)
    requires oracles != [] && AllGood(oracles) && s0.status == Decomposing && oracles[0].plan == Plan(plan)
    requires PlannedAfter(s0.tasks, plan, s.tasks) && s == s0.(status := Planning, tasks := s.tasks)
    requires Planned(s) && |oracles| >= 3 * |IdsWith(s.tasks, Pending)| + 2
    ensures CompletesIff(s, Run(Start(s0), oracles).state, order)
  {
    PlanIsTaken(s0, oracles[0], plan);
    assert Step(Start(s0), oracles[0]).state.tasks == s.tasks;
    order := GoodRunCompletesIff(s, oracles[1..]);
  }
}
