/**
 Running the task graph of a goal (src/ai/goal_task_graph.py).  The agent executor is an oracle
 that answers each task id once; the tasks of one round run in the pool and are waited for, so a
 round is taken as a block.  A round that would retry for ever is reported as the outcome Spins.
 */
module Schedules {
  import opened DependencyGraphs

  /**
   How one `execute_task` goes: the executor returns; the executor raises; it returns, and a call after the
   task was counted as completed raises; or a call before the task was started raises.
   */
  datatype Reply =
    | Returned(value: Value)
    | Raised(message: Value)
    | ReturnedThenRaised(value: Value, message: Value)
    | NeverStarted(message: Value)

  type Executor = TaskId -> Reply

  /** The task is entered in `completed_tasks`, so that its dependants may start. */
  predicate Completes(reply: Reply) {
    reply.Returned? || reply.ReturnedThenRaised?
  }

  /** The task is entered in `failed_tasks`. */
  predicate Fails(reply: Reply) {
    reply.Raised? || reply.ReturnedThenRaised?
  }

  /** Every dependency of `t`, inside the goal or not, is in `done` and completed. */
  ghost predicate Startable(deps: Graph, executor: Executor, done: set<TaskId>, t: TaskId) {
    t in deps && forall d :: d in deps[t] ==> d in done && Completes(executor(d))
  }

  /** `s` lists the tasks of `done` in the order in which they were handed to the executor: each
      once, each eligible, and each after all of its dependencies have completed. */
  ghost predicate Schedule(deps: Graph, eligible: set<TaskId>, executor: Executor, s: seq<TaskId>, done: set<TaskId>) {
    if s == [] then done == {}
    else
      var t := s[|s| - 1];
      && t in done && t in eligible
      && Startable(deps, executor, done - {t}, t)
      && Schedule(deps, eligible, executor, s[..|s| - 1], done - {t})
  }

  /** No eligible task outside `done` can be started. */
  ghost predicate Exhausted(deps: Graph, eligible: set<TaskId>, executor: Executor, done: set<TaskId>) {
    forall t {:trigger Startable(deps, executor, done, t)} ::
      t in eligible && Startable(deps, executor, done, t) ==> t in done
  }

  /** The part of the graph on the tasks that were never handed out. */
  ghost function Leftover(deps: Graph, done: set<TaskId>): Graph {
    deps - done
  }

  /** No task is there that must wait for ever: all are eligible and all dependencies complete. */
  ghost predicate Unobstructed(deps: Graph, eligible: set<TaskId>, executor: Executor) {
    && deps.Keys <= eligible
    && forall t, d :: t in deps && d in deps[t] ==> d in deps && Completes(executor(d))
  }

  /** The loop of the source finds nothing to start and no cycle among the rest: it never leaves. */
  ghost predicate StuckForEver(deps: Graph, done: set<TaskId>) {
    deps.Keys - done != {} && !Cyclic(Leftover(deps, done))
  }

  /** The k-th task of `s` comes after all of its dependencies, and they completed. */
  ghost predicate InTime(deps: Graph, executor: Executor, s: seq<TaskId>, k: nat)
    requires k < |s|
  {
    s[k] in deps && forall d :: d in deps[s[k]] ==> d in s[..k] && Completes(executor(d))
  }

  /** What a schedule promises, position by position. */
  lemma {:induction false} ScheduleMeaning(deps: Graph, eligible: set<TaskId>, executor: Executor,
                                           s: seq<TaskId>, done: set<TaskId>)
    requires Schedule(deps, eligible, executor, s, done)
    ensures NoDuplicates(s) && Elements(s) == done && done <= eligible && done <= deps.Keys
    ensures forall k {:trigger InTime(deps, executor, s, k)} :: 0 <= k < |s| ==> InTime(deps, executor, s, k)
  {
    if s != [] {
      var n := |s| - 1;
      ScheduleMeaning(deps, eligible, executor, s[..n], done - {s[n]});
      assert forall x :: x in s <==> x in s[..n] || x == s[n];
      forall k | 0 <= k < |s| ensures InTime(deps, executor, s, k) {
        if k < n {
          assert InTime(deps, executor, s[..n], k);
          assert s[..n][..k] == s[..k];
        } else {
          forall d | d in deps[s[n]] ensures d in s[..n] {
            assert d in Elements(s[..n]);
          }
        }
      }
    }
  }

  /** Whatever is handed out in a run is handed out only once, and a partial run is a schedule too. */
  lemma {:induction false} PartialRun(deps: Graph, eligible: set<TaskId>, executor: Executor,
                                      s: seq<TaskId>, done: set<TaskId>, k: nat)
    requires Schedule(deps, eligible, executor, s, done) && k <= |s|
    ensures Schedule(deps, eligible, executor, s[..k], Elements(s[..k]))
    decreases |s|
  {
    if k == |s| {
      ScheduleMeaning(deps, eligible, executor, s, done);
      assert s[..k] == s;
    } else {
      var n := |s| - 1;
      PartialRun(deps, eligible, executor, s[..n], done - {s[n]}, k);
      assert s[..n][..k] == s[..k];
    }
  }

  lemma ScheduleAppend(deps: Graph, eligible: set<TaskId>, executor: Executor, s: seq<TaskId>,
                       done: set<TaskId>, t: TaskId)
    requires Schedule(deps, eligible, executor, s, done) && t in eligible && t !in done
    requires Startable(deps, executor, done, t)
    ensures Schedule(deps, eligible, executor, s + [t], done + {t})
  {
    assert (s + [t])[..|s|] == s;
    assert done + {t} - {t} == done;
  }

  /** No schedule hands out a task that an exhausted one misses: the set handed out is fixed. */
  lemma {:induction false} ExhaustedIsMaximal(deps: Graph, eligible: set<TaskId>, executor: Executor,
                                              done: set<TaskId>, other: seq<TaskId>, otherDone: set<TaskId>)
    requires Exhausted(deps, eligible, executor, done)
    requires Schedule(deps, eligible, executor, other, otherDone)
    ensures otherDone <= done
    decreases |other|
  {
    if other != [] {
      var t := other[|other| - 1];
      ExhaustedIsMaximal(deps, eligible, executor, done, other[..|other| - 1], otherDone - {t});
      assert Startable(deps, executor, done, t);
    }
  }

  /** A directed cycle is never entered. */
  lemma {:induction false} CycleNeverEntered(deps: Graph, eligible: set<TaskId>, executor: Executor,
                                             s: seq<TaskId>, done: set<TaskId>, p: seq<TaskId>)
    requires Schedule(deps, eligible, executor, s, done) && IsCycle(deps, p)
    ensures forall i :: 0 <= i < |p| ==> p[i] !in done
    decreases |s|
  {
    if s != [] {
      var t := s[|s| - 1];
      CycleNeverEntered(deps, eligible, executor, s[..|s| - 1], done - {t}, p);
      forall i | 0 <= i < |p| ensures p[i] != t {
        var j := if i == 0 then |p| - 1 else i;
        assert Edge(deps, p[j - 1], p[j]);
        assert p[j - 1] in deps[p[i]] && p[j - 1] !in done - {t};
      }
    }
  }

  /** So it is still there among the tasks left over, and nothing else can make them cyclic. */
  lemma CyclesAreLeftOver(deps: Graph, eligible: set<TaskId>, executor: Executor, s: seq<TaskId>, done: set<TaskId>)
    requires Schedule(deps, eligible, executor, s, done)
    ensures Cyclic(deps) <==> Cyclic(Leftover(deps, done))
  {
    var rest := Leftover(deps, done);
    if Cyclic(deps) {
      var p :| IsCycle(deps, p);
      CycleNeverEntered(deps, eligible, executor, s, done, p);
      forall i | 0 <= i < |p| - 1 ensures Edge(rest, p[i], p[i + 1]) {
        assert Edge(deps, p[i], p[i + 1]);
      }
      assert IsCycle(rest, p);
    }
    if Cyclic(rest) {
      var p :| IsCycle(rest, p);
      forall i | 0 <= i < |p| - 1 ensures Edge(deps, p[i], p[i + 1]) {
        assert Edge(rest, p[i], p[i + 1]);
      }
      assert IsCycle(deps, p);
    }
  }

  /** Without obstruction, a round with nothing to start has a cycle among the tasks that remain. */
  lemma StuckRoundHasCycle(deps: Graph, eligible: set<TaskId>, executor: Executor, s: seq<TaskId>, done: set<TaskId>)
    requires Schedule(deps, eligible, executor, s, done) && Exhausted(deps, eligible, executor, done)
    requires Unobstructed(deps, eligible, executor) && deps.Keys - done != {}
    ensures Cyclic(Leftover(deps, done))
  {
    var rest := Leftover(deps, done);
    forall t | t in rest.Keys ensures HasPredecessorIn(rest, rest.Keys, t) {
      assert !Startable(deps, executor, done, t);
      var d :| d in deps[t] && d !in done;
      assert Edge(rest, d, t);
    }
    assert rest.Keys == deps.Keys - done;
    StuckSetHasCycle(rest, rest.Keys);
  }

  /** The loop hangs exactly on an acyclic goal in which something obstructs: a task that is not
      pending, a dependency outside the goal, or a dependency that does not complete. */
  lemma HangsIffAcyclicAndObstructed(deps: Graph, eligible: set<TaskId>, executor: Executor,
                                     s: seq<TaskId>, done: set<TaskId>)
    requires Schedule(deps, eligible, executor, s, done) && Exhausted(deps, eligible, executor, done)
    ensures StuckForEver(deps, done) <==> !Cyclic(deps) && !Unobstructed(deps, eligible, executor)
  {
    CyclesAreLeftOver(deps, eligible, executor, s, done);
    ScheduleMeaning(deps, eligible, executor, s, done);
    if Unobstructed(deps, eligible, executor) && deps.Keys - done != {} {
      StuckRoundHasCycle(deps, eligible, executor, s, done);
    }
    if deps.Keys - done == {} {
      forall t | t in deps ensures t in done {
        assert t !in done ==> t in deps.Keys - done;
      }
      forall t, d | t in deps && d in deps[t] ensures d in deps && Completes(executor(d)) {
        assert t in Elements(s);
        var k :| 0 <= k < |s| && s[k] == t;
        assert InTime(deps, executor, s, k);
        assert d in Elements(s);
      }
    }
  }

  /** Without obstruction the tasks handed out are exactly those that Kahn's loop emits. */
  lemma HandedOutIsKahnsPart(deps: Graph, eligible: set<TaskId>, executor: Executor,
                             s: seq<TaskId>, done: set<TaskId>, kahn: seq<TaskId>)
    requires Schedule(deps, eligible, executor, s, done) && Exhausted(deps, eligible, executor, done)
    requires Unobstructed(deps, eligible, executor)
    requires Topological(deps, kahn) && Saturated(deps, kahn)
    ensures Elements(kahn) == done
    ensures Topological(deps, s) && Saturated(deps, s)
  {
    ScheduleMeaning(deps, eligible, executor, s, done);
    forall k, d | 0 <= k < |s| && Edge(deps, d, s[k]) ensures d in s[..k] {
      assert InTime(deps, executor, s, k);
    }
    forall k | 0 <= k < |s| ensures s[k] in deps {
      assert s[k] in Elements(s);
    }
    forall t | t in deps && DependenciesIn(deps, s, t) ensures t in s {
      forall d | d in deps[t] ensures d in done {
        assert Edge(deps, d, t);
        assert d in Elements(s);
      }
      assert Startable(deps, executor, done, t);
      assert t in Elements(s);
    }
    SaturatedIsMaximal(deps, kahn, s);
    SaturatedIsMaximal(deps, s, kahn);
  }
}

module GoalExecution {
  import opened Options
  import opened DependencyGraphs
  import opened TaskOrdering
  import opened Schedules

  type GoalId = string
  type TaskTable = map<TaskId, TaskNode>

  datatype GoalStatus =
    GoalPending | GoalDecomposing | GoalDecomposed | GoalExecuting | GoalCompleted | GoalFailed

  datatype TaskResult = TaskCompleted(value: Value) | TaskFailed(error: TaskError)

  /** How a call of `execute_task` ends. */
  datatype CallEnd = Returns(result: TaskResult) | Raises(error: TaskError)
  type Results = map<TaskId, TaskResult>

  datatype Overall = AllCompleted | AllFailed | Partial
  datatype Report = Report(status: Overall, total: nat, completed: nat, failed: nat, results: Results,
                           executionOrder: seq<TaskId>)

  /** How the executor loop ends: it is left, it goes round for ever, or it raises. */
  datatype Ending = Left | Hung | Broken

  /** How a call of `execute_graph` ends: a summary, the `no_tasks` summary, one of the three
      exceptions of the source, or not at all. */
  datatype Outcome = NoTasks | NoGoalSet | NoAgents | RepeatedTask | Spins | Done(report: Report)

  // ---------------------------------------------------------------- pure parts

  /** The stored nodes for a list of ids, unknown ids skipped. */
  function Stored(tasks: TaskTable, ids: seq<TaskId>): seq<TaskNode> {
    if ids == [] then []
    else
      var rest := Stored(tasks, ids[..|ids| - 1]);
      var last := ids[|ids| - 1];
      if last in tasks then rest + [tasks[last]] else rest
  }

  /** The dependencies of a goal's tasks. */
  ghost function GoalDeps(tasks: TaskTable, goal: set<TaskId>): Graph {
    map t | t in goal && t in tasks :: tasks[t].dependsOn
  }

  ghost function PendingAmong(tasks: TaskTable, goal: set<TaskId>): set<TaskId> {
    set t | t in goal && t in tasks && tasks[t].status == Pending
  }

  function Answered(node: TaskNode, reply: Reply): TaskNode {
    match reply
    case Returned(value) => node.(status := Completed, result := Some(value))
    case Raised(message) => node.(status := Failed, error := Some(ExecutorRaised(message)))
    case ReturnedThenRaised(value, message) =>
      node.(status := Failed, result := Some(value), error := Some(ExecutorRaised(message)))
    case NeverStarted(message) => node.(status := Running)
  }

  /** A handled exception ends in another: the handler calls `end_span` with an argument that it does not have. */
  function EndOf(reply: Reply): CallEnd {
    match reply
    case Returned(value) => Returns(TaskCompleted(value))
    case Raised(_) => Raises(HandlerRaised)
    case ReturnedThenRaised(_, _) => Raises(HandlerRaised)
    case NeverStarted(message) => Raises(ExecutorRaised(message))
  }

  /** What `execute_graph` makes of the end of a call, which it catches. */
  function Caught(end: CallEnd): TaskResult {
    match end
    case Returns(result) => result
    case Raises(error) => TaskFailed(error)
  }

  function ResultOf(reply: Reply): TaskResult {
    Caught(EndOf(reply))
  }

  ghost function Succeeded(executor: Executor, done: set<TaskId>): set<TaskId> {
    set t | t in done && Completes(executor(t))
  }

  ghost function Failing(executor: Executor, done: set<TaskId>): set<TaskId> {
    set t | t in done && Fails(executor(t))
  }

  /** The tasks that the summary counts as completed. */
  ghost function Reported(executor: Executor, done: set<TaskId>): set<TaskId> {
    set t | t in done && executor(t).Returned?
  }

  /** The task table after the executor has answered for the tasks in `done`. */
  ghost function AfterRun(tasks: TaskTable, executor: Executor, done: set<TaskId>): TaskTable {
    map t | t in tasks :: if t in done then Answered(tasks[t], executor(t)) else tasks[t]
  }

  /** The task table after the cycle branch has failed every task left over. */
  function AfterCycle(tasks: TaskTable, rest: set<TaskId>): TaskTable {
    map t | t in tasks ::
      if t in rest then tasks[t].(status := Failed, error := Some(CircularDependency)) else tasks[t]
  }

  /** The task table after the round-robin assignment of agents to the listed tasks. */
  ghost function WithAgents(tasks: TaskTable, ids: seq<TaskId>, maxParallel: nat): TaskTable
    requires maxParallel > 0
  {
    if ids == [] then tasks
    else
      var n := |ids| - 1;
      var r := WithAgents(tasks, ids[..n], maxParallel);
      if ids[n] in r then r[ids[n] := r[ids[n]].(assignedAgent := Some(n % maxParallel))] else r
  }

  lemma {:induction false} WithAgentsFrame(tasks: TaskTable, ids: seq<TaskId>, maxParallel: nat)
    requires maxParallel > 0
    ensures var r := WithAgents(tasks, ids, maxParallel);
            r.Keys == tasks.Keys && forall t :: t in r ==> r[t] == tasks[t].(assignedAgent := r[t].assignedAgent)
  {
    if ids != [] {
      WithAgentsFrame(tasks, ids[..|ids| - 1], maxParallel);
    }
  }

  /** Round robin: the agent of the k-th task is k modulo the number of agents. */
  lemma {:induction false} WithAgentsRoundRobin(tasks: TaskTable, ids: seq<TaskId>, maxParallel: nat, k: nat)
    requires maxParallel > 0 && NoDuplicates(ids) && k < |ids| && ids[k] in tasks
    ensures var r := WithAgents(tasks, ids, maxParallel);
            ids[k] in r && r[ids[k]].assignedAgent == Some(k % maxParallel)
  {
    var n := |ids| - 1;
    WithAgentsFrame(tasks, ids[..n], maxParallel);
    if k < n {
      WithAgentsRoundRobin(tasks, ids[..n], maxParallel, k);
    }
  }

  predicate IsReady(tasks: TaskTable, completed: set<TaskId>, t: TaskId) {
    && t in tasks && tasks[t].status == Pending
    && forall d :: d in tasks[t].dependsOn ==> d in completed
  }

  /** `[t for t in tasks if t.id in remaining and self._is_ready(t.id)]`, as ids. */
  function ReadyIds(tasks: TaskTable, completed: set<TaskId>, remaining: set<TaskId>, ids: seq<TaskId>)
    : (ready: seq<TaskId>)
    ensures forall t :: t in ready <==> t in ids && t in remaining && IsReady(tasks, completed, t)
    ensures NoDuplicates(ids) ==> NoDuplicates(ready)
  {
    if ids == [] then []
    else
      var rest := ReadyIds(tasks, completed, remaining, ids[..|ids| - 1]);
      var last := ids[|ids| - 1];
      if last in remaining && IsReady(tasks, completed, last) then rest + [last] else rest
  }

  /** `ready[:max_parallel]` */
  function Batch(ready: seq<TaskId>, maxParallel: nat): (batch: seq<TaskId>)
    ensures batch <= ready && |batch| == if |ready| <= maxParallel then |ready| else maxParallel
    ensures NoDuplicates(ready) || maxParallel <= 1 ==> NoDuplicates(batch)
    ensures forall t :: t in batch ==> t in ready
  {
    if |ready| <= maxParallel then ready else ready[..maxParallel]
  }

  function Keep(nodes: seq<TaskNode>, remaining: set<TaskId>): seq<TaskNode> {
    if nodes == [] then []
    else
      var rest := Keep(nodes[..|nodes| - 1], remaining);
      var last := nodes[|nodes| - 1];
      if last.id in remaining then rest + [last] else rest
  }

  function CompletedOf(results: Results): set<TaskId> {
    set t | t in results && results[t].TaskCompleted?
  }

  function FailedOf(results: Results): set<TaskId> {
    set t | t in results && results[t].TaskFailed?
  }

  /** The result table after the cycle branch has entered a failure for every task left over. */
  function WithCycleResults(results: Results, rest: set<TaskId>): Results {
    map t | t in results.Keys + rest :: if t in rest then TaskFailed(CircularDependency) else results[t]
  }

  /** The overall status, from the two counts. */
  function OverallOf(completed: nat, failed: nat): Overall {
    if failed == 0 then AllCompleted else if completed == 0 then AllFailed else Partial
  }

  // ---------------------------------------------------------------- the tasks of a round

  lemma OneMoreOf(s: seq<TaskId>, i: nat)
    requires i < |s|
    ensures Elements(s[..i + 1]) == Elements(s[..i]) + {s[i]}
    ensures NoDuplicates(s[..i]) && s[i] !in s[..i] ==> NoDuplicates(s[..i + 1])
    ensures NoDuplicates(s) ==> s[i] !in s[..i]
  {
    assert s[..i + 1] == s[..i] + [s[i]];
  }

  lemma {:induction false} ReadySplit(tasks: TaskTable, completed: set<TaskId>, remaining: set<TaskId>,
                                      ids: seq<TaskId>, i: nat)
    requires i <= |ids|
    ensures ReadyIds(tasks, completed, remaining, ids) ==
            ReadyIds(tasks, completed, remaining, ids[..i]) + ReadyIds(tasks, completed, remaining, ids[i..])
  {
    if i == |ids| {
      assert ids[..i] == ids;
    } else {
      var front := ids[..|ids| - 1];
      ReadySplit(tasks, completed, remaining, front, i);
      assert front[..i] == ids[..i] && front[i..] == ids[i..][..|ids[i..]| - 1];
    }
  }

  /** A round starts the first `maxParallel` ready tasks, in the order in which the goal lists them. */
  lemma BatchIsFirstReady(tasks: TaskTable, completed: set<TaskId>, remaining: set<TaskId>, ids: seq<TaskId>,
                          maxParallel: nat, i: nat)
    requires NoDuplicates(ids) && i < |ids|
    ensures var ready := ReadyIds(tasks, completed, remaining, ids);
            ids[i] in Batch(ready, maxParallel) <==>
            ids[i] in ready && |ReadyIds(tasks, completed, remaining, ids[..i])| < maxParallel
  {
    var ready := ReadyIds(tasks, completed, remaining, ids);
    var before := ReadyIds(tasks, completed, remaining, ids[..i]);
    ReadySplit(tasks, completed, remaining, ids, i);
    if ids[i] in ready {
      ReadySplit(tasks, completed, remaining, ids[i..], 1);
      assert ids[i..][..1] == [ids[i]];
      assert ReadyIds(tasks, completed, remaining, []) == [];
      assert ReadyIds(tasks, completed, remaining, [ids[i]]) == [ids[i]];
      assert ready[|before|] == ids[i];
      assert Batch(ready, maxParallel) == ready[..|Batch(ready, maxParallel)|];
    }
  }

  // ---------------------------------------------------------------- stored nodes and their graph

  lemma {:induction false} StoredMember(tasks: TaskTable, ids: seq<TaskId>, n: TaskNode)
    requires forall t :: t in tasks ==> tasks[t].id == t
    ensures n in Stored(tasks, ids) <==> n.id in ids && n.id in tasks && n == tasks[n.id]
  {
    if ids != [] {
      var k := |ids| - 1;
      StoredMember(tasks, ids[..k], n);
      assert forall t :: t in ids <==> t in ids[..k] || t == ids[k];
    }
  }

  lemma {:induction false} KeepMember(nodes: seq<TaskNode>, remaining: set<TaskId>, n: TaskNode)
    ensures n in Keep(nodes, remaining) <==> n in nodes && n.id in remaining
  {
    if nodes != [] {
      var k := |nodes| - 1;
      KeepMember(nodes[..k], remaining, n);
      assert forall m :: m in nodes <==> m in nodes[..k] || m == nodes[k];
    }
  }

  lemma {:induction false} StoredAll(tasks: TaskTable, ids: seq<TaskId>)
    requires forall k :: 0 <= k < |ids| ==> ids[k] in tasks
    ensures |Stored(tasks, ids)| == |ids|
    ensures forall k :: 0 <= k < |ids| ==> Stored(tasks, ids)[k] == tasks[ids[k]]
  {
    if ids != [] {
      StoredAll(tasks, ids[..|ids| - 1]);
    }
  }

  lemma StoredIdsKnown(tasks: TaskTable, ids: seq<TaskId>)
    requires forall t :: t in tasks ==> tasks[t].id == t
    ensures Elements(Ids(Stored(tasks, ids))) <= tasks.Keys
  {
    var nodes := Stored(tasks, ids);
    forall t | t in Elements(Ids(nodes)) ensures t in tasks {
      IdsMember(nodes, t);
      var n :| n in nodes && n.id == t;
      StoredMember(tasks, ids, n);
    }
  }

  /** A list of stored nodes, one or more for each id of `rest`, draws the graph `rest`. */
  lemma NodesDraw(tasks: TaskTable, rest: Graph, nodes: seq<TaskNode>)
    requires forall t :: t in rest ==> t in tasks && tasks[t].id == t && rest[t] == tasks[t].dependsOn
    requires forall n :: n in nodes <==> n.id in rest && n == tasks[n.id]
    ensures forall d, t :: Edge(GraphOf(nodes), d, t) <==> Edge(rest, d, t)
    ensures Cyclic(GraphOf(nodes)) <==> Cyclic(rest)
  {
    forall t ensures t in Ids(nodes) <==> t in rest {
      IdsMember(nodes, t);
      assert t in rest ==> tasks[t] in nodes;
    }
    forall d, t ensures Edge(GraphOf(nodes), d, t) <==> Edge(rest, d, t) {
      GraphOfEdge(nodes, d, t);
      assert t in rest ==> tasks[t] in nodes;
    }
    SameEdgesSameCycles(GraphOf(nodes), rest);
  }

  /** The nodes kept for the cycle check are those of the tasks left over. */
  lemma KeptDrawLeftover(tasks: TaskTable, ids: seq<TaskId>, deps: Graph, done: set<TaskId>)
    requires forall t :: t in tasks ==> tasks[t].id == t
    requires deps == GoalDeps(tasks, Elements(ids))
    ensures Cyclic(GraphOf(Keep(Stored(tasks, ids), deps.Keys - done))) <==> Cyclic(Leftover(deps, done))
  {
    var rest, stored := Leftover(deps, done), Stored(tasks, ids);
    var nodes := Keep(stored, deps.Keys - done);
    forall n ensures n in nodes <==> n.id in rest && n == tasks[n.id] {
      StoredMember(tasks, ids, n);
      KeepMember(stored, deps.Keys - done, n);
    }
    NodesDraw(tasks, rest, nodes);
  }

  // ---------------------------------------------------------------- the order handed back

  lemma SameSizeSameIds(a: seq<TaskId>, b: seq<TaskId>)
    requires multiset(a) <= multiset(b) && |a| == |b|
    ensures forall t :: t in a <==> t in b
  {
    assert multiset(b) == multiset(a) + (multiset(b) - multiset(a));
    assert |multiset(b) - multiset(a)| == 0;
    forall t ensures t in a <==> t in b {
      assert t in a <==> t in multiset(a);
      assert t in b <==> t in multiset(b);
    }
  }

  /** Every stored node of the list occurs, and nothing else. */
  lemma OrderMembers(tasks: TaskTable, nodes: seq<TaskNode>, sequence: seq<TaskId>)
    requires forall t :: t in tasks ==> tasks[t].id == t
    requires forall t :: t in sequence <==> t in Ids(nodes)
    ensures forall n :: n in Stored(tasks, sequence) <==> n.id in Ids(nodes) && n.id in tasks && n == tasks[n.id]
  {
    forall n ensures n in Stored(tasks, sequence) <==> n.id in Ids(nodes) && n.id in tasks && n == tasks[n.id] {
      StoredMember(tasks, sequence, n);
    }
  }

  lemma OrderOnce(tasks: TaskTable, nodes: seq<TaskNode>, sequence: seq<TaskId>)
    requires forall t :: t in tasks ==> tasks[t].id == t
    requires forall t :: t in sequence <==> t in Ids(nodes)
    requires NoDuplicates(sequence)
    requires DistinctIds(nodes) && forall n :: n in nodes ==> n.id in tasks && tasks[n.id] == n
    ensures var order := Stored(tasks, sequence);
            NoDuplicates(order) && Elements(order) == Elements(nodes) && Ids(order) == sequence
  {
    var order := Stored(tasks, sequence);
    forall t ensures t in Ids(nodes) ==> t in tasks && tasks[t] in nodes {
      IdsMember(nodes, t);
    }
    StoredAll(tasks, sequence);
    assert forall k :: 0 <= k < |order| ==> order[k] == tasks[sequence[k]] && order[k].id == sequence[k];
    assert Ids(order) == sequence;
    OrderMembers(tasks, nodes, sequence);
    forall n | n in nodes ensures n.id in Ids(nodes) {
      IdsMember(nodes, n.id);
    }
  }

  lemma KahnCovers(nodes: seq<TaskNode>, kahn: seq<TaskId>, sequence: seq<TaskId>)
    requires forall t :: t in sequence <==> t in Ids(nodes)
    requires NoDuplicates(sequence) && kahn <= sequence
    requires Topological(GraphOf(nodes), kahn) && Saturated(GraphOf(nodes), kahn)
    ensures |kahn| == |sequence| <==> !Cyclic(GraphOf(nodes))
  {
    SaturatedCoversIffAcyclic(GraphOf(nodes), kahn);
    DistinctCardinality(kahn);
    DistinctCardinality(sequence);
    assert Elements(sequence) == GraphOf(nodes).Keys;
    SubsetCardinality(Elements(kahn), Elements(sequence));
  }

  /** Distinct stored ids draw exactly the goal's graph. */
  lemma StoredDraws(tasks: TaskTable, ids: seq<TaskId>)
    requires forall t :: t in tasks ==> tasks[t].id == t
    requires NoDuplicates(ids) && Elements(ids) <= tasks.Keys
    ensures var nodes := Stored(tasks, ids);
            && Ids(nodes) == ids && DistinctIds(nodes)
            && (forall n :: n in nodes ==> n.id in tasks && tasks[n.id] == n)
            && GraphOf(nodes) == GoalDeps(tasks, Elements(ids))
  {
    var nodes := Stored(tasks, ids);
    assert forall k :: 0 <= k < |ids| ==> ids[k] in Elements(ids);
    StoredAll(tasks, ids);
    assert Ids(nodes) == ids;
    forall n | n in nodes ensures n.id in tasks && tasks[n.id] == n {
      StoredMember(tasks, ids, n);
    }
    forall t | t in ids ensures DependenciesOf(nodes, t) == tasks[t].dependsOn {
      var k :| 0 <= k < |ids| && ids[k] == t;
      DependenciesOfOne(nodes, k);
    }
    assert GraphOf(nodes).Keys == GoalDeps(tasks, Elements(ids)).Keys;
  }

  lemma {:induction false} DependenciesOfOne(nodes: seq<TaskNode>, k: nat)
    requires DistinctIds(nodes) && k < |nodes|
    ensures DependenciesOf(nodes, nodes[k].id) == nodes[k].dependsOn
  {
    var n, ids := |nodes| - 1, Ids(nodes);
    var front := nodes[..n];
    assert Ids(front) == ids[..n];
    if k < n {
      DependenciesOfOne(front, k);
      assert ids[k] != ids[n];
    } else {
      NotListed(front, nodes[n].id);
    }
  }

  lemma {:induction false} NotListed(nodes: seq<TaskNode>, t: TaskId)
    requires t !in Ids(nodes)
    ensures DependenciesOf(nodes, t) == []
  {
    if nodes != [] {
      var n := |nodes| - 1;
      assert Ids(nodes)[n] == nodes[n].id && Ids(nodes[..n]) == Ids(nodes)[..n];
      NotListed(nodes[..n], t);
    }
  }

  // ---------------------------------------------------------------- the state of a run

  /** What a run starts from: the goal's ids, their dependencies, the pending ones, the executor, the task table. */
  datatype Plan = Plan(ids: seq<TaskId>, deps: Graph, eligible: set<TaskId>, executor: Executor, start: TaskTable)

  /** The tasks handed out so far, in order and as a set. */
  datatype Trace = Trace(handed: seq<TaskId>, done: set<TaskId>)

  /** The task table and the two sets of a task graph. */
  datatype Board = Board(tasks: TaskTable, completed: set<TaskId>, failed: set<TaskId>)

  /** `p` is the plan of a run that begins with the table `before`. */
  ghost predicate PlanFor(p: Plan, before: TaskTable, maxParallel: nat)
    requires maxParallel > 0
  {
    && p.deps == GoalDeps(before, Elements(p.ids)) && p.eligible == PendingAmong(before, Elements(p.ids))
    && Elements(p.ids) <= before.Keys && p.start == WithAgents(before, p.ids, maxParallel)
  }

  ghost predicate Scheduled(p: Plan, r: Trace) {
    Schedule(p.deps, p.eligible, p.executor, r.handed, r.done)
  }

  /** The state between two steps of a run that has handed out the tasks of `done`. */
  ghost predicate InRun(p: Plan, done: set<TaskId>, b: Board, remaining: set<TaskId>, results: Results) {
    && done <= p.deps.Keys <= p.start.Keys
    && b == Board(AfterRun(p.start, p.executor, done), Succeeded(p.executor, done), Failing(p.executor, done))
    && remaining == p.deps.Keys - done
    && results == map t | t in done :: ResultOf(p.executor(t))
  }

  /** What the loop's ending says about the tasks handed out. */
  ghost predicate Verdict(p: Plan, done: set<TaskId>, ending: Ending) {
    match ending
    case Broken => !NoDuplicates(p.ids)
    case Hung => Exhausted(p.deps, p.eligible, p.executor, done) && StuckForEver(p.deps, done)
    case Left => Exhausted(p.deps, p.eligible, p.executor, done) && !StuckForEver(p.deps, done)
  }

  /** The order starts with a topological list that cannot be extended, all of it just when nothing is cyclic. */
  ghost predicate StartsWithKahnsPart(deps: Graph, order: seq<TaskId>, n: nat) {
    && n <= |order| && Topological(deps, order[..n]) && Saturated(deps, order[..n])
    && (n == |order| <==> !Cyclic(deps))
  }

  /** For distinct ids, the order holds each of them once, Kahn's part first. */
  ghost predicate Ordered(ids: seq<TaskId>, deps: Graph, order: seq<TaskId>) {
    NoDuplicates(ids) ==>
      && NoDuplicates(order) && Elements(order) == Elements(ids)
      && exists n: nat :: StartsWithKahnsPart(deps, order, n)
  }

  /** The figures of the returned summary, its order, and the final status of the goal. */
  ghost predicate Summary(report: Report, p: Plan, completed: nat, failed: nat, goal: Option<GoalStatus>) {
    && report.total == |p.ids| && report.completed == completed && report.failed == failed
    && report.status == OverallOf(completed, failed)
    && Ordered(p.ids, p.deps, report.executionOrder)
    && goal == Some(if failed > 0 && completed == 0 then GoalFailed else GoalCompleted)
  }

  lemma InRunStart(p: Plan)
    requires p.deps.Keys <= p.start.Keys
    ensures InRun(p, {}, Board(p.start, {}, {}), p.deps.Keys, map[])
  {
  }

  function BoardAfter(b: Board, t: TaskId, reply: Reply): Board
    requires t in b.tasks
  {
    Board(b.tasks[t := Answered(b.tasks[t], reply)],
          b.completed + (if Completes(reply) then {t} else {}),
          b.failed + (if Fails(reply) then {t} else {}))
  }

  lemma InRunStep(p: Plan, done: set<TaskId>, b: Board, remaining: set<TaskId>, results: Results, t: TaskId)
    requires InRun(p, done, b, remaining, results) && t in remaining
    ensures t in b.tasks && t !in done
    ensures InRun(p, done + {t}, BoardAfter(b, t, p.executor(t)), remaining - {t},
                  results[t := ResultOf(p.executor(t))])
  {
    var next, reply := done + {t}, p.executor(t);
    assert Succeeded(p.executor, next) == b.completed + if Completes(reply) then {t} else {};
    assert Failing(p.executor, next) == b.failed + if Fails(reply) then {t} else {};
    assert AfterRun(p.start, p.executor, next) == b.tasks[t := Answered(b.tasks[t], reply)];
    assert (map u | u in next :: ResultOf(p.executor(u))) == results[t := ResultOf(reply)];
  }

  /** A run changes no dependency. */
  lemma DepsKept(p: Plan, before: TaskTable, maxParallel: nat, done: set<TaskId>, rest: set<TaskId>)
    requires maxParallel > 0 && PlanFor(p, before, maxParallel)
    ensures GoalDeps(AfterRun(p.start, p.executor, done), Elements(p.ids)) == p.deps
    ensures GoalDeps(AfterCycle(AfterRun(p.start, p.executor, done), rest), Elements(p.ids)) == p.deps
  {
    WithAgentsFrame(before, p.ids, maxParallel);
  }

  /** Ready, in the sense of the source, is eligible and startable. */
  lemma ReadyMeansStartable(before: TaskTable, start: TaskTable, goal: set<TaskId>, executor: Executor,
                            done: set<TaskId>, tasks: TaskTable, t: TaskId)
    requires goal <= before.Keys == start.Keys && t in goal && t !in done
    requires start[t] == before[t].(assignedAgent := start[t].assignedAgent)
    requires tasks == AfterRun(start, executor, done)
    ensures IsReady(tasks, Succeeded(executor, done), t) <==>
            t in PendingAmong(before, goal) && Startable(GoalDeps(before, goal), executor, done, t)
  {
    assert tasks[t] == start[t];
    assert GoalDeps(before, goal)[t] == before[t].dependsOn;
  }

  lemma NothingReady(before: TaskTable, start: TaskTable, ids: seq<TaskId>, executor: Executor,
                     done: set<TaskId>, tasks: TaskTable, remaining: set<TaskId>)
    requires Elements(ids) <= before.Keys == start.Keys
    requires forall t :: t in start ==> start[t] == before[t].(assignedAgent := start[t].assignedAgent)
    requires tasks == AfterRun(start, executor, done)
    requires remaining == GoalDeps(before, Elements(ids)).Keys - done
    ensures forall t :: t in ReadyIds(tasks, Succeeded(executor, done), remaining, ids) ==>
              t in remaining && t in PendingAmong(before, Elements(ids))
              && Startable(GoalDeps(before, Elements(ids)), executor, done, t)
    ensures ReadyIds(tasks, Succeeded(executor, done), remaining, ids) == [] ==>
              Exhausted(GoalDeps(before, Elements(ids)), PendingAmong(before, Elements(ids)), executor, done)
  {
    var goal := Elements(ids);
    var ready := ReadyIds(tasks, Succeeded(executor, done), remaining, ids);
    forall t | t in ready
      ensures t in remaining && t in PendingAmong(before, goal) && Startable(GoalDeps(before, goal), executor, done, t)
    {
      ReadyMeansStartable(before, start, goal, executor, done, tasks, t);
    }
    if ready == [] {
      forall t | t in PendingAmong(before, goal) && Startable(GoalDeps(before, goal), executor, done, t)
        ensures t in done
      {
        if t !in done {
          ReadyMeansStartable(before, start, goal, executor, done, tasks, t);
        }
      }
    }
  }

  lemma NothingRemains(p: Plan, done: set<TaskId>)
    requires p.eligible <= p.deps.Keys && p.deps.Keys - done == {}
    ensures Verdict(p, done, Left)
  {
    forall t | t in p.eligible ensures t in done {
      assert t !in done ==> t in p.deps.Keys - done;
    }
  }

  /** The board when the run is over: leaving the loop fails every task left. */
  ghost function FinalBoard(p: Plan, done: set<TaskId>, ending: Ending): Board {
    var tasks, rest := AfterRun(p.start, p.executor, done), p.deps.Keys - done;
    if ending == Left then
      Board(AfterCycle(tasks, rest), Succeeded(p.executor, done), Failing(p.executor, done) + rest)
    else
      Board(tasks, Succeeded(p.executor, done), Failing(p.executor, done))
  }

  /** What a run that reaches the pool leaves behind, for each way it can end. */
  ghost predicate RunCore(p: Plan, r: Trace, ending: Ending, b: Board) {
    Scheduled(p, r) && Verdict(p, r.done, ending) && b == FinalBoard(p, r.done, ending)
  }

  /** A summary counts the calls that returned as completed, and everything else as failed. */
  ghost predicate Reports(p: Plan, r: Trace, outcome: Outcome, goal: Option<GoalStatus>) {
    outcome.Done? ==>
      var completed := |Reported(p.executor, r.done)|;
      && completed <= |p.deps| && Summary(outcome.report, p, completed, |p.deps| - completed, goal)
      && outcome.report.results == FinalResults(p, r.done)
  }

  /** The result of each task: that of its call, or the cycle that kept it back. */
  ghost function FinalResults(p: Plan, done: set<TaskId>): Results {
    map t | t in p.deps :: if t in done then ResultOf(p.executor(t)) else TaskFailed(CircularDependency)
  }

  ghost predicate RunResult(p: Plan, r: Trace, outcome: Outcome, b: Board, goal: Option<GoalStatus>) {
    && (outcome.Spins? || outcome.RepeatedTask? || outcome.Done?)
    && RunCore(p, r, EndingOf(outcome), b)
    && Reports(p, r, outcome, goal)
  }

  lemma ResultCounts(executor: Executor, done: set<TaskId>, rest: set<TaskId>, results: Results)
    requires results == map t | t in done :: ResultOf(executor(t))
    requires done !! rest
    ensures CompletedOf(WithCycleResults(results, rest)) == Reported(executor, done)
    ensures FailedOf(WithCycleResults(results, rest)) == done + rest - Reported(executor, done)
  {
  }

  lemma Complement(deps: Graph, done: set<TaskId>, rest: set<TaskId>, part: set<TaskId>)
    requires part <= done <= deps.Keys && rest == deps.Keys - done
    ensures |part| <= |deps| && |done + rest - part| == |deps| - |part|
  {
    assert deps.Keys == part + (done + rest - part);
    assert |deps| == |deps.Keys|;
  }

  /** The counts of the summary: the calls that returned, and everything else. */
  lemma FinalCounts(p: Plan, done: set<TaskId>, b: Board, remaining: set<TaskId>, results: Results)
    requires InRun(p, done, b, remaining, results)
    ensures |CompletedOf(WithCycleResults(results, remaining))| == |Reported(p.executor, done)| <= |p.deps|
    ensures |FailedOf(WithCycleResults(results, remaining))| == |p.deps| - |Reported(p.executor, done)|
    ensures WithCycleResults(results, remaining) == FinalResults(p, done)
  {
    assert WithCycleResults(results, remaining) == FinalResults(p, done) by {
      ResultsAreFinal(p, done, remaining, results);
    }
    ResultCounts(p.executor, done, remaining, results);
    Complement(p.deps, done, remaining, Reported(p.executor, done));
  }

  lemma ResultsAreFinal(p: Plan, done: set<TaskId>, remaining: set<TaskId>, results: Results)
    requires done <= p.deps.Keys && remaining == p.deps.Keys - done
    requires results == map t | t in done :: ResultOf(p.executor(t))
    ensures WithCycleResults(results, remaining) == FinalResults(p, done)
  {
    var a, b := WithCycleResults(results, remaining), FinalResults(p, done);
    assert results.Keys == done && a.Keys == done + remaining == b.Keys;
    forall t | t in b ensures a[t] == b[t] {
      assert t in done || t in remaining;
    }
  }

  lemma OrderIds(stored: seq<TaskNode>, nodes: seq<TaskNode>, ids: seq<TaskId>)
    requires Ids(stored) == ids && DistinctIds(stored) && NoDuplicates(nodes) && Elements(nodes) == Elements(stored)
    ensures NoDuplicates(Ids(nodes)) && Elements(Ids(nodes)) == Elements(ids)
  {
    var order := Ids(nodes);
    forall i, j | 0 <= i < j < |nodes| ensures order[i] != order[j] {
      assert nodes[i] in Elements(stored) && nodes[j] in Elements(stored);
      var a :| 0 <= a < |stored| && stored[a] == nodes[i];
      var b :| 0 <= b < |stored| && stored[b] == nodes[j];
      assert ids[a] == order[i] && ids[b] == order[j];
    }
    forall t ensures t in order <==> t in ids {
      IdsMember(nodes, t);
      IdsMember(stored, t);
      assert forall n :: n in Elements(nodes) <==> n in Elements(stored);
    }
  }

  // ---------------------------------------------------------------- the class

  class GoalTaskGraph {
    var tasks: TaskTable
    var goalTasks: map<GoalId, seq<TaskId>>
    var completedTasks: set<TaskId>
    var failedTasks: set<TaskId>
    var goal: Option<GoalStatus>

    ghost predicate Valid()
      reads this
    {
      forall t :: t in tasks ==> tasks[t].id == t
    }

    constructor (goal: Option<GoalStatus>)
      ensures Valid() && tasks == map[] && goalTasks == map[] && completedTasks == failedTasks == {}
      ensures this.goal == goal
    {
      tasks, goalTasks, completedTasks, failedTasks := map[], map[], {}, {};
      this.goal := goal;
    }

    /** `_store_tasks`: later nodes replace earlier ones with the same id. */
    method StoreTasks(goalId: GoalId, nodes: seq<TaskNode>)
      requires Valid()
      modifies this`tasks, this`goalTasks
      ensures Valid()
      ensures goalTasks == old(goalTasks)[goalId := Ids(nodes)]
      ensures tasks.Keys == old(tasks).Keys + Elements(Ids(nodes))
      ensures forall t :: t in old(tasks) && t !in Ids(nodes) ==> tasks[t] == old(tasks)[t]
      ensures forall t :: t in Ids(nodes) ==> tasks[t] in nodes
      ensures DistinctIds(nodes) ==> forall n :: n in nodes ==> tasks[n.id] == n
    {
      var ids := Ids(nodes);
      for i := 0 to |nodes|
        invariant Valid() && goalTasks == old(goalTasks)
        invariant tasks.Keys == old(tasks).Keys + Elements(ids[..i])
        invariant forall t :: t in old(tasks) && t !in ids[..i] ==> tasks[t] == old(tasks)[t]
        invariant forall t :: t in ids[..i] ==> tasks[t] in nodes
        invariant DistinctIds(nodes) ==> forall k :: 0 <= k < i ==> tasks[nodes[k].id] == nodes[k]
      {
        assert ids[..i + 1] == ids[..i] + [nodes[i].id];
        tasks := tasks[nodes[i].id := nodes[i]];
      }
      assert ids[..|nodes|] == ids;
      goalTasks := goalTasks[goalId := ids];
    }

    function Now(): Board
      reads this
    {
      Board(tasks, completedTasks, failedTasks)
    }

    function TasksForGoal(goalId: GoalId): (nodes: seq<TaskNode>)
      reads this
    {
      if goalId in goalTasks then Stored(tasks, goalTasks[goalId]) else []
    }

    /** `get_execution_order`: Kahn's part, then whatever a cycle kept back, in any order. */
    method GetExecutionOrder(nodes: seq<TaskNode>) returns (order: seq<TaskNode>, ghost kahn: seq<TaskId>)
      requires Valid()
      ensures forall n :: n in order <==> n.id in Ids(nodes) && n.id in tasks && n == tasks[n.id]
      ensures DistinctIds(nodes) && (forall n :: n in nodes ==> n.id in tasks && tasks[n.id] == n) ==>
                && NoDuplicates(order) && Elements(order) == Elements(nodes)
                && kahn <= Ids(order)
                && Topological(GraphOf(nodes), kahn) && Saturated(GraphOf(nodes), kahn)
                && (|kahn| == |order| <==> !Cyclic(GraphOf(nodes)))
    {
      var ids := Ids(nodes);
      var sequence := KahnOrder(nodes);
      kahn := sequence;
      forall t | t in sequence ensures t in ids {
        assert t in multiset(sequence);
      }
      var remaining := (set t | t in ids) - (set t | t in sequence);
      if |sequence| != |ids| {
        while remaining != {}
          invariant kahn <= sequence
          invariant forall t :: t in sequence || t in remaining <==> t in ids
          invariant forall t :: t in sequence ==> t !in remaining
          invariant DistinctIds(nodes) ==> NoDuplicates(sequence)
          decreases remaining
        {
          var t :| t in remaining;
          sequence, remaining := sequence + [t], remaining - {t};
        }
      } else {
        SameSizeSameIds(kahn, ids);
      }
      order := Stored(tasks, sequence);
      OrderMembers(tasks, nodes, sequence);
      if DistinctIds(nodes) && forall n :: n in nodes ==> n.id in tasks && tasks[n.id] == n {
        OrderOnce(tasks, nodes, sequence);
        KahnCovers(nodes, kahn, sequence);
      }
    }

    /** `execute_task`: one call of the executor.  Called directly, it returns only if nothing raises in it. */
    method ExecuteTask(t: TaskId, executor: Executor) returns (end: CallEnd)
      requires Valid()
      modifies this`tasks, this`completedTasks, this`failedTasks
      ensures Valid()
      ensures t !in old(tasks) ==>
                && end == Returns(TaskFailed(TaskNotFound)) && tasks == old(tasks)
                && completedTasks == old(completedTasks) && failedTasks == old(failedTasks)
      ensures t in old(tasks) ==> end == EndOf(executor(t)) && Now() == BoardAfter(old(Now()), t, executor(t))
    {
      if t !in tasks {
        return Returns(TaskFailed(TaskNotFound));
      }
      var task := tasks[t].(status := Running);
      tasks := tasks[t := task];
      match executor(t) {
        case Returned(value) =>
          tasks := tasks[t := task.(status := Completed, result := Some(value))];
          completedTasks := completedTasks + {t};
        case Raised(message) =>
          tasks := tasks[t := task.(status := Failed, error := Some(ExecutorRaised(message)))];
          failedTasks := failedTasks + {t};
        case ReturnedThenRaised(value, message) =>
          task := task.(status := Completed, result := Some(value));
          completedTasks := completedTasks + {t};
          tasks := tasks[t := task.(status := Failed, error := Some(ExecutorRaised(message)))];
          failedTasks := failedTasks + {t};
        case NeverStarted(_) =>
      }
      end := EndOf(executor(t));
    }

    /** The round-robin assignment of `maxParallel` agents. */
    method AssignAgents(ids: seq<TaskId>, maxParallel: nat)
      requires Valid() && maxParallel > 0 && Elements(ids) <= tasks.Keys
      modifies this`tasks
      ensures Valid() && tasks == WithAgents(old(tasks), ids, maxParallel)
    {
      for i := 0 to |ids|
        invariant Valid() && tasks.Keys == old(tasks).Keys
        invariant tasks == WithAgents(old(tasks), ids[..i], maxParallel)
      {
        assert ids[..i + 1][..i] == ids[..i];
        assert ids[i] in Elements(ids);
        tasks := tasks[ids[i] := tasks[ids[i]].(assignedAgent := Some(i % maxParallel))];
      }
      assert ids[..|ids|] == ids;
    }

    /** One task of a round leaves `remaining` and runs. */
    method RunOne(t: TaskId, executor: Executor, remaining0: set<TaskId>, results0: Results,
                  ghost p: Plan, ghost r0: Trace)
        returns (remaining: set<TaskId>, results: Results, ghost r: Trace)
      requires Valid() && Scheduled(p, r0) && executor == p.executor
      requires InRun(p, r0.done, Now(), remaining0, results0)
      requires t in remaining0 && t in p.eligible && Startable(p.deps, executor, r0.done, t)
      modifies this`tasks, this`completedTasks, this`failedTasks
      ensures Valid() && Scheduled(p, r) && r == Trace(r0.handed + [t], r0.done + {t}) && remaining == remaining0 - {t}
      ensures InRun(p, r.done, Now(), remaining, results)
    {
      InRunStep(p, r0.done, Now(), remaining0, results0, t);
      ScheduleAppend(p.deps, p.eligible, executor, r0.handed, r0.done, t);
      r := Trace(r0.handed + [t], r0.done + {t});
      remaining := remaining0 - {t};
      var end := ExecuteTask(t, executor);
      results := results0[t := Caught(end)];
    }

    /** One round: the tasks of the batch run.  It raises exactly if the batch repeats an id. */
    method RunBatch(batch: seq<TaskId>, executor: Executor, remaining0: set<TaskId>, results0: Results,
                    ghost p: Plan, ghost r0: Trace)
        returns (ok: bool, remaining: set<TaskId>, results: Results, ghost r: Trace)
      requires Valid() && Scheduled(p, r0) && executor == p.executor
      requires InRun(p, r0.done, Now(), remaining0, results0)
      requires forall t :: t in batch ==> t in remaining0 && t in p.eligible && Startable(p.deps, executor, r0.done, t)
      modifies this`tasks, this`completedTasks, this`failedTasks
      ensures Valid() && Scheduled(p, r)
      ensures InRun(p, r.done, Now(), remaining, results)
      ensures ok && batch != [] ==> remaining < remaining0
      ensures ok <==> NoDuplicates(batch)
      ensures ok ==> r.handed == r0.handed + batch
    {
      ok, remaining, results, r := true, remaining0, results0, r0;
      for i := 0 to |batch|
        invariant Valid() && Scheduled(p, r)
        invariant InRun(p, r.done, Now(), remaining, results)
        invariant r0.done <= r.done && remaining == remaining0 - Elements(batch[..i])
        invariant NoDuplicates(batch[..i]) && r.handed == r0.handed + batch[..i]
      {
        var t := batch[i];
        OneMoreOf(batch, i);
        AppendOne(r0.handed, batch, i);
        if t !in remaining {
          assert t in batch[..i];
          ok := false;
          return;
        }
        remaining, results, r := RunOne(t, executor, remaining, results, p, r);
      }
      assert batch[..|batch|] == batch;
      if batch != [] {
        assert batch[0] in remaining0 && batch[0] in batch[..|batch|];
      }
    }

    /** A round with nothing to start: is there a cycle among the tasks left over? */
    method DeadlockTest(ids: seq<TaskId>, remaining: set<TaskId>, ghost deps: Graph, ghost run: set<TaskId>)
        returns (ending: Ending)
      requires Valid() && deps == GoalDeps(tasks, Elements(ids))
      requires remaining == deps.Keys - run && remaining != {}
      ensures ending == if StuckForEver(deps, run) then Hung else Left
    {
      KeptDrawLeftover(tasks, ids, deps, run);
      var cyclic := HasCycle(Keep(Stored(tasks, ids), remaining));
      ending := if cyclic then Left else Hung;
    }

    /** The body of the `while remaining` loop.  It raises exactly if the batch of the round repeats an id. */
    method RunRound(ids: seq<TaskId>, executor: Executor, maxParallel: nat, remaining0: set<TaskId>, results0: Results,
                    ghost before: TaskTable, ghost p: Plan, ghost r0: Trace)
        returns (ending: Option<Ending>, remaining: set<TaskId>, results: Results, ghost r: Trace)
      requires Valid() && maxParallel > 0 && remaining0 != {} && ids == p.ids && executor == p.executor
      requires PlanFor(p, before, maxParallel) && Scheduled(p, r0)
      requires InRun(p, r0.done, Now(), remaining0, results0)
      modifies this`tasks, this`completedTasks, this`failedTasks
      ensures Valid() && Scheduled(p, r)
      ensures InRun(p, r.done, Now(), remaining, results)
      ensures ending.Some? ==> Verdict(p, r.done, ending.value)
      ensures ending == Some(Broken) <==>
                !NoDuplicates(Batch(ReadyIds(old(tasks), old(completedTasks), remaining0, ids), maxParallel))
      ensures ending == Some(Broken) ==> maxParallel > 1
      ensures ending == None ==>
                && remaining < remaining0
                && r.handed == r0.handed +
                     Batch(ReadyIds(old(tasks), old(completedTasks), remaining0, ids), maxParallel)
    {
      WithAgentsFrame(before, ids, maxParallel);
      NothingReady(before, p.start, ids, executor, r0.done, tasks, remaining0);
      var ready := ReadyIds(tasks, completedTasks, remaining0, ids);
      if ready == [] {
        DepsKept(p, before, maxParallel, r0.done, {});
        var verdict := DeadlockTest(ids, remaining0, p.deps, r0.done);
        return Some(verdict), remaining0, results0, r0;
      }
      var batch := Batch(ready, maxParallel);
      var ok;
      ok, remaining, results, r := RunBatch(batch, executor, remaining0, results0, p, r0);
      ending := if ok then None else Some(Broken);
    }

    /** The `while remaining` loop. */
    method RunRounds(ids: seq<TaskId>, executor: Executor, maxParallel: nat, ghost before: TaskTable, ghost p: Plan)
        returns (ending: Ending, remaining: set<TaskId>, results: Results, ghost r: Trace)
      requires Valid() && maxParallel > 0 && ids == p.ids && executor == p.executor
      requires PlanFor(p, before, maxParallel) && Now() == Board(p.start, {}, {})
      modifies this`tasks, this`completedTasks, this`failedTasks
      ensures Valid() && Scheduled(p, r)
      ensures InRun(p, r.done, Now(), remaining, results)
      ensures Verdict(p, r.done, ending) && (ending == Broken ==> maxParallel > 1)
    {
      WithAgentsFrame(before, ids, maxParallel);
      InRunStart(p);
      remaining, results, r := set t | t in ids, map[], Trace([], {});
      assert remaining == p.deps.Keys;
      while remaining != {}
        invariant Valid() && Scheduled(p, r)
        invariant InRun(p, r.done, Now(), remaining, results)
        decreases remaining
      {
        var verdict;
        verdict, remaining, results, r := RunRound(ids, executor, maxParallel, remaining, results, before, p, r);
        if verdict.Some? {
          ending := verdict.value;
          return;
        }
      }
      NothingRemains(p, r.done);
      ending := Left;
    }

    /** The `execution_order` entry of the summary. */
    method OrderOfGoal(ids: seq<TaskId>, ghost deps: Graph) returns (order: seq<TaskId>)
      requires Valid() && Elements(ids) <= tasks.Keys && deps == GoalDeps(tasks, Elements(ids))
      ensures Ordered(ids, deps, order)
    {
      var stored := Stored(tasks, ids);
      var nodes, kahn := GetExecutionOrder(stored);
      order := Ids(nodes);
      if NoDuplicates(ids) {
        StoredDraws(tasks, ids);
        OrderIds(stored, nodes, ids);
        assert order[..|kahn|] == kahn;
        assert StartsWithKahnsPart(deps, order, |kahn|);
      }
    }

    /** The counts of the summary and the final status of the goal. */
    method Conclude(ids: seq<TaskId>, results: Results, ghost p: Plan, ghost completed: nat, ghost failed: nat)
        returns (report: Report)
      requires Valid() && ids == p.ids && Elements(ids) <= tasks.Keys && p.deps == GoalDeps(tasks, Elements(ids))
      requires completed == |CompletedOf(results)| && failed == |FailedOf(results)|
      modifies this`goal
      ensures Valid() && Summary(report, p, completed, failed, goal) && report.results == results
    {
      var returned, others := |CompletedOf(results)|, |FailedOf(results)|;
      goal := Some(if others == 0 || returned != 0 then GoalCompleted else GoalFailed);
      var order := OrderOfGoal(ids, p.deps);
      report := Report(OverallOf(returned, others), |ids|, returned, others, results, order);
    }

    /** The loop was left: the cycle branch fails every task left over, then the counts. */
    method FinishRun(ids: seq<TaskId>, remaining: set<TaskId>, results: Results, ghost p: Plan, ghost last: Board,
                     ghost completed: nat, ghost failed: nat) returns (report: Report)
      requires Valid() && ids == p.ids && Elements(ids) <= tasks.Keys
      requires last == Board(AfterCycle(tasks, remaining), completedTasks, failedTasks + remaining)
      requires p.deps == GoalDeps(last.tasks, Elements(ids))
      requires completed == |CompletedOf(WithCycleResults(results, remaining))|
      requires failed == |FailedOf(WithCycleResults(results, remaining))|
      modifies this`tasks, this`failedTasks, this`goal
      ensures Valid() && Now() == last && Summary(report, p, completed, failed, goal)
      ensures report.results == WithCycleResults(results, remaining)
    {
      tasks, failedTasks := AfterCycle(tasks, remaining), failedTasks + remaining;
      report := Conclude(ids, WithCycleResults(results, remaining), p, completed, failed);
    }

    /** What follows the loop, for each way it can end. */
    method Finish(ending: Ending, ids: seq<TaskId>, remaining: set<TaskId>, results: Results,
                  ghost p: Plan, ghost r: Trace, ghost last: Board) returns (outcome: Outcome)
      requires Valid() && ids == p.ids && Elements(ids) <= tasks.Keys
      requires last == if ending != Left then Now()
                       else Board(AfterCycle(tasks, remaining), completedTasks, failedTasks + remaining)
      requires p.deps == GoalDeps(AfterCycle(tasks, remaining), Elements(ids))
      requires |CompletedOf(WithCycleResults(results, remaining))| == |Reported(p.executor, r.done)| <= |p.deps|
      requires |FailedOf(WithCycleResults(results, remaining))| == |p.deps| - |Reported(p.executor, r.done)|
      requires WithCycleResults(results, remaining) == FinalResults(p, r.done)
      modifies this`tasks, this`failedTasks, this`goal
      ensures Valid() && Now() == last && Reports(p, r, outcome, goal)
      ensures ending == EndingOf(outcome) && (outcome.Spins? || outcome.RepeatedTask? || outcome.Done?)
    {
      if ending.Left? {
        ghost var completed := |Reported(p.executor, r.done)|;
        var report := FinishRun(ids, remaining, results, p, last, completed, |p.deps| - completed);
        outcome := Done(report);
      } else {
        outcome := if ending.Hung? then Spins else RepeatedTask;
      }
    }

    /** The assignment of agents and the loop.  `last` is the board when the run is over. */
    method RunPool(ids: seq<TaskId>, executor: Executor, maxParallel: nat, ghost p: Plan)
        returns (ending: Ending, remaining: set<TaskId>, results: Results, ghost r: Trace, ghost last: Board)
      requires Valid() && maxParallel > 0 && ids == p.ids && executor == p.executor
      requires completedTasks == failedTasks == {}
      requires PlanFor(p, tasks, maxParallel)
      modifies this`tasks, this`completedTasks, this`failedTasks
      ensures Valid() && RunCore(p, r, ending, last) && (ending == Broken ==> maxParallel > 1)
      ensures last == if ending != Left then Now()
                      else Board(AfterCycle(tasks, remaining), completedTasks, failedTasks + remaining)
      ensures Elements(ids) <= tasks.Keys && p.deps == GoalDeps(AfterCycle(tasks, remaining), Elements(ids))
      ensures |CompletedOf(WithCycleResults(results, remaining))| == |Reported(p.executor, r.done)| <= |p.deps|
      ensures |FailedOf(WithCycleResults(results, remaining))| == |p.deps| - |Reported(p.executor, r.done)|
      ensures WithCycleResults(results, remaining) == FinalResults(p, r.done)
    {
      ghost var before := tasks;
      WithAgentsFrame(tasks, ids, maxParallel);
      AssignAgents(ids, maxParallel);
      ending, remaining, results, r := RunRounds(ids, executor, maxParallel, before, p);
      DepsKept(p, before, maxParallel, r.done, remaining);
      FinalCounts(p, r.done, Now(), remaining, results);
      last := FinalBoard(p, r.done, ending);
    }

    /** The part of `execute_graph` inside the pool, and the summary. */
    method RunGoal(ids: seq<TaskId>, executor: Executor, maxParallel: nat)
        returns (outcome: Outcome, ghost r: Trace, ghost b: Board)
      requires Valid() && maxParallel > 0 && Elements(ids) <= tasks.Keys
      requires completedTasks == failedTasks == {}
      modifies this`tasks, this`completedTasks, this`failedTasks, this`goal
      ensures Valid() && Now() == b
      ensures RunResult(PlanOf(old(tasks), ids, executor, maxParallel), r, outcome, b, goal)
      ensures outcome.RepeatedTask? ==> maxParallel > 1
    {
      ghost var p := PlanOf(tasks, ids, executor, maxParallel);
      var ending, remaining, results;
      ending, remaining, results, r, b := RunPool(ids, executor, maxParallel, p);
      outcome := Finish(ending, ids, remaining, results, p, r, b);
    }

    /** The state in which a run begins. */
    method Reset()
      requires Valid()
      modifies this`goal, this`completedTasks, this`failedTasks
      ensures Valid() && goal == Some(GoalExecuting) && completedTasks == failedTasks == {}
    {
      goal, completedTasks, failedTasks := Some(GoalExecuting), {}, {};
    }

    /** `execute_graph`. */
    method ExecuteGraph(goalId: GoalId, executor: Executor, maxParallel: int)
        returns (outcome: Outcome, ghost r: Trace, ghost b: Board)
      requires Valid()
      modifies this
      ensures Valid() && goalTasks == old(goalTasks)
      ensures outcome.NoTasks? <==> old(TasksForGoal(goalId)) == []
      ensures outcome.NoGoalSet? <==> old(TasksForGoal(goalId)) != [] && old(goal).None?
      ensures outcome.NoAgents? <==> old(TasksForGoal(goalId)) != [] && old(goal).Some? && maxParallel <= 0
      ensures outcome.NoTasks? || outcome.NoGoalSet? ==> unchanged(this)
      ensures outcome.NoAgents? ==> tasks == old(tasks) && completedTasks == failedTasks == {}
      ensures outcome.Spins? || outcome.RepeatedTask? || outcome.Done? ==>
                && maxParallel > 0 && (outcome.RepeatedTask? ==> maxParallel > 1)
                && Now() == b
                && RunResult(PlanOf(old(tasks), Ids(old(TasksForGoal(goalId))), executor, maxParallel),
                             r, outcome, b, goal)
    {
      r, b := Trace([], {}), Now();
      var nodes := TasksForGoal(goalId);
      var ids := Ids(nodes);
      if nodes == [] {
        return NoTasks, r, b;
      }
      if goal.None? {
        return NoGoalSet, r, b;
      }
      Reset();
      if maxParallel <= 0 {
        return NoAgents, r, b;
      }
      StoredIdsKnown(tasks, goalTasks[goalId]);
      outcome, r, b := RunGoal(ids, executor, maxParallel);
    }
  }

  ghost function PlanOf(before: TaskTable, ids: seq<TaskId>, executor: Executor, maxParallel: nat): Plan
    requires maxParallel > 0
  {
    Plan(ids, GoalDeps(before, Elements(ids)), PendingAmong(before, Elements(ids)), executor,
         WithAgents(before, ids, maxParallel))
  }

  function EndingOf(outcome: Outcome): Ending {
    match outcome
    case Done(_) => Left
    case Spins => Hung
    case _ => Broken
  }

  // ---------------------------------------------------------------- what the contract amounts to

  /** Safety of every run, finished or not: each task is handed out at most once, and only after all its
      dependencies have completed in this run; every initial part of the run is a schedule too. */
  lemma RunIsSafe(p: Plan, r: Trace, outcome: Outcome, b: Board, goal: Option<GoalStatus>, k: nat)
    requires RunResult(p, r, outcome, b, goal) && k <= |r.handed|
    ensures NoDuplicates(r.handed)
    ensures forall i {:trigger InTime(p.deps, p.executor, r.handed, i)} ::
              0 <= i < |r.handed| ==> InTime(p.deps, p.executor, r.handed, i)
    ensures Schedule(p.deps, p.eligible, p.executor, r.handed[..k], Elements(r.handed[..k]))
  {
    ScheduleMeaning(p.deps, p.eligible, p.executor, r.handed, r.done);
    PartialRun(p.deps, p.eligible, p.executor, r.handed, r.done, k);
  }

  /** No task ends up both completed and failed, exactly if no call raises after its task was counted as completed. */
  lemma DisjointIff(p: Plan, r: Trace, outcome: Outcome, b: Board, goal: Option<GoalStatus>)
    requires RunResult(p, r, outcome, b, goal)
    ensures b.completed !! b.failed <==> forall t :: t in r.handed ==> !p.executor(t).ReturnedThenRaised?
  {
    ScheduleMeaning(p.deps, p.eligible, p.executor, r.handed, r.done);
    assert forall t :: t in r.handed <==> t in r.done;
    if t :| t in r.handed && p.executor(t).ReturnedThenRaised? {
      assert t in b.completed && t in b.failed;
    }
  }

  /** A task that raised after it was counted is reported as failed, but lets its dependants start. */
  lemma FailedTaskReleasesDependant(executor: Executor, d: TaskId, t: TaskId)
    requires d != t && executor(d).ReturnedThenRaised?
    ensures var deps := map[d := [], t := [d]];
            && Schedule(deps, {d, t}, executor, [d, t], {d, t})
            && d in Succeeded(executor, {d, t}) && d in Failing(executor, {d, t}) && ResultOf(executor(d)).TaskFailed?
  {
    var deps := map[d := [], t := [d]];
    ScheduleAppend(deps, {d, t}, executor, [], {}, d);
    ScheduleAppend(deps, {d, t}, executor, [d], {d}, t);
    assert [] + [d] == [d] && [d] + [t] == [d, t] && {} + {d} == {d} && {d} + {t} == {d, t};
  }

  /** The overall status: completed if every task was handed out and its call returned, failed if no call returned. */
  lemma OverallMeans(p: Plan, r: Trace, outcome: Outcome, b: Board, goal: Option<GoalStatus>)
    requires RunResult(p, r, outcome, b, goal) && outcome.Done?
    ensures outcome.report.status == AllCompleted <==>
            forall t :: t in p.deps ==> t in r.done && p.executor(t).Returned?
    ensures outcome.report.status == AllFailed <==>
            p.deps != map[] && forall t :: t in r.done ==> !p.executor(t).Returned?
    ensures outcome.report.status == Partial <==>
            && (exists t :: t in p.deps && !(t in r.done && p.executor(t).Returned?))
            && (exists t :: t in r.done && p.executor(t).Returned?)
    ensures goal == Some(if outcome.report.status == AllFailed then GoalFailed else GoalCompleted)
    ensures var report := outcome.report;
            && report.total == |p.ids| && report.results.Keys == p.deps.Keys
            && report.completed == |set t | t in report.results && report.results[t].TaskCompleted?|
            && report.failed == |set t | t in report.results && report.results[t].TaskFailed?|
  {
    ScheduleMeaning(p.deps, p.eligible, p.executor, r.handed, r.done);
    var reported := Reported(p.executor, r.done);
    assert reported <= p.deps.Keys && |p.deps.Keys| == |p.deps|;
    SubsetCardinality(reported, p.deps.Keys);
    ResultsCounted(p, r.done, outcome.report.results);
    assert reported == p.deps.Keys <==> forall t :: t in p.deps ==> t in r.done && p.executor(t).Returned?;
    if reported != {} {
      var t :| t in reported;
    } else {
      assert forall t :: t in r.done && p.executor(t).Returned? ==> t in reported;
    }
  }

  lemma ResultsCounted(p: Plan, done: set<TaskId>, results: Results)
    requires results == FinalResults(p, done) && done <= p.deps.Keys
    ensures |set t | t in results && results[t].TaskCompleted?| == |Reported(p.executor, done)| <= |p.deps|
    ensures |set t | t in results && results[t].TaskFailed?| == |p.deps| - |Reported(p.executor, done)|
  {
    var reported := Reported(p.executor, done);
    assert (set t | t in results && results[t].TaskCompleted?) == reported;
    assert (set t | t in results && results[t].TaskFailed?) == p.deps.Keys - reported;
    assert |p.deps| == |p.deps.Keys| && p.deps.Keys == reported + (p.deps.Keys - reported);
  }

  /** How a finished, endless or broken run leaves one task. */
  lemma TaskFate(p: Plan, r: Trace, outcome: Outcome, b: Board, goal: Option<GoalStatus>, t: TaskId)
    requires RunResult(p, r, outcome, b, goal) && t in p.start
    ensures t in b.tasks && b.tasks[t].dependsOn == p.start[t].dependsOn
    ensures t in r.done ==>
              var n := b.tasks[t];
              match p.executor(t)
              case Returned(v) => n.status == Completed && n.result == Some(v)
              case Raised(m) => n.status == Failed && n.error == Some(ExecutorRaised(m))
              case ReturnedThenRaised(v, m) =>
                n.status == Failed && n.result == Some(v) && n.error == Some(ExecutorRaised(m))
              case NeverStarted(_) => n.status == Running
    ensures t in p.deps && t !in r.done && outcome.Done? ==>
              b.tasks[t].status == Failed && b.tasks[t].error == Some(CircularDependency)
    ensures t !in p.deps || (t !in r.done && !outcome.Done?) ==> b.tasks[t] == p.start[t]
    ensures t in p.deps && outcome.Done? ==>
              && t in outcome.report.results
              && var result := outcome.report.results[t];
              if t !in r.done then result == TaskFailed(CircularDependency)
              else if p.executor(t).Returned? then result == TaskCompleted(p.executor(t).value)
              else if p.executor(t).NeverStarted? then result == TaskFailed(ExecutorRaised(p.executor(t).message))
              else result == TaskFailed(HandlerRaised)
    ensures t in b.completed <==> t in r.done && (p.executor(t).Returned? || p.executor(t).ReturnedThenRaised?)
    ensures t in b.failed <==>
            if t in r.done then p.executor(t).Raised? || p.executor(t).ReturnedThenRaised?
            else t in p.deps && outcome.Done?
  {
    ScheduleMeaning(p.deps, p.eligible, p.executor, r.handed, r.done);
  }

  /** With distinct ids a call that reaches the pool hangs exactly when the goal has no cycle and some task is
      not pending, depends on something outside the goal, or on a task that does not complete. */
  lemma WhenItHangs(p: Plan, r: Trace, outcome: Outcome, b: Board, goal: Option<GoalStatus>)
    requires RunResult(p, r, outcome, b, goal) && NoDuplicates(p.ids)
    ensures outcome.Spins? <==> !Cyclic(p.deps) && !Unobstructed(p.deps, p.eligible, p.executor)
    ensures !outcome.Spins? ==> outcome.Done?
  {
    HangsIffAcyclicAndObstructed(p.deps, p.eligible, p.executor, r.handed, r.done);
  }

  /** When nothing obstructs and every call returns, the run ends, even on a cyclic goal: it completes exactly the
      tasks with which the reported order starts, Kahn's part, fails exactly the rest, and a rest means a cycle. */
  lemma UnobstructedRunEnds(p: Plan, r: Trace, outcome: Outcome, b: Board, goal: Option<GoalStatus>)
    requires RunResult(p, r, outcome, b, goal) && NoDuplicates(p.ids) && p.deps.Keys == Elements(p.ids)
    requires Unobstructed(p.deps, p.eligible, p.executor) && forall t :: t in p.deps ==> p.executor(t).Returned?
    ensures outcome.Done? && b.failed == p.deps.Keys - b.completed
    ensures var report := outcome.report;
            && report.completed == |b.completed| <= |report.executionOrder|
            && Elements(report.executionOrder[..report.completed]) == b.completed
            && Topological(p.deps, report.executionOrder[..report.completed])
            && report.completed + report.failed == report.total
    ensures b.failed == {} <==> !Cyclic(p.deps)
    ensures b.failed != {} ==> Cyclic(Leftover(p.deps, r.done))
  {
    UnobstructedBoard(p, r, outcome, b, goal);
    AllReturned(p, r);
    var order := outcome.report.executionOrder;
    var n: nat :| StartsWithKahnsPart(p.deps, order, n);
    OrderStartsWithRun(p, r, order, n);
    CyclesAreLeftOver(p.deps, p.eligible, p.executor, r.handed, r.done);
    DistinctCardinality(p.ids);
  }

  lemma UnobstructedBoard(p: Plan, r: Trace, outcome: Outcome, b: Board, goal: Option<GoalStatus>)
    requires RunResult(p, r, outcome, b, goal) && NoDuplicates(p.ids)
    requires Unobstructed(p.deps, p.eligible, p.executor) && forall t :: t in p.deps ==> p.executor(t).Returned?
    ensures outcome.Done? && b.completed == r.done && b.failed == p.deps.Keys - r.done
    ensures r.done <= p.deps.Keys && Exhausted(p.deps, p.eligible, p.executor, r.done)
  {
    WhenItHangs(p, r, outcome, b, goal);
    AllReturned(p, r);
  }

  lemma AllReturned(p: Plan, r: Trace)
    requires Scheduled(p, r) && forall t :: t in p.deps ==> p.executor(t).Returned?
    ensures r.done <= p.deps.Keys
    ensures Succeeded(p.executor, r.done) == r.done == Reported(p.executor, r.done) && Failing(p.executor, r.done) == {}
  {
    ScheduleMeaning(p.deps, p.eligible, p.executor, r.handed, r.done);
  }

  lemma NothingLeft(all: set<TaskId>, done: set<TaskId>)
    requires done <= all
    ensures all - done == {} <==> done == all
  {
    if all - done == {} {
      assert forall t :: t in all ==> t in done || t in all - done;
    }
  }

  lemma OrderStartsWithRun(p: Plan, r: Trace, order: seq<TaskId>, n: nat)
    requires Scheduled(p, r) && Exhausted(p.deps, p.eligible, p.executor, r.done)
    requires Unobstructed(p.deps, p.eligible, p.executor) && StartsWithKahnsPart(p.deps, order, n)
    ensures n == |r.done| && Elements(order[..n]) == r.done
    ensures p.deps.Keys - r.done == {} <==> !Cyclic(p.deps)
  {
    ScheduleMeaning(p.deps, p.eligible, p.executor, r.handed, r.done);
    NothingLeft(p.deps.Keys, r.done);
    HandedOutIsKahnsPart(p.deps, p.eligible, p.executor, r.handed, r.done, order[..n]);
    DistinctCardinality(order[..n]);
    SaturatedCoversIffAcyclic(p.deps, order[..n]);
  }

  /** What a finished run makes of one task. */
  lemma FateOf(before: TaskTable, start: TaskTable, executor: Executor, done: set<TaskId>, rest: set<TaskId>, t: TaskId)
    requires t in before && t in start && start[t].dependsOn == before[t].dependsOn
    ensures var after := AfterCycle(AfterRun(start, executor, done), rest);
            && t in after && after[t].dependsOn == before[t].dependsOn
            && (t in done || t in rest ==> after[t].status != Pending)
  {
  }

  /** After a run that ended, no task of the goal is pending any more ... */
  lemma NothingPendingAfterwards(before: TaskTable, goal: set<TaskId>, ids: seq<TaskId>, maxParallel: nat,
                                 executor: Executor, done: set<TaskId>, tasks: TaskTable)
    requires maxParallel > 0 && goal <= before.Keys
    requires tasks == AfterCycle(AfterRun(WithAgents(before, ids, maxParallel), executor, done),
                                 GoalDeps(before, goal).Keys - done)
    ensures PendingAmong(tasks, goal) == {}
    ensures GoalDeps(tasks, goal) == GoalDeps(before, goal)
  {
    WithAgentsFrame(before, ids, maxParallel);
    forall t | t in goal
      ensures t in tasks && tasks[t].status != Pending && tasks[t].dependsOn == before[t].dependsOn
    {
      FateOf(before, WithAgents(before, ids, maxParallel), executor, done, GoalDeps(before, goal).Keys - done, t);
    }
  }

  /** ... so executing the same acyclic goal a second time never returns. */
  lemma SecondRunHangs(p: Plan, r: Trace, outcome: Outcome, b: Board, goal: Option<GoalStatus>)
    requires RunResult(p, r, outcome, b, goal) && p.eligible == {}
    requires NoDuplicates(p.ids) && p.deps != map[]
    ensures r.handed == []
    ensures outcome.Spins? <==> !Cyclic(p.deps)
  {
    WhenItHangs(p, r, outcome, b, goal);
    ScheduleMeaning(p.deps, p.eligible, p.executor, r.handed, r.done);
    var t :| t in p.deps;
    assert !Unobstructed(p.deps, p.eligible, p.executor);
  }
}
