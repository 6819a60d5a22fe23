/**
 The goal workflow (src/ai/langgraph_workflow.py): planner, coordinator, executor and critic share
 one mutable state, and a conditional edge after the coordinator decides where the run goes.  The
 replies of the language model, and the exceptions around them, are oracles.
 */
module WorkflowStates {
  import opened Options

  type TaskId = string

  datatype GoalStatus =
    GoalPending | Decomposing | Planning | Executing | GoalCompleted | GoalFailed | Paused | RequiresHuman

  datatype TaskStatus = Pending | Ready | Running | Completed | Failed | Skipped | Blocked

  datatype Task = Task(id: TaskId, dependencies: seq<TaskId>, status: TaskStatus, retryCount: int, maxRetries: int)

  /** The shared state: the goal, the current task, and the flags that the edges read.  `executed`
      is a log, in order, of the tasks for which the executor has called the model. */
  datatype State = State(
    status: GoalStatus,
    tasks: seq<Task>,
    current: Option<TaskId>,
    feedback: bool,
    error: bool,
    iteration: int,
    maxIterations: int,
    executed: seq<TaskId>)

  // ---------------------------------------------------------------- the goal's queries

  /** A task id that the source's truth test accepts. */
  predicate Truthy(id: Option<TaskId>) {
    id.Some? && id.value != ""
  }

  /** `get_task`: the first task with the id. */
  function Find(tasks: seq<Task>, id: TaskId): (r: Option<nat>)
    ensures r.Some? ==> r.value < |tasks| && tasks[r.value].id == id
    ensures r.None? ==> forall k :: 0 <= k < |tasks| ==> tasks[k].id != id
  {
    if tasks == [] then None
    else if tasks[0].id == id then Some(0)
    else match Find(tasks[1..], id) case None => None case Some(k) => Some(k + 1)
  }

  lemma {:induction false} FindIsFirst(tasks: seq<Task>, id: TaskId)
    ensures match Find(tasks, id)
            case Some(k) => tasks[k].id == id && forall j :: 0 <= j < k ==> tasks[j].id != id
            case None => forall j :: 0 <= j < |tasks| ==> tasks[j].id != id
  {
    if tasks != [] && tasks[0].id != id {
      FindIsFirst(tasks[1..], id);
    }
  }

  lemma {:induction false} FindAgain(tasks: seq<Task>, tasks': seq<Task>, id: TaskId)
    requires |tasks| == |tasks'| && forall k :: 0 <= k < |tasks| ==> tasks'[k].id == tasks[k].id
    ensures Find(tasks', id) == Find(tasks, id)
  {
    if tasks != [] {
      FindAgain(tasks[1..], tasks'[1..], id);
    }
  }

  function CompletedIds(tasks: seq<Task>): (r: set<TaskId>) {
    set k | 0 <= k < |tasks| && tasks[k].status == Completed :: tasks[k].id
  }

  predicate IsReady(task: Task, completed: set<TaskId>) {
    forall d :: d in task.dependencies ==> d in completed
  }

  /** The position of `get_ready_tasks(...)[0]`. */
  function FirstReady(tasks: seq<Task>, completed: set<TaskId>): (r: Option<nat>)
    ensures r.Some? ==>
              r.value < |tasks| && tasks[r.value].status == Pending && IsReady(tasks[r.value], completed)
    ensures r.None? ==> forall k :: 0 <= k < |tasks| ==> !(tasks[k].status == Pending && IsReady(tasks[k], completed))
  {
    if tasks == [] then None
    else if tasks[0].status == Pending && IsReady(tasks[0], completed) then Some(0)
    else match FirstReady(tasks[1..], completed) case None => None case Some(k) => Some(k + 1)
  }

  lemma {:induction false} FirstReadyIsFirst(tasks: seq<Task>, completed: set<TaskId>)
    ensures match FirstReady(tasks, completed)
            case Some(k) => CanStart(tasks[k], completed) && forall j :: 0 <= j < k ==> !CanStart(tasks[j], completed)
            case None => forall j :: 0 <= j < |tasks| ==> !CanStart(tasks[j], completed)
  {
    if tasks != [] && !CanStart(tasks[0], completed) {
      FirstReadyIsFirst(tasks[1..], completed);
    }
  }

  predicate CanStart(task: Task, completed: set<TaskId>) {
    task.status == Pending && IsReady(task, completed)
  }

  predicate IsComplete(tasks: seq<Task>) {
    forall k :: 0 <= k < |tasks| ==> tasks[k].status == Completed || tasks[k].status == Skipped
  }

  predicate HasFailed(tasks: seq<Task>) {
    exists k :: 0 <= k < |tasks| && tasks[k].status == Failed && tasks[k].retryCount >= tasks[k].maxRetries
  }

  predicate HasBlocked(tasks: seq<Task>) {
    exists k :: 0 <= k < |tasks| && tasks[k].status == Blocked
  }

  function SetStatus(tasks: seq<Task>, k: nat, status: TaskStatus): seq<Task>
    requires k < |tasks|
  {
    tasks[k := tasks[k].(status := status)]
  }

  // ---------------------------------------------------------------- the nodes

  datatype NewTask = NewTask(id: TaskId, dependencies: seq<TaskId>)

  /** A parsed plan, no JSON in the reply, or an exception: after some tasks were added, or after all were. */
  datatype PlannerReply =
    | Plan(tasks: seq<NewTask>)
    | NoJson
    | PlannerRaised(added: seq<NewTask>)
    | PlannedThenRaised(tasks: seq<NewTask>)

  /** The model answers, the model raises, or building the prompt raises outside the handler. */
  datatype ExecutorReply = Replied | ModelRaised | PromptRaised

  datatype CriticReply = Approved | NeedsRevision | CriticRaised | RevisedThenRaised

  /** The critic sends the task back, with or without an exception afterwards. */
  predicate Revises(reply: CriticReply) {
    reply == NeedsRevision || reply == RevisedThenRaised
  }

  function Fresh(plan: seq<NewTask>): (r: seq<Task>)
    ensures |r| == |plan|
    ensures forall k :: 0 <= k < |r| ==> r[k] == Task(plan[k].id, plan[k].dependencies, Pending, 0, 3)
  {
    seq(|plan|, k requires 0 <= k < |plan| => Task(plan[k].id, plan[k].dependencies, Pending, 0, 3))
  }

  function PlannerStep(s: State, reply: PlannerReply): State {
    if s.status != Decomposing then s
    else
      match reply
      case Plan(tasks) => s.(tasks := s.tasks + Fresh(tasks), status := Planning)
      case NoJson => s.(error := true)
      case PlannerRaised(added) => s.(tasks := s.tasks + Fresh(added), error := true)
      case PlannedThenRaised(tasks) => s.(tasks := s.tasks + Fresh(tasks), status := Planning, error := true)
  }

  function Select(s: State, k: nat): State
    requires k < |s.tasks|
  {
    s.(current := Some(s.tasks[k].id), tasks := SetStatus(s.tasks, k, Ready))
  }

  /** The PLANNING branch: start the first ready task, or finish a goal with nothing to do. */
  function Begin(s: State): State {
    match FirstReady(s.tasks, CompletedIds(s.tasks))
    case Some(k) => Select(s, k).(status := Executing)
    case None => if IsComplete(s.tasks) then s.(status := GoalCompleted, current := None) else s
  }

  /** The EXECUTING branch, when the current task has just been completed. */
  function Advance(s: State): State {
    if IsComplete(s.tasks) then s.(status := GoalCompleted, current := None)
    else
      match FirstReady(s.tasks, CompletedIds(s.tasks))
      case Some(k) => Select(s, k)
      case None =>
        if HasFailed(s.tasks) || HasBlocked(s.tasks) then s.(status := GoalFailed, error := true) else s
  }

  predicate CurrentIs(s: State, status: TaskStatus) {
    Truthy(s.current) && var k := Find(s.tasks, s.current.value); k.Some? && s.tasks[k.value].status == status
  }

  function CoordinatorStep(s: State): State {
    if s.feedback then s.(feedback := false)
    else if s.status == Decomposing then s.(status := Planning, current := None)
    else
      var next :=
        if s.status == Planning then Begin(s)
        else if s.status == Executing && CurrentIs(s, Completed) then Advance(s)
        else s;
      next.(iteration := next.iteration + 1)
  }

  function ExecutorStep(s: State, reply: ExecutorReply): State {
    if !Truthy(s.current) then s.(error := true)
    else
      match Find(s.tasks, s.current.value)
      case None => s.(error := true)
      case Some(k) =>
        if s.tasks[k].status != Ready then s
        else
          match reply
          case Replied =>
            s.(tasks := SetStatus(s.tasks, k, Completed), executed := s.executed + [s.current.value])
          case ModelRaised =>
            s.(tasks := SetStatus(s.tasks, k, Failed), error := true, executed := s.executed + [s.current.value])
          case PromptRaised => s.(tasks := SetStatus(s.tasks, k, Running))
  }

  function SentBack(tasks: seq<Task>, k: nat): seq<Task>
    requires k < |tasks|
  {
    tasks[k := tasks[k].(status := Pending, retryCount := tasks[k].retryCount + 1)]
  }

  function CriticStep(s: State, reply: CriticReply): State {
    if !Truthy(s.current) then s
    else
      match Find(s.tasks, s.current.value)
      case None => s
      case Some(k) =>
        if s.tasks[k].status != Completed then s
        else
          match reply
          case Approved => s
          case NeedsRevision => s.(tasks := SentBack(s.tasks, k))
          case CriticRaised => s.(error := true)
          case RevisedThenRaised => s.(tasks := SentBack(s.tasks, k), error := true)
  }

  datatype Edge = Continue | Human | End

  /** `should_continue`. */
  function ShouldContinue(s: State): Edge {
    if s.status == GoalCompleted || s.status == GoalFailed then End
    else if s.status == RequiresHuman then Human
    else if s.error then End
    else if s.iteration >= s.maxIterations then End
    else if s.status == Executing && !Truthy(s.current)
            && FirstReady(s.tasks, CompletedIds(s.tasks)).None? && (IsComplete(s.tasks) || HasFailed(s.tasks)) then End
    else Continue
  }

  // ---------------------------------------------------------------- the graph

  datatype Node = AtPlanner | AtCoordinator | AtExecutor | AtCritic | AtHuman | Ended | Crashed

  /** Where a run is, and how often the coordinator has been visited. */
  datatype Config = Config(node: Node, state: State, visits: nat)

  /** One answer for every node; a step uses the one it needs. */
  datatype Oracle = Oracle(plan: PlannerReply, execution: ExecutorReply, critique: CriticReply)

  function AfterCoordinator(s: State): Node {
    match ShouldContinue(s)
    case Continue => AtExecutor
    case Human => AtHuman
    case End => Ended
  }

  predicate PromptCrashes(s: State, reply: ExecutorReply) {
    reply == PromptRaised && CurrentIs(s, Ready)
  }

  /** One node of the graph, and the edge out of it. */
  function Step(c: Config, o: Oracle): Config {
    match c.node
    case AtPlanner => c.(node := AtCoordinator, state := PlannerStep(c.state, o.plan))
    case AtCoordinator =>
      var s := CoordinatorStep(c.state);
      Config(AfterCoordinator(s), s, c.visits + 1)
    case AtExecutor =>
      c.(node := if PromptCrashes(c.state, o.execution) then Crashed else AtCritic,
         state := ExecutorStep(c.state, o.execution))
    case AtCritic => c.(node := AtCoordinator, state := CriticStep(c.state, o.critique))
    case AtHuman => c.(node := AtCoordinator)
    case Ended => c
    case Crashed => c
  }

  function Run(c: Config, oracles: seq<Oracle>): Config
    decreases |oracles|
  {
    if oracles == [] then c else Run(Step(c, oracles[0]), oracles[1..])
  }

  function Start(s: State): Config {
    Config(AtPlanner, s, 0)
  }

  lemma {:induction false} RunSplit(c: Config, a: seq<Oracle>, b: seq<Oracle>)
    ensures Run(c, a + b) == Run(Run(c, a), b)
    decreases |a|
  {
    if a == [] {
      assert a + b == b;
    } else {
      assert (a + b)[1..] == a[1..] + b;
      RunSplit(Step(c, a[0]), a[1..], b);
    }
  }
}

/** What holds in every reachable state, whatever the model answers. */
module WorkflowSafety {
  import opened Options
  import opened WorkflowStates
  import Graphs = DependencyGraphs

  ghost predicate DistinctIds(tasks: seq<Task>) {
    forall i, j :: 0 <= i < j < |tasks| ==> tasks[i].id != tasks[j].id
  }

  predicate Active(task: Task) {
    task.status == Ready || task.status == Running || task.status == Completed
  }

  /** An active task has only completed dependencies, and does not depend on the current task;
      one that is ready or running is the current task. */
  ghost predicate ActiveOk(s: State, k: nat)
    requires k < |s.tasks|
  {
    Active(s.tasks[k]) ==>
      && IsReady(s.tasks[k], CompletedIds(s.tasks))
      && (s.tasks[k].status != Completed ==> s.current == Some(s.tasks[k].id))
      && (s.current.Some? ==> s.current.value !in s.tasks[k].dependencies)
  }

  /** A task that was executed is completed or failed, or it is the current task of a goal being
      executed and the critic has sent it back; a completed task was executed. */
  ghost predicate ExecutedOk(s: State, k: nat)
    requires k < |s.tasks|
  {
    && (s.tasks[k].status == Completed ==> s.tasks[k].id in s.executed)
    && (s.tasks[k].id in s.executed ==>
          || s.tasks[k].status == Completed || s.tasks[k].status == Failed
          || (s.tasks[k].status == Pending && s.status == Executing && s.current == Some(s.tasks[k].id)))
  }

  /** No task is ready or running. */
  ghost predicate Idle(s: State) {
    forall k :: 0 <= k < |s.tasks| ==> s.tasks[k].status != Ready && s.tasks[k].status != Running
  }

  /** No executed task is pending again. */
  ghost predicate NoneWaiting(s: State) {
    forall k :: 0 <= k < |s.tasks| && s.tasks[k].status == Pending ==> s.tasks[k].id !in s.executed
  }

  ghost predicate Safe(s: State) {
    && DistinctIds(s.tasks)
    && (forall k {:trigger ActiveOk(s, k)} :: 0 <= k < |s.tasks| ==> ActiveOk(s, k))
    && (forall k {:trigger ExecutedOk(s, k)} :: 0 <= k < |s.tasks| ==> ExecutedOk(s, k))
    && (forall t :: t in s.executed ==> Find(s.tasks, t).Some?)
    && Graphs.NoDuplicates(s.executed)
    && (s.status == GoalCompleted ==> IsComplete(s.tasks))
    && (s.status != Executing ==> Idle(s))
    && (s.executed != [] ==> s.status == Executing || s.status == GoalCompleted || s.status == GoalFailed)
  }

  predicate Finished(status: GoalStatus) {
    status == GoalCompleted || status == GoalFailed
  }

  /** Once the goal is completed or failed the run is not on its way to the executor. */
  ghost predicate SafeConfig(c: Config) {
    && Safe(c.state)
    && (c.node == AtExecutor || c.node == AtCritic ==> !Finished(c.state.status))
  }

  /** A goal in which nothing has been started. */
  ghost predicate Initial(s: State) {
    && DistinctIds(s.tasks)
    && (forall k :: 0 <= k < |s.tasks| ==> !Active(s.tasks[k]))
    && s.executed == []
    && s.status != GoalCompleted
  }

  /** The ids the model chooses for new tasks are new. */
  ghost predicate PlanIsFresh(s: State, reply: PlannerReply) {
    match reply
    case Plan(tasks) => DistinctIds(s.tasks + Fresh(tasks))
    case NoJson => true
    case PlannerRaised(added) => DistinctIds(s.tasks + Fresh(added))
    case PlannedThenRaised(tasks) => DistinctIds(s.tasks + Fresh(tasks))
  }

  /** Along the run, every plan that is used is fresh. */
  ghost predicate FreshPlans(c: Config, oracles: seq<Oracle>)
    decreases |oracles|
  {
    oracles != [] ==>
      && (c.node == AtPlanner ==> PlanIsFresh(c.state, oracles[0].plan))
      && FreshPlans(Step(c, oracles[0]), oracles[1..])
  }

  lemma FindDistinct(tasks: seq<Task>, k: nat)
    requires k < |tasks| && DistinctIds(tasks)
    ensures Find(tasks, tasks[k].id) == Some(k)
  {
  }

  lemma CompletedMember(tasks: seq<Task>, t: TaskId)
    ensures t in CompletedIds(tasks) <==>
            exists k :: 0 <= k < |tasks| && tasks[k].status == Completed && tasks[k].id == t
  {
  }

  /** Flags and counters do not matter, and the current task may be dropped or the goal's status
      changed as long as no executed task is waiting for a second attempt. */
  lemma SafeFrame(s: State, s': State)
    requires Safe(s) && s'.tasks == s.tasks && s'.executed == s.executed
    requires s'.current == s.current || (s'.current == None && Idle(s))
    requires (s'.status == s.status && s'.current == s.current) || (Idle(s) && NoneWaiting(s))
    requires s'.status == GoalCompleted ==> IsComplete(s.tasks)
    requires s'.status == s.status || Finished(s'.status) || s.executed == []
    ensures Safe(s')
  {
    forall k | 0 <= k < |s'.tasks| ensures ActiveOk(s', k) && ExecutedOk(s', k) {
      assert ActiveOk(s, k) && ExecutedOk(s, k);
    }
  }

  /** Before a goal is being executed, and when its current task is done, nothing runs and nothing
      executed is waiting. */
  lemma Settled(s: State)
    requires Safe(s) && (s.status != Executing || CurrentIs(s, Completed))
    ensures Idle(s) && NoneWaiting(s)
  {
    forall k | 0 <= k < |s.tasks|
      ensures s.tasks[k].status == Pending ==> s.tasks[k].id !in s.executed
      ensures s.tasks[k].status != Ready && s.tasks[k].status != Running
    {
      assert ActiveOk(s, k) && ExecutedOk(s, k);
      FindDistinct(s.tasks, k);
    }
  }

  lemma CompletedGrows(tasks: seq<Task>, tasks': seq<Task>)
    requires |tasks| <= |tasks'|
    requires forall k :: 0 <= k < |tasks| && tasks[k].status == Completed ==>
               tasks'[k].status == Completed && tasks'[k].id == tasks[k].id
    ensures CompletedIds(tasks) <= CompletedIds(tasks')
  {
    forall t | t in CompletedIds(tasks) ensures t in CompletedIds(tasks') {
      var k :| 0 <= k < |tasks| && tasks[k].status == Completed && tasks[k].id == t;
      assert tasks'[k].id == t;
    }
  }

  lemma PlannerIsSafe(s: State, reply: PlannerReply)
    requires Safe(s) && PlanIsFresh(s, reply)
    ensures Safe(PlannerStep(s, reply))
  {
    var s' := PlannerStep(s, reply);
    if s.status == Decomposing && !reply.NoJson? {
      assert forall k :: 0 <= k < |s.tasks| ==> s'.tasks[k] == s.tasks[k];
      assert forall k :: |s.tasks| <= k < |s'.tasks| ==> s'.tasks[k].status == Pending;
      CompletedGrows(s.tasks, s'.tasks);
      forall k | 0 <= k < |s'.tasks| ensures ActiveOk(s', k) && ExecutedOk(s', k) {
        if k < |s.tasks| {
          assert ActiveOk(s, k) && ExecutedOk(s, k);
        }
      }
    } else {
      SafeFrame(s, s');
    }
  }

  /** Selecting a ready task that was never executed. */
  lemma SelectIsSafe(s: State, k: nat)
    requires Safe(s) && Idle(s) && NoneWaiting(s) && k < |s.tasks| && s.tasks[k].status == Pending
    requires IsReady(s.tasks[k], CompletedIds(s.tasks))
    ensures Safe(Select(s, k).(status := Executing))
  {
    var s' := Select(s, k).(status := Executing);
    assert CompletedIds(s'.tasks) <= CompletedIds(s.tasks) by {
      forall t | t in CompletedIds(s'.tasks) ensures t in CompletedIds(s.tasks) {
        var j :| 0 <= j < |s'.tasks| && s'.tasks[j].status == Completed && s'.tasks[j].id == t;
        assert s.tasks[j].id == t && s.tasks[j].status == Completed;
      }
    }
    CompletedGrows(s.tasks, s'.tasks);
    NotCompletedYet(s.tasks, k);
    forall j | 0 <= j < |s'.tasks| ensures ActiveOk(s', j) && ExecutedOk(s', j) {
      assert ActiveOk(s, j) && ExecutedOk(s, j);
    }
    FindUnchanged(s.tasks, s'.tasks, s.executed);
  }

  lemma NotCompletedYet(tasks: seq<Task>, k: nat)
    requires k < |tasks| && DistinctIds(tasks) && tasks[k].status != Completed
    ensures tasks[k].id !in CompletedIds(tasks)
  {
  }

  lemma FindUnchanged(tasks: seq<Task>, tasks': seq<Task>, ids: seq<TaskId>)
    requires |tasks| == |tasks'| && forall k :: 0 <= k < |tasks| ==> tasks'[k].id == tasks[k].id
    requires forall t :: t in ids ==> Find(tasks, t).Some?
    ensures forall t :: t in ids ==> Find(tasks', t).Some?
  {
    forall t | t in ids ensures Find(tasks', t).Some? {
      var j := Find(tasks, t).value;
      assert tasks'[j].id == t;
    }
  }

  lemma CoordinatorIsSafe(s: State)
    requires Safe(s)
    ensures Safe(CoordinatorStep(s))
  {
    if !s.feedback
       && (s.status == Planning || s.status == Decomposing || (s.status == Executing && CurrentIs(s, Completed))) {
      Settled(s);
    }
    var next := CoordinatorStep(s);
    if !s.feedback && (s.status == Planning || (s.status == Executing && CurrentIs(s, Completed))) {
      match FirstReady(s.tasks, CompletedIds(s.tasks)) {
        case Some(k) =>
          if s.status == Planning || !IsComplete(s.tasks) {
            SelectIsSafe(s, k);
            SafeFrame(Select(s, k).(status := Executing), next);
          } else {
            SafeFrame(s, next);
          }
        case None =>
          SafeFrame(s, next);
      }
    } else {
      SafeFrame(s, next);
    }
  }

  /** The executor runs the current task: it was ready, so it was not executed before. */
  lemma ExecutorIsSafe(s: State, reply: ExecutorReply)
    requires Safe(s) && !Finished(s.status)
    ensures Safe(ExecutorStep(s, reply))
  {
    var s' := ExecutorStep(s, reply);
    if CurrentIs(s, Ready) {
      var k := Find(s.tasks, s.current.value).value;
      assert ActiveOk(s, k) && ExecutedOk(s, k);
      assert s'.tasks == s.tasks[k := s.tasks[k].(status := s'.tasks[k].status)];
      CompletedGrows(s.tasks, s'.tasks);
      FindUnchanged(s.tasks, s'.tasks, s.executed);
      FindUnchanged(s.tasks, s'.tasks, [s.current.value]);
      forall j | 0 <= j < |s'.tasks| ensures ActiveOk(s', j) && ExecutedOk(s', j) {
        assert ActiveOk(s, j) && ExecutedOk(s, j);
        FindDistinct(s.tasks, j);
      }
    } else {
      SafeFrame(s, s');
    }
  }

  /** A revision takes back the current task, at position `k`, on which no active task depends. */
  lemma RevisionKeepsActive(s: State, s': State, k: nat, j: nat)
    requires Safe(s) && k < |s.tasks| && j < |s.tasks| && s.tasks[k].status == Completed
    requires s.current == Some(s.tasks[k].id) && s' == s.(tasks := SentBack(s.tasks, k))
    ensures ActiveOk(s', j)
  {
    assert ActiveOk(s, j);
    if Active(s'.tasks[j]) {
      forall d | d in s'.tasks[j].dependencies ensures d in CompletedIds(s'.tasks) {
        var i :| 0 <= i < |s.tasks| && s.tasks[i].status == Completed && s.tasks[i].id == d;
        assert s'.tasks[i].id == d;
      }
    }
  }

  lemma RevisionIsSafe(s: State)
    requires Safe(s) && !Finished(s.status) && CurrentIs(s, Completed)
    ensures Safe(CriticStep(s, NeedsRevision))
  {
    var s' := CriticStep(s, NeedsRevision);
    var k := Find(s.tasks, s.current.value).value;
    FindUnchanged(s.tasks, s'.tasks, s.executed);
    forall j | 0 <= j < |s'.tasks| ensures ActiveOk(s', j) {
      RevisionKeepsActive(s, s', k, j);
    }
    forall j | 0 <= j < |s'.tasks| ensures ExecutedOk(s', j) {
      assert ExecutedOk(s, j);
      FindDistinct(s.tasks, j);
    }
  }

  lemma CriticIsSafe(s: State, reply: CriticReply)
    requires Safe(s) && !Finished(s.status)
    ensures Safe(CriticStep(s, reply))
  {
    if CurrentIs(s, Completed) && Revises(reply) {
      RevisionIsSafe(s);
      SafeFrame(CriticStep(s, NeedsRevision), CriticStep(s, reply));
    } else {
      SafeFrame(s, CriticStep(s, reply));
    }
  }

  lemma StepIsSafe(c: Config, o: Oracle)
    requires SafeConfig(c) && (c.node == AtPlanner ==> PlanIsFresh(c.state, o.plan))
    ensures SafeConfig(Step(c, o))
  {
    match c.node {
      case AtPlanner => PlannerIsSafe(c.state, o.plan);
      case AtCoordinator => CoordinatorIsSafe(c.state);
      case AtExecutor => ExecutorIsSafe(c.state, o.execution);
      case AtCritic => CriticIsSafe(c.state, o.critique);
      case _ =>
    }
  }

  lemma InitialIsSafe(s: State)
    requires Initial(s)
    ensures SafeConfig(Start(s))
  {
    forall k | 0 <= k < |s.tasks| ensures ActiveOk(s, k) && ExecutedOk(s, k) {
      assert !Active(s.tasks[k]);
    }
  }

  /** Every configuration of every run from an unstarted goal is safe. */
  lemma {:induction false} RunIsSafe(c: Config, oracles: seq<Oracle>)
    requires SafeConfig(c) && FreshPlans(c, oracles)
    ensures SafeConfig(Run(c, oracles))
    decreases |oracles|
  {
    if oracles != [] {
      StepIsSafe(c, oracles[0]);
      RunIsSafe(Step(c, oracles[0]), oracles[1..]);
    }
  }

  /** A run that has ended can be resumed, with or without feedback, and stays safe. */
  lemma ResumeIsSafe(c: Config, feedback: bool)
    requires SafeConfig(c)
    ensures SafeConfig(Start(c.state.(feedback := feedback)))
  {
    SafeFrame(c.state, c.state.(feedback := feedback));
  }

  /** The safety properties in plain terms, for every run from an unstarted goal. */
  lemma ReachableStates(s0: State, oracles: seq<Oracle>, k: nat)
    requires Initial(s0) && FreshPlans(Start(s0), oracles)
    requires k < |Run(Start(s0), oracles).state.tasks|
    ensures var s := Run(Start(s0), oracles).state;
            var task := s.tasks[k];
            && (Active(task) ==> forall d :: d in task.dependencies ==>
                  exists j :: 0 <= j < |s.tasks| && s.tasks[j].id == d && s.tasks[j].status == Completed)
            && (task.status == Ready || task.status == Running ==> s.current == Some(task.id))
            && (Active(task) && s.current.Some? ==> s.current.value !in task.dependencies)
            && (task.status == Completed ==> task.id in s.executed)
            && Graphs.NoDuplicates(s.executed)
            && (s.status == GoalCompleted ==> task.status == Completed || task.status == Skipped)
  {
    InitialIsSafe(s0);
    RunIsSafe(Start(s0), oracles);
    assert ActiveOk(Run(Start(s0), oracles).state, k) && ExecutedOk(Run(Start(s0), oracles).state, k);
  }

  // ---------------------------------------------------------------- why the ids must be distinct

  /** Three tasks, two of them called "a"; the one called "b" depends on "a". */
  function TwoCalledA(a1: TaskStatus, b: TaskStatus, a2: TaskStatus, retries: int): seq<Task> {
    [Task("a", [], a1, retries, 3), Task("b", ["a"], b, 0, 3), Task("a", [], a2, 0, 3)]
  }

  lemma CompletedOfTwo(a1: TaskStatus, b: TaskStatus, a2: TaskStatus, retries: int)
    ensures "a" in CompletedIds(TwoCalledA(a1, b, a2, retries)) <==> a1 == Completed || a2 == Completed
  {
    var tasks := TwoCalledA(a1, b, a2, retries);
    assert tasks[0].id == "a" && tasks[2].id == "a" && tasks[1].id == "b";
    CompletedMember(tasks, "a");
  }

  lemma FirstReadyOfTwo(a1: TaskStatus, b: TaskStatus, a2: TaskStatus, retries: int)
    ensures FirstReady(TwoCalledA(a1, b, a2, retries), CompletedIds(TwoCalledA(a1, b, a2, retries))) ==
            if a1 == Pending then Some(0)
            else if b == Pending && (a1 == Completed || a2 == Completed) then Some(1)
            else if a2 == Pending then Some(2) else None
  {
    var tasks := TwoCalledA(a1, b, a2, retries);
    CompletedOfTwo(a1, b, a2, retries);
    var completed := CompletedIds(tasks);
    assert "a" in tasks[1].dependencies;
    assert IsReady(tasks[1], completed) <==> "a" in completed;
    var two, one := [tasks[1], tasks[2]], [tasks[2]];
    assert tasks[1..] == two && two[1..] == one && one[1..] == [];
    assert FirstReady(one, completed) == if a2 == Pending then Some(0) else None;
    assert FirstReady(two, completed) ==
           if b == Pending && "a" in completed then Some(0) else if a2 == Pending then Some(1) else None;
  }

  /** The run on these tasks, just after the coordinator has chosen a task for the `n`th time. */
  function Chosen(a1: TaskStatus, b: TaskStatus, a2: TaskStatus, current: TaskId, n: nat, executed: seq<TaskId>)
    : Config
  {
    Config(AtExecutor, State(Executing, TwoCalledA(a1, b, a2, 0), Some(current), false, false, n, 50, executed), n)
  }

  /** The first "a" is chosen. */
  lemma ChooseFirstA(o: Oracle)
    ensures var s0 := State(Planning, TwoCalledA(Pending, Pending, Pending, 0), None, false, false, 0, 50, []);
            Step(Step(Start(s0), o), o) == Chosen(Ready, Pending, Pending, "a", 1, [])
  {
    FirstReadyOfTwo(Pending, Pending, Pending, 0);
    assert TwoCalledA(Pending, Pending, Pending, 0)[0 := Task("a", [], Ready, 0, 3)] ==
           TwoCalledA(Ready, Pending, Pending, 0);
  }

  /** When the current task is completed and a task is left, the coordinator chooses the first that is ready. */
  lemma CoordinatorChooses(c: Config, o: Oracle, at: nat, k: nat)
    requires c.node == AtCoordinator && c.state.status == Executing && !c.state.feedback && !c.state.error
    requires Truthy(c.state.current) && Find(c.state.tasks, c.state.current.value) == Some(at)
    requires c.state.tasks[at].status == Completed
    requires FirstReady(c.state.tasks, CompletedIds(c.state.tasks)) == Some(k)
    requires c.state.iteration + 1 < c.state.maxIterations && c.state.tasks[k].id != ""
    ensures Step(c, o) ==
            Config(AtExecutor, Select(c.state, k).(iteration := c.state.iteration + 1), c.visits + 1)
  {
    assert !IsComplete(c.state.tasks) by {
      assert c.state.tasks[k].status == Pending;
    }
    assert CurrentIs(c.state, Completed);
  }

  /** It completes, and "b" is chosen. */
  lemma ChooseB(o: Oracle)
    requires o.execution == Replied && o.critique == Approved
    ensures Step(Step(Step(Chosen(Ready, Pending, Pending, "a", 1, []), o), o), o) ==
            Chosen(Completed, Ready, Pending, "b", 2, ["a"])
  {
    FirstReadyOfTwo(Completed, Pending, Pending, 0);
    var c := Chosen(Ready, Pending, Pending, "a", 1, []);
    var d := Reviewed(c, o, 0);
    assert d.state.tasks == TwoCalledA(Completed, Pending, Pending, 0) && d.state.executed == ["a"];
    CoordinatorChooses(d, o, 0, 1);
    assert SetStatus(d.state.tasks, 1, Ready) == TwoCalledA(Completed, Ready, Pending, 0);
  }

  /** The executor runs the current task, at position `k`, and the critic approves it. */
  lemma Reviewed(c: Config, o: Oracle, k: nat) returns (d: Config)
    requires o.execution == Replied && o.critique == Approved
    requires c.node == AtExecutor && Truthy(c.state.current) && Find(c.state.tasks, c.state.current.value) == Some(k)
    requires c.state.tasks[k].status == Ready
    ensures d == Step(Step(c, o), o)
    ensures d == c.(node := AtCoordinator, state := ExecutorStep(c.state, Replied))
    ensures d.state.tasks == SetStatus(c.state.tasks, k, Completed)
    ensures Find(d.state.tasks, c.state.current.value) == Some(k)
  {
    d := Step(Step(c, o), o);
    var tasks := SetStatus(c.state.tasks, k, Completed);
    FindAgain(c.state.tasks, tasks, c.state.current.value);
    assert Step(c, o) == c.(node := AtCritic, state := ExecutorStep(c.state, Replied));
  }

  /** It completes, and the second "a" is chosen. */
  lemma ChooseSecondA(o: Oracle)
    requires o.execution == Replied && o.critique == Approved
    ensures Step(Step(Step(Chosen(Completed, Ready, Pending, "b", 2, ["a"]), o), o), o)
         == Chosen(Completed, Completed, Ready, "a", 3, ["a", "b"])
  {
    FirstReadyOfTwo(Completed, Completed, Pending, 0);
    var c := Chosen(Completed, Ready, Pending, "b", 2, ["a"]);
    FindB(c.state.tasks);
    var d := Reviewed(c, o, 1);
    assert d.state.tasks == TwoCalledA(Completed, Completed, Pending, 0) && d.state.executed == ["a", "b"];
    CoordinatorChooses(d, o, 1, 2);
    assert SetStatus(d.state.tasks, 2, Ready) == TwoCalledA(Completed, Completed, Ready, 0);
  }

  lemma FindB(tasks: seq<Task>)
    requires |tasks| == 3 && tasks[0].id == "a" && tasks[1].id == "b"
    ensures Find(tasks, "b") == Some(1)
  {
    assert Find(tasks[1..], "b") == Some(0);
  }

  /** The executor and the critic then look at the first "a". */
  lemma SendBackFirstA(o: Oracle, revise: Oracle)
    requires revise.critique == NeedsRevision
    ensures Step(Step(Chosen(Completed, Completed, Ready, "a", 3, ["a", "b"]), o), revise).state.tasks
         == TwoCalledA(Pending, Completed, Ready, 1)
  {
  }

  /** Without distinct ids a completed task can lose its dependency: selecting the second "a" sends
      the first one back to the critic, after "b" has been completed on its strength. */
  lemma RepeatedIdsAreUnsafe(o: Oracle, revise: Oracle)
    requires o.execution == Replied && o.critique == Approved
    requires revise.execution == Replied && revise.critique == NeedsRevision
    ensures var s0 := State(Planning, TwoCalledA(Pending, Pending, Pending, 0), None, false, false, 0, 50, []);
            var tasks := Run(Start(s0), [o, o, o, o, o, o, o, o, o, revise]).state.tasks;
            && tasks == TwoCalledA(Pending, Completed, Ready, 1)
            && tasks[1].status == Completed && "a" in tasks[1].dependencies && "a" !in CompletedIds(tasks)
  {
    var s0 := State(Planning, TwoCalledA(Pending, Pending, Pending, 0), None, false, false, 0, 50, []);
    TenSteps(Start(s0), o, revise);
    ChooseFirstA(o);
    ChooseB(o);
    ChooseSecondA(o);
    SendBackFirstA(o, revise);
    CompletedOfTwo(Pending, Completed, Ready, 1);
  }

  lemma TenSteps(c: Config, o: Oracle, last: Oracle)
    ensures Run(c, [o, o, o, o, o, o, o, o, o, last]) ==
            Step(Step(Step(Step(Step(Step(Step(Step(Step(Step(c, o), o), o), o), o), o), o), o), o), last)
  {
    RunSplit(c, [o, o, o, o, o], [o, o, o, o, last]);
    assert [o, o, o, o, o] + [o, o, o, o, last] == [o, o, o, o, o, o, o, o, o, last];
    FiveSteps(c, o, o);
    FiveSteps(Run(c, [o, o, o, o, o]), o, last);
  }

  lemma FiveSteps(c: Config, o: Oracle, last: Oracle)
    ensures Run(c, [o, o, o, o, last]) == Step(Step(Step(Step(Step(c, o), o), o), o), last)
  {
    assert [o, o, o, o, last][1..] == [o, o, o, last];
    assert [o, o, o, last][1..] == [o, o, last];
    assert [o, o, last][1..] == [o, last];
    assert [o, last][1..] == [last];
    assert Run(c, [o, o, o, o, last]) == Run(Step(c, o), [o, o, o, last]);
    assert Run(Step(c, o), [o, o, o, last]) == Run(Step(Step(c, o), o), [o, o, last]);
    var c2 := Step(Step(c, o), o);
    assert Run(c2, [o, o, last]) == Run(Step(c2, o), [o, last]);
    assert Run(Step(c2, o), [o, last]) == Run(Step(Step(c2, o), o), [last]);
    var c4 := Step(Step(c2, o), o);
    assert Run(c4, [last]) == Run(Step(c4, last), [last][1..]);
  }
}

/** The nodes as methods over one mutable workflow object. */
module WorkflowNodes {
  import opened Options
  import opened WorkflowStates

  class Workflow {
    var status: GoalStatus
    var tasks: seq<Task>
    var current: Option<TaskId>
    var feedback: bool
    var error: bool
    var iteration: int
    var maxIterations: int
    ghost var executed: seq<TaskId>

    ghost function Snapshot(): State
      reads this
    {
      State(status, tasks, current, feedback, error, iteration, maxIterations, executed)
    }

    /** The initial state that `execute_goal` builds. */
    constructor (status: GoalStatus, tasks: seq<Task>)
      ensures Snapshot() == State(status, tasks, None, false, false, 0, 50, [])
    {
      this.status, this.tasks := status, tasks;
      current, feedback, error, iteration, maxIterations := None, false, false, 0, 50;
      executed := [];
    }

    method AddTasks(plan: seq<NewTask>)
      modifies this`tasks
      ensures tasks == old(tasks) + Fresh(plan)
    {
      for k := 0 to |plan|
        invariant tasks == old(tasks) + Fresh(plan)[..k]
      {
        tasks := tasks + [Task(plan[k].id, plan[k].dependencies, Pending, 0, 3)];
        assert Fresh(plan)[..k + 1] == Fresh(plan)[..k] + [Fresh(plan)[k]];
      }
      assert Fresh(plan)[..|plan|] == Fresh(plan);
    }

    method Planner(reply: PlannerReply)
      modifies this
      ensures Snapshot() == PlannerStep(old(Snapshot()), reply)
    {
      if status != Decomposing {
        return;
      }
      match reply {
        case Plan(plan) =>
          AddTasks(plan);
          status := Planning;
        case NoJson =>
          error := true;
        case PlannerRaised(added) =>
          AddTasks(added);
          error := true;
        case PlannedThenRaised(plan) =>
          AddTasks(plan);
          status := Planning;
          error := true;
      }
    }

    method StartTask(k: nat)
      requires k < |tasks|
      modifies this`current, this`tasks
      ensures current == Some(old(tasks)[k].id) && tasks == SetStatus(old(tasks), k, Ready)
    {
      current := Some(tasks[k].id);
      tasks := tasks[k := tasks[k].(status := Ready)];
    }

    method Coordinator()
      modifies this
      ensures Snapshot() == CoordinatorStep(old(Snapshot()))
    {
      if feedback {
        feedback := false;
        return;
      }
      if status == Decomposing {
        status, current := Planning, None;
        return;
      }
      var ready := FirstReady(tasks, CompletedIds(tasks));
      if status == Planning {
        if ready.Some? {
          status := Executing;
          StartTask(ready.value);
        } else if IsComplete(tasks) {
          status, current := GoalCompleted, None;
        }
      } else if status == Executing {
        var k := if Truthy(current) then Find(tasks, current.value) else None;
        if k.Some? && tasks[k.value].status == Completed {
          if IsComplete(tasks) {
            status, current := GoalCompleted, None;
          } else if ready.None? && HasFailed(tasks) {
            status, error := GoalFailed, true;
          } else if ready.None? {
            if HasBlocked(tasks) {
              status, error := GoalFailed, true;
            }
          } else {
            StartTask(ready.value);
          }
        }
      }
      iteration := iteration + 1;
    }

    method Executor(reply: ExecutorReply)
      modifies this
      ensures Snapshot() == ExecutorStep(old(Snapshot()), reply)
    {
      if !Truthy(current) {
        error := true;
        return;
      }
      var k := Find(tasks, current.value);
      if k.None? {
        error := true;
        return;
      }
      if tasks[k.value].status != Ready {
        return;
      }
      tasks := SetStatus(tasks, k.value, Running);
      match reply {
        case PromptRaised =>
        case Replied =>
          executed := executed + [current.value];
          tasks := SetStatus(tasks, k.value, Completed);
        case ModelRaised =>
          executed := executed + [current.value];
          tasks := SetStatus(tasks, k.value, Failed);
          error := true;
      }
    }

    method Critic(reply: CriticReply)
      modifies this
      ensures Snapshot() == CriticStep(old(Snapshot()), reply)
    {
      if !Truthy(current) {
        return;
      }
      var k := Find(tasks, current.value);
      if k.None? || tasks[k.value].status != Completed {
        return;
      }
      match reply {
        case Approved =>
        case NeedsRevision =>
          tasks := SentBack(tasks, k.value);
        case CriticRaised =>
          error := true;
        case RevisedThenRaised =>
          tasks := SentBack(tasks, k.value);
          error := true;
      }
    }

    method NextNode() returns (node: Node)
      ensures node == AfterCoordinator(Snapshot())
    {
      if status == GoalCompleted || status == GoalFailed {
        return Ended;
      }
      if status == RequiresHuman {
        return AtHuman;
      }
      if error || iteration >= maxIterations {
        return Ended;
      }
      if status == Executing && !Truthy(current) {
        var ready := FirstReady(tasks, CompletedIds(tasks));
        if ready.None? && (IsComplete(tasks) || HasFailed(tasks)) {
          return Ended;
        }
      }
      node := AtExecutor;
    }

    /** The compiled graph, run for as many steps as there are answers. */
    method Drive(oracles: seq<Oracle>) returns (node: Node, visits: nat)
      modifies this
      ensures Config(node, Snapshot(), visits) == Run(Start(old(Snapshot())), oracles)
    {
      ghost var start := Start(Snapshot());
      node, visits := AtPlanner, 0;
      for i := 0 to |oracles|
        invariant Config(node, Snapshot(), visits) == Run(start, oracles[..i])
      {
        RunSplit(start, oracles[..i], [oracles[i]]);
        assert oracles[..i + 1] == oracles[..i] + [oracles[i]];
        ghost var c := Config(node, Snapshot(), visits);
        assert Run(c, [oracles[i]]) == Run(Step(c, oracles[i]), [oracles[i]][1..]);
        match node {
          case AtPlanner =>
            Planner(oracles[i].plan);
            node := AtCoordinator;
          case AtCoordinator =>
            Coordinator();
            visits := visits + 1;
            node := NextNode();
          case AtExecutor =>
            var crash := oracles[i].execution == PromptRaised && CurrentHasStatus(Ready);
            Executor(oracles[i].execution);
            node := if crash then Crashed else AtCritic;
          case AtCritic =>
            Critic(oracles[i].critique);
            node := AtCoordinator;
          case AtHuman =>
            node := AtCoordinator;
          case _ =>
        }
      }
      assert oracles[..|oracles|] == oracles;
    }

    predicate CurrentHasStatus(wanted: TaskStatus)
      reads this
    {
      Truthy(current) && var k := Find(tasks, current.value); k.Some? && tasks[k.value].status == wanted
    }
  }
}
