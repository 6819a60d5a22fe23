/**
 What the answers of the model do to tasks and runs (src/ai/langgraph_workflow.py): where a status comes from, and
 how a run goes on, or does not, after an exception.
 */
module WorkflowFates {
  import opened Options
  import opened WorkflowStates

  lemma RunLast(c: Config, oracles: seq<Oracle>)
    requires oracles != []
    ensures Run(c, oracles) == Step(Run(c, oracles[..|oracles| - 1]), oracles[|oracles| - 1])
  {
    var front, last := oracles[..|oracles| - 1], oracles[|oracles| - 1];
    assert oracles == front + [last];
    RunSplit(c, front, [last]);
    assert Run(Run(c, front), [last]) == Run(Step(Run(c, front), last), [last][1..]);
  }

  // ---------------------------------------------------------------- where a status comes from

  /** The executor's answer that leaves a task with this status. */
  predicate LeadsTo(reply: ExecutorReply, status: TaskStatus) {
    match reply
    case Replied => status == Completed
    case ModelRaised => status == Failed
    case PromptRaised => status == Running
  }

  /** The executor runs task `t`, which is ready, and gets an answer that leaves it with this status. */
  predicate Answers(c: Config, o: Oracle, t: TaskId, status: TaskStatus) {
    c.node == AtExecutor && CurrentIs(c.state, Ready) && c.state.current == Some(t) && LeadsTo(o.execution, status)
  }

  ghost predicate AnsweredAt(c: Config, oracles: seq<Oracle>, i: nat, t: TaskId, status: TaskStatus) {
    i < |oracles| && Answers(Run(c, oracles[..i]), oracles[i], t, status)
  }

  /** Task `k` is in another state than in `s`, or was not there. */
  predicate Changed(s: State, s': State, k: nat)
    requires k < |s'.tasks|
  {
    k >= |s.tasks| || s.tasks[k].status != s'.tasks[k].status || s.tasks[k].id != s'.tasks[k].id
  }

  /** Planner, critic and coordinator leave a task they touch pending or ready. */
  lemma PlannerMakesPending(s: State, reply: PlannerReply, k: nat)
    ensures k < |PlannerStep(s, reply).tasks| && Changed(s, PlannerStep(s, reply), k) ==>
              PlannerStep(s, reply).tasks[k].status == Pending
  {
  }

  lemma CriticMakesPending(s: State, reply: CriticReply, k: nat)
    ensures k < |CriticStep(s, reply).tasks| && Changed(s, CriticStep(s, reply), k) ==>
              CriticStep(s, reply).tasks[k].status == Pending
  {
  }

  lemma CoordinatorMakesReady(s: State, k: nat)
    ensures k < |CoordinatorStep(s).tasks| && Changed(s, CoordinatorStep(s), k) ==>
              CoordinatorStep(s).tasks[k].status == Ready
  {
  }

  lemma ExecutorAnswers(s: State, reply: ExecutorReply, k: nat)
    ensures |ExecutorStep(s, reply).tasks| == |s.tasks|
    ensures k < |s.tasks| && Changed(s, ExecutorStep(s, reply), k) ==>
              && CurrentIs(s, Ready) && s.current == Some(s.tasks[k].id)
              && ExecutorStep(s, reply).tasks[k].id == s.tasks[k].id
              && LeadsTo(reply, ExecutorStep(s, reply).tasks[k].status)
  {
  }

  /** Only an answer makes a task completed, failed or running. */
  lemma StatusIsAnswered(c: Config, o: Oracle, k: nat)
    requires k < |Step(c, o).state.tasks| && Step(c, o).state.tasks[k].status in {Completed, Failed, Running}
    requires Changed(c.state, Step(c, o).state, k)
    ensures Answers(c, o, Step(c, o).state.tasks[k].id, Step(c, o).state.tasks[k].status)
  {
    PlannerMakesPending(c.state, o.plan, k);
    CriticMakesPending(c.state, o.critique, k);
    CoordinatorMakesReady(c.state, k);
    ExecutorAnswers(c.state, o.execution, k);
  }

  /**
   In every run a task that was not completed, failed or running at the start is so only if the executor was given the
   answer that leads there: a reply, an exception of the model, or one before the call.
   */
  lemma {:induction false} StatusWasAnswered(s0: State, oracles: seq<Oracle>, k: nat)
    requires k < |Run(Start(s0), oracles).state.tasks|
    requires var status := Run(Start(s0), oracles).state.tasks[k].status;
             status in {Completed, Failed, Running} && (k < |s0.tasks| ==> s0.tasks[k].status != status)
    ensures var task := Run(Start(s0), oracles).state.tasks[k];
            exists i: nat :: AnsweredAt(Start(s0), oracles, i, task.id, task.status)
    decreases |oracles|
  {
    if oracles != [] {
      var n := |oracles| - 1;
      var front, task := oracles[..n], Run(Start(s0), oracles).state.tasks[k];
      RunLast(Start(s0), oracles);
      if Changed(Run(Start(s0), front).state, Run(Start(s0), oracles).state, k) {
        StatusIsAnswered(Run(Start(s0), front), oracles[n], k);
        assert AnsweredAt(Start(s0), oracles, n, task.id, task.status);
      } else {
        StatusWasAnswered(s0, front, k);
        var i: nat :| AnsweredAt(Start(s0), front, i, task.id, task.status);
        assert front[..i] == oracles[..i];
        assert AnsweredAt(Start(s0), oracles, i, task.id, task.status);
      }
    }
  }

  // ---------------------------------------------------------------- after an exception

  lemma {:induction false} StaysOver(c: Config, oracles: seq<Oracle>)
    requires c.node == Ended || c.node == Crashed
    ensures Run(c, oracles) == c
    decreases |oracles|
  {
    if oracles != [] {
      StaysOver(c, oracles[1..]);
    }
  }

  /** Wherever the error is set, the next visit to the coordinator is the last. */
  lemma ErrorStops(c: Config, o: Oracle)
    requires c.node == AtCoordinator && c.state.error && c.state.status != RequiresHuman
    ensures Step(c, o).node == Ended && Step(c, o).state.error && Step(c, o).state.executed == c.state.executed
  {
  }

  /** A failed current task passes the critic, and the coordinator ends the run. */
  lemma FailedStops(c: Config, o: Oracle)
    requires c.state.status == Executing && c.state.error && CurrentIs(c.state, Failed)
    ensures c.node == AtCritic ==> Step(c, o) == c.(node := AtCoordinator)
    ensures c.node == AtCoordinator ==>
              var d := Step(c, o);
              && d.node == Ended && d.visits == c.visits + 1
              && d.state == c.state.(feedback := d.state.feedback, iteration := d.state.iteration)
  {
  }

  lemma RaiseFails(c: Config, o: Oracle, k: nat)
    requires c.node == AtExecutor && c.state.status == Executing && CurrentIs(c.state, Ready)
    requires Find(c.state.tasks, c.state.current.value) == Some(k) && o.execution == ModelRaised
    ensures var d := Step(c, o);
            && d.node == AtCritic && d.visits == c.visits && CurrentIs(d.state, Failed)
            && d.state == c.state.(tasks := c.state.tasks[k := c.state.tasks[k].(status := Failed)], error := true,
                                   executed := c.state.executed + [c.state.current.value])
  {
    FindAgain(c.state.tasks, Step(c, o).state.tasks, c.state.current.value);
  }

  /**
   When the model raises on the current task of a goal being executed, the task is failed for good, nothing is executed
   any more, and the run is over at the next visit to the coordinator, with the goal not completed.
   */
  lemma RaiseIsFinal(c: Config, o: Oracle, k: nat, oracles: seq<Oracle>)
    requires c.node == AtExecutor && c.state.status == Executing && CurrentIs(c.state, Ready)
    requires Find(c.state.tasks, c.state.current.value) == Some(k) && o.execution == ModelRaised
    ensures var d := Run(Step(c, o), oracles);
            && d.state.tasks == c.state.tasks[k := c.state.tasks[k].(status := Failed)]
            && d.state.executed == c.state.executed + [c.state.current.value]
            && d.state.error && d.state.status == Executing
            && (|oracles| >= 2 ==> d.node == Ended && d.visits == c.visits + 1)
  {
    var d := Step(c, o);
    RaiseFails(c, o, k);
    if oracles != [] {
      FailedStops(d, oracles[0]);
      var e, rest := d.(node := AtCoordinator), oracles[1..];
      if rest != [] {
        FailedStops(e, rest[0]);
        StaysOver(Step(e, rest[0]), rest[1..]);
      }
    }
  }

  /** An exception before the call leaves the graph: the task stays running for good. */
  lemma CrashIsFinal(c: Config, o: Oracle, k: nat, oracles: seq<Oracle>)
    requires c.node == AtExecutor && CurrentIs(c.state, Ready)
    requires Find(c.state.tasks, c.state.current.value) == Some(k) && o.execution == PromptRaised
    ensures Run(Step(c, o), oracles)
         == c.(node := Crashed, state := c.state.(tasks := c.state.tasks[k := c.state.tasks[k].(status := Running)]))
  {
    StaysOver(Step(c, o), oracles);
  }

  /** After an exception of the critic nothing is executed any more, and the next visit is the last. */
  lemma CriticRaiseIsFinal(c: Config, o: Oracle, oracles: seq<Oracle>)
    requires c.node == AtCritic && c.state.status != RequiresHuman && CurrentIs(c.state, Completed)
    requires o.critique == CriticRaised || o.critique == RevisedThenRaised
    requires oracles != []
    ensures var d := Run(Step(c, o), oracles);
            && d.node == Ended && d.visits == c.visits + 1 && d.state.error && d.state.executed == c.state.executed
  {
    var d := Step(c, o);
    ErrorStops(d, oracles[0]);
    StaysOver(Step(d, oracles[0]), oracles[1..]);
  }

  /** A run that the planner leaves with the error set executes nothing and visits the coordinator once. */
  lemma ErroneousPlanStops(s0: State, oracles: seq<Oracle>)
    requires |oracles| >= 2 && s0.status != RequiresHuman && PlannerStep(s0, oracles[0].plan).error
    ensures var d := Run(Start(s0), oracles);
            && d.node == Ended && d.visits == 1 && d.state.error && d.state.executed == s0.executed
            && d.state == CoordinatorStep(PlannerStep(s0, oracles[0].plan))
  {
    var c, rest := Step(Start(s0), oracles[0]), oracles[1..];
    ErrorStops(c, rest[0]);
    StaysOver(Step(c, rest[0]), rest[1..]);
  }

  /** The error is never cleared: so it is with every run that is started, or resumed, with it. */
  lemma ErroneousRunStops(s0: State, oracles: seq<Oracle>)
    requires s0.error && s0.status != RequiresHuman && |oracles| >= 2
    ensures var d := Run(Start(s0), oracles);
            d.node == Ended && d.visits == 1 && d.state.error && d.state.executed == s0.executed
  {
    ErroneousPlanStops(s0, oracles);
  }

  /** Without a current task, or with one that is not there, nothing is executed: the run stops with an error. */
  lemma MissingTaskStops(c: Config, o: Oracle, oracles: seq<Oracle>)
    requires c.node == AtExecutor && c.state.status in {Planning, Executing}
    requires Truthy(c.state.current) ==> Find(c.state.tasks, c.state.current.value).None?
    requires |oracles| >= 2
    ensures Step(c, o).state == c.state.(error := true)
    ensures var d := Run(Step(c, o), oracles);
            && d.node == Ended && d.visits == c.visits + 1 && d.state.error && d.state.executed == c.state.executed
  {
    var d, rest := Step(c, o), oracles[1..];
    assert d.node == AtCritic;
    assert Step(d, oracles[0]) == d.(node := AtCoordinator);
    ErrorStops(d.(node := AtCoordinator), rest[0]);
    StaysOver(Step(d.(node := AtCoordinator), rest[0]), rest[1..]);
  }

  /** A goal that ends in the run has no current task any more if it is completed, and an error if it has failed. */
  ghost predicate FinishTold(s: State) {
    (s.status == GoalCompleted ==> s.current == None) && (s.status == GoalFailed ==> s.error)
  }

  lemma StepTellsFinish(c: Config, o: Oracle)
    requires FinishTold(c.state)
    ensures FinishTold(Step(c, o).state)
  {
  }

  lemma {:induction false} RunTellsFinish(s0: State, oracles: seq<Oracle>)
    requires s0.status != GoalCompleted && s0.status != GoalFailed
    ensures FinishTold(Run(Start(s0), oracles).state)
    decreases |oracles|
  {
    if oracles != [] {
      RunLast(Start(s0), oracles);
      RunTellsFinish(s0, oracles[..|oracles| - 1]);
      StepTellsFinish(Run(Start(s0), oracles[..|oracles| - 1]), oracles[|oracles| - 1]);
    }
  }

  // ---------------------------------------------------------------- planning

  /** `tasks` are those before, then one pending task for each of the plan, in its order. */
  ghost predicate PlannedAfter(before: seq<Task>, plan: seq<NewTask>, tasks: seq<Task>) {
    && |tasks| == |before| + |plan| && before <= tasks
    && forall i :: 0 <= i < |plan| ==>
         var t := tasks[|before| + i];
         && t.id == plan[i].id && t.dependencies == plan[i].dependencies && t.status == Pending
         && t.retryCount == 0 && t.maxRetries == 3
  }

  /** A plan is added to the goal, which is then planned; an exception after that sets the error, and no more. */
  lemma PlanIsTaken(s0: State, o: Oracle, plan: seq<NewTask>)
    requires s0.status == Decomposing && (o.plan == Plan(plan) || o.plan == PlannedThenRaised(plan))
    ensures var c := Step(Start(s0), o);
            && c.node == AtCoordinator && PlannedAfter(s0.tasks, plan, c.state.tasks)
            && c.state == s0.(status := Planning, tasks := c.state.tasks, error := s0.error || o.plan != Plan(plan))
  {
  }

  /**
   Without a plan a goal to be decomposed is never executed: the run ends at the first visit with the error set.  What
   was added before an exception stays, pending.
   */
  lemma NoPlanNoRun(s0: State, oracles: seq<Oracle>)
    requires s0.status == Decomposing && !s0.feedback && |oracles| >= 2
    requires oracles[0].plan.NoJson? || oracles[0].plan.PlannerRaised?
    ensures var d := Run(Start(s0), oracles);
            var added := if oracles[0].plan.NoJson? then [] else oracles[0].plan.added;
            && d.node == Ended && d.visits == 1 && PlannedAfter(s0.tasks, added, d.state.tasks)
            && d.state == s0.(tasks := d.state.tasks, status := Planning, current := None, error := true)
  {
    ErroneousPlanStops(s0, oracles);
  }

  // ---------------------------------------------------------------- what a node says about the state

  /** The goal waits for nothing that a further visit could bring. */
  ghost predicate NothingToCome(s: State) {
    && s.status == Executing && !Truthy(s.current)
    && (forall k :: 0 <= k < |s.tasks| ==> !CanStart(s.tasks[k], CompletedIds(s.tasks)))
    && ((forall k :: 0 <= k < |s.tasks| ==> s.tasks[k].status in {Completed, Skipped})
        || exists k :: 0 <= k < |s.tasks| && s.tasks[k].status == Failed
                       && s.tasks[k].retryCount >= s.tasks[k].maxRetries)
  }

  /** A run has a reason to stop. */
  ghost predicate MayStop(s: State) {
    s.status in {GoalCompleted, GoalFailed} || s.error || s.iteration >= s.maxIterations || NothingToCome(s)
  }

  /** A run that has left the coordinator is at the executor only without, and over only with, a reason to stop. */
  ghost predicate NodeTold(c: Config) {
    match c.node
    case AtExecutor => !MayStop(c.state) && c.state.status != RequiresHuman
    case AtHuman => c.state.status == RequiresHuman
    case Ended => MayStop(c.state) && c.state.status != RequiresHuman
    case _ => true
  }

  lemma StepTellsNode(c: Config, o: Oracle)
    requires NodeTold(c)
    ensures NodeTold(Step(c, o))
  {
  }

  /** In every run the node tells whether there was a reason to stop. */
  lemma {:induction false} RunTellsNode(s0: State, oracles: seq<Oracle>)
    ensures NodeTold(Run(Start(s0), oracles))
    decreases |oracles|
  {
    if oracles != [] {
      RunLast(Start(s0), oracles);
      RunTellsNode(s0, oracles[..|oracles| - 1]);
      StepTellsNode(Run(Start(s0), oracles[..|oracles| - 1]), oracles[|oracles| - 1]);
    }
  }
}
