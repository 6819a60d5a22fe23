/**
 How long a workflow run lasts, and what it can no longer do (src/ai/langgraph_workflow.py).
 */
module WorkflowRuns {
  import opened Options
  import opened WorkflowStates

  function Pending01(feedback: bool): nat {
    if feedback then 1 else 0
  }

  /** The largest number of coordinator visits of a run that starts in `s`. */
  function Bound(s: State): nat {
    var n := s.maxIterations - s.iteration + Pending01(s.feedback);
    if n < 1 then 1 else n
  }

  predicate Over(node: Node) {
    node == Ended || node == Crashed
  }

  /** Between two visits: what has been spent and what is left never exceeds the initial budget. */
  ghost predicate Within(c: Config, s0: State) {
    && c.state.iteration < c.state.maxIterations
    && c.state.status != Decomposing
    && c.visits + (c.state.maxIterations - c.state.iteration) + Pending01(c.state.feedback)
       <= s0.maxIterations - s0.iteration + Pending01(s0.feedback)
  }

  ghost predicate Budget(c: Config, s0: State, steps: nat) {
    && c.state.maxIterations == s0.maxIterations
    && c.state.status != RequiresHuman
    && match c.node
       case AtPlanner => c.state == s0 && c.visits == 0 && steps == 0
       case AtCoordinator =>
         && steps == 1 + 3 * c.visits
         && if c.visits == 0 then
              && c.state.iteration == s0.iteration && c.state.feedback == s0.feedback
              && (c.state.status == Decomposing ==> c.state.error)
            else Within(c, s0)
       case AtExecutor => steps + 1 == 3 * c.visits && Within(c, s0)
       case AtCritic => c.visits >= 1 && steps == 3 * c.visits && Within(c, s0)
       case AtHuman => false
       case _ => c.visits <= Bound(s0)
  }

  lemma StepKeepsBudget(c: Config, s0: State, steps: nat, o: Oracle)
    requires Budget(c, s0, steps)
    ensures Budget(Step(c, o), s0, steps + 1)
  {
  }

  lemma {:induction false} RunKeepsBudget(c: Config, s0: State, steps: nat, oracles: seq<Oracle>)
    requires Budget(c, s0, steps)
    ensures Budget(Run(c, oracles), s0, steps + |oracles|)
    decreases |oracles|
  {
    if oracles != [] {
      StepKeepsBudget(c, s0, steps, oracles[0]);
      RunKeepsBudget(Step(c, oracles[0]), s0, steps + 1, oracles[1..]);
    }
  }

  /** No run visits the coordinator more often than the bound, whatever the model answers. */
  lemma VisitsBounded(s0: State, oracles: seq<Oracle>)
    requires s0.status != RequiresHuman
    ensures Run(Start(s0), oracles).visits <= Bound(s0)
  {
    RunKeepsBudget(Start(s0), s0, 0, oracles);
  }

  /** So every run is over after a number of steps known beforehand. */
  lemma RunEnds(s0: State, oracles: seq<Oracle>)
    requires s0.status != RequiresHuman && |oracles| >= 3 * Bound(s0) + 2
    ensures Over(Run(Start(s0), oracles).node)
  {
    RunKeepsBudget(Start(s0), s0, 0, oracles);
  }

  // ---------------------------------------------------------------- waiting for a human

  ghost predicate Waiting(c: Config, steps: nat) {
    && c.state.status == RequiresHuman
    && match c.node
       case AtPlanner => c.visits == 0 && steps == 0
       case AtCoordinator => steps == 2 * c.visits + 1
       case AtHuman => steps == 2 * c.visits
       case _ => false
  }

  lemma {:induction false} HumanLoop(c: Config, steps: nat, oracles: seq<Oracle>)
    requires Waiting(c, steps)
    ensures Waiting(Run(c, oracles), steps + |oracles|)
    decreases |oracles|
  {
    if oracles != [] {
      HumanLoop(Step(c, oracles[0]), steps + 1, oracles[1..]);
    }
  }

  function Many(o: Oracle, n: nat): seq<Oracle> {
    seq(n, _ => o)
  }

  ghost predicate EndsWithin(s0: State, n: nat) {
    forall oracles: seq<Oracle> :: |oracles| >= n ==> Over(Run(Start(s0), oracles).node)
  }

  /** Runs are bounded exactly when the goal does not start out waiting for a human. */
  lemma EndsIff(s0: State, o: Oracle)
    ensures (exists n: nat :: EndsWithin(s0, n)) <==> s0.status != RequiresHuman
  {
    if s0.status != RequiresHuman {
      forall oracles: seq<Oracle> | |oracles| >= 3 * Bound(s0) + 2 ensures Over(Run(Start(s0), oracles).node) {
        RunEnds(s0, oracles);
      }
      assert EndsWithin(s0, 3 * Bound(s0) + 2);
    } else {
      forall n: nat ensures !EndsWithin(s0, n) {
        HumanLoop(Start(s0), 0, Many(o, n));
        assert |Many(o, n)| >= n && !Over(Run(Start(s0), Many(o, n)).node);
      }
    }
  }

  // ---------------------------------------------------------------- a task sent back by the critic

  /** The goal is being executed and its current task is pending again. */
  predicate Stalled(s: State) {
    s.status == Executing && CurrentIs(s, Pending)
  }

  /** `s'` differs from `s` in flags and counters only. */
  predicate SameWork(s: State, s': State) {
    s'.tasks == s.tasks && s'.executed == s.executed && s'.status == s.status && s'.current == s.current
  }

  lemma RevisionStalls(c: Config, o: Oracle)
    requires c.node == AtCritic && c.state.status == Executing
    requires CurrentIs(c.state, Completed) && Revises(o.critique)
    ensures Stalled(Step(c, o).state) && Step(c, o).node == AtCoordinator
  {
    var s, s' := c.state, Step(c, o).state;
    var k := Find(s.tasks, s.current.value).value;
    FindAgain(s.tasks, s'.tasks, s.current.value);
    assert s'.tasks[k].status == Pending;
  }

  /** Nothing in the graph makes a pending current task ready again: no task changes any more. */
  lemma {:induction false} StalledForGood(c: Config, oracles: seq<Oracle>)
    requires Stalled(c.state)
    ensures SameWork(c.state, Run(c, oracles).state)
    decreases |oracles|
  {
    if oracles != [] {
      StalledForGood(Step(c, oracles[0]), oracles[1..]);
    }
  }

  /** A revision is never retried: after it, the run executes nothing and only counts iterations. */
  lemma RevisionIsNeverRetried(c: Config, o: Oracle, oracles: seq<Oracle>)
    requires c.node == AtCritic && c.state.status == Executing
    requires CurrentIs(c.state, Completed) && Revises(o.critique)
    ensures SameWork(Step(c, o).state, Run(Step(c, o), oracles).state)
    ensures Run(Step(c, o), oracles).state.executed == c.state.executed
    ensures var k := Find(c.state.tasks, c.state.current.value).value;
            Run(Step(c, o), oracles).state.tasks ==
            c.state.tasks[k := c.state.tasks[k].(status := Pending, retryCount := c.state.tasks[k].retryCount + 1)]
  {
    RevisionStalls(c, o);
    StalledForGood(Step(c, o), oracles);
  }

  // ---------------------------------------------------------------- the bound is reached

  lemma RunMany(c: Config, o: Oracle, n: nat)
    requires n >= 1
    ensures Run(c, Many(o, n)) == Run(Step(c, o), Many(o, n - 1))
  {
    assert Many(o, n)[1..] == Many(o, n - 1);
  }

  function ThreeSteps(c: Config, o: Oracle): Config {
    Step(Step(Step(c, o), o), o)
  }

  /** Coordinator, executor, critic: a stalled goal only spends its feedback or an iteration. */
  lemma OneLap(c: Config, o: Oracle)
    requires c.node == AtCoordinator && Stalled(c.state) && !c.state.error
    requires c.state.iteration + 1 - Pending01(c.state.feedback) < c.state.maxIterations
    ensures var d := ThreeSteps(c, o);
            && d.node == AtCoordinator && d.visits == c.visits + 1
            && d.state == c.state.(feedback := false, iteration := c.state.iteration + 1 - Pending01(c.state.feedback))
  {
    var d := Step(c, o);
    assert d.node == AtExecutor && d.state.tasks == c.state.tasks;
    assert Step(d, o) == d.(node := AtCritic);
  }

  lemma {:induction false} Laps(c: Config, o: Oracle, m: nat)
    requires c.node == AtCoordinator && Stalled(c.state) && !c.state.error
    requires m >= 1 ==> c.state.iteration + m - Pending01(c.state.feedback) < c.state.maxIterations
    requires m >= 1 ==> c.state.iteration < c.state.maxIterations
    ensures var c' := Run(c, Many(o, 3 * m));
            && c'.node == AtCoordinator && c'.visits == c.visits + m
    decreases m
  {
    if m >= 1 {
      RunMany(c, o, 3 * m);
      RunMany(Step(c, o), o, 3 * m - 1);
      RunMany(Step(Step(c, o), o), o, 3 * m - 2);
      OneLap(c, o);
      Laps(ThreeSteps(c, o), o, m - 1);
    }
  }

  /** For every counter, limit and feedback flag there is a run that visits exactly that often. */
  lemma BoundIsReached(s: State, o: Oracle)
    requires Stalled(s) && !s.error
    ensures Run(Start(s), [o] + Many(o, 3 * (Bound(s) - 1)) + [o]).visits == Bound(s)
  {
    var c := Config(AtCoordinator, s, 0);
    var laps := Many(o, 3 * (Bound(s) - 1));
    assert [o] + laps + [o] == [o] + (laps + [o]);
    assert ([o] + (laps + [o]))[1..] == laps + [o];
    assert Step(Start(s), o) == c;
    Laps(c, o, Bound(s) - 1);
    RunSplit(c, laps, [o]);
    var last := Run(c, laps);
    assert Run(last, [o]) == Run(Step(last, o), [o][1..]);
  }

  /** The looser bound, iterations left plus two, holds for all runs exactly when the counter starts
      at most one past the limit: even a run that starts later visits the coordinator once. */
  lemma LooseBoundIff(s0: State, o: Oracle)
    requires s0.status != RequiresHuman
    ensures (forall oracles: seq<Oracle> :: Run(Start(s0), oracles).visits <= s0.maxIterations - s0.iteration + 2)
            <==> s0.iteration <= s0.maxIterations + 1
  {
    if s0.iteration <= s0.maxIterations + 1 {
      forall oracles: seq<Oracle> ensures Run(Start(s0), oracles).visits <= s0.maxIterations - s0.iteration + 2 {
        VisitsBounded(s0, oracles);
      }
    } else {
      var c := Step(Start(s0), o);
      assert [o, o][1..] == [o];
      assert Run(c, [o]) == Run(Step(c, o), [o][1..]);
      assert Run(Start(s0), [o, o]).visits == 1;
    }
  }

  // ---------------------------------------------------------------- goals that are never planned

  /** A goal in any other status than these three, its default status included, executes nothing. */
  ghost predicate Unplanned(s: State) {
    && s.status != Decomposing && s.status != Planning && s.status != Executing
    && forall k :: 0 <= k < |s.tasks| ==> s.tasks[k].status != Ready && s.tasks[k].status != Completed
  }

  lemma {:induction false} UnplannedGoalDoesNothing(c: Config, oracles: seq<Oracle>)
    requires Unplanned(c.state)
    ensures SameWork(c.state, Run(c, oracles).state)
    decreases |oracles|
  {
    if oracles != [] {
      UnplannedGoalDoesNothing(Step(c, oracles[0]), oracles[1..]);
    }
  }
}
