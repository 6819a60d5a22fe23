# Verified models of the orchestration layer

This Dafny project models the logic under `src/ai/` that decides what runs, when, and what is counted,
and one loop of `scripts/ops/https_proxy.py`. One file follows one source file; a few small modules
hold what several of them share. `dafny verify dfyconfig.toml` checks everything.

| file | models |
|---|---|
| `DependencyGraphs.dfy` | directed graphs of task dependencies: walks, cycles, topological lists (shared theory) |
| `TaskOrdering.dfy` | `goal_task_graph.py`: Kahn's ordering and the depth-first cycle check |
| `GoalTaskGraph.dfy` | `goal_task_graph.py`: the task store and `execute_graph`, round by round |
| `Workflow.dfy`, `WorkflowRuns.dfy`, `WorkflowFates.dfy`, `WorkflowCompletion.dfy` | `langgraph_workflow.py`: the four nodes over one state, the edges, whole runs, what answers and exceptions do to them, and which goals they complete |
| `Reasoning.dfy` | `reasoning.py`: forward chaining |
| `MissionScheduler.dfy`, `MissionRunner.dfy` | `enoch.py`: first-fit scheduling; missions in files and their observe-execute-verify cycle |
| `Statistics.dfy`, `RealArithmetic.dfy` | `ada.py`: descriptive statistics and z-score anomalies over the reals |
| `Conversation.dfy` | `liuhao.py`, `conversation_store.py`: history in memory and in the shared table |
| `MessageBus.dfy` | `collaboration.py`: mailboxes |
| `Economy.dfy`, `Sums.dfy`, `Switches.dfy` | `economy.py`: two-phase budget, billing, and the path that joins them |
| `Evolution.dfy` | `evolution.py`: experiments and their audit trails |
| `ChunkedProxy.dfy`, `Numerals.dfy` | `https_proxy.py`: chunked framing, with a decoder for section 7.1 of RFC 9112 |
| `L10K.dfy` | `l10k.py`: the benchmark registry and its report |
| `Organization.dfy` | `organization.py`: membership, delegation, budget |

Code that updates fields is modelled by classes and methods; each such method is proved equal to a
function on values, and the results about whole runs are lemmas about those functions. Calls to a
language model, executor answers, failing writes, flushes and inserts, and generated identifiers are
parameters: a result holds for every value of them, unless its row or "Left out" says otherwise.

## What the proofs say about the code

Some behaviour differs from what names or comments suggest. The models follow the code.

* `execute_graph` never returns when nothing can start and no cycle is left. With distinct ids this
  happens exactly for an acyclic goal in which some task is not pending, depends on something outside
  the goal, or depends on a task that is never counted as completed (`GoalExecution.WhenItHangs`).
  Executing an acyclic goal a second time is such a case (`GoalExecution.SecondRunHangs`).
* `execute_task` counts a task as completed before it records metrics and memory. If one of those raises,
  the same task is counted as failed too: the two sets are disjoint exactly if no task handed out ends
  that way (`GoalExecution.DisjointIff`), and such a task is reported as failed although its dependants
  start (`GoalExecution.FailedTaskReleasesDependant`).
* A goal with a repeated id raises exactly if some round's batch holds the id twice, and never with
  `max_parallel` one (`GoalExecution.GoalTaskGraph.RunRound`).
* In the workflow a task that the critic sends back is never executed again
  (`WorkflowRuns.RevisionIsNeverRetried`); distinct task ids are assumed for the safety of the graph,
  which can fail without them (`WorkflowSafety.RepeatedIdsAreUnsafe`); the coordinator is visited at most
  `max(1, max_iterations - iteration)` times, or once more than the difference if feedback is pending
  (`WorkflowRuns.VisitsBounded`), and the looser bound "iterations left plus
  two" holds exactly when the counter starts at most one above its limit (`WorkflowRuns.LooseBoundIff`).
* The error of a workflow state is never cleared. A run that ended with an error executes nothing when it is
  resumed (`WorkflowFates.ErroneousRunStops`), and an exception of the critic ends the run although the
  task it reviewed is completed (`WorkflowFates.CriticRaiseIsFinal`).
* A flush that fails before the last chunk makes the proxy close a truncated body like a whole one
  (`ChunkedCoding.WholeBodyIff`). This needs a buffered writer: the standard handler's `wfile` is
  unbuffered, and its flush does nothing on an open connection. A write or a read that raises leaves a
  body that the client sees as incomplete (`ChunkedCoding.ReceivedIsRead`).
* The list that `poll` returns stays in use exactly if it was a registered, empty mailbox
  (`MessageBuses.MessageBus.Poll`). Then, and only then, the next message to the agent appears in it
  (`MessageBuses.PolledListGrowsIff`), and is polled a second time
  (`MessageBuses.EmptyPollIsDeliveredAgain`).
* A call that costs nothing is refused as over budget, so a model without a price, or with a price of
  zero, is of no use (`Economies.FreeCallsAreRefused`).
* A freeze that falls between billing and charging of a call leaves a bill that was never charged and a
  reservation that stays: one such run is `ConcurrentCalls.FreezeParts`, and when all calls are over the
  books agree exactly if no charge was attempted during a freeze (`ConcurrentCalls.QuietBooksAgreeIff`).
* Mission ids that differ only in separators share a file (`MissionRuns.SharedFile`). The attempt limit
  stops nothing: a call on a failed or completed mission can complete it, leave it running, or reopen it
  (`MissionRuns.NoStatusIsFinal`).
* The second and third checks of `deploy` can never refuse
  (`EvolutionLog.OnlyMissingApprovalStopsDeployment`).
* A commit stores a turn number above all stored ones exactly if nothing is stored or the principal's last
  step began that turn, and otherwise repeats the last one (`Conversations.CommittedTurnIsNewIff`), as two
  chat streams of one assistant open at once do (`Conversations.OverlappingStreamsShareATurn`). A restart
  forgets refused turns (`Conversations.RestartKeepsTurnIff`) and, if an insert raised, messages that the
  process still remembered (`Conversations.UnsavedIsForgottenIff`).
* An agent's handler calls `end_span` with an argument that it does not have, so a failing agent raises, and
  the exception leaves `delegate` after the task was counted as submitted (`Organizations.RaisingCallIsLost`).
  The tallies of an organization balance exactly if that never happened to a present member since its hire
  (`Organizations.TalliesBalanceIff`). The handler of `execute_task` makes the same call; `execute_graph`
  catches what comes out of it.
* Nothing locks the budget. Two calls in different threads can both pass the check of `reserve` and overspend
  (`ConcurrentCalls.TwoCallsOverspend`): this happens exactly if some call is held when its cost is no longer
  free (`ConcurrentCalls.OverspentIff`), and only if another was held in between
  (`ConcurrentCalls.TooLateIsRaced`).
* Hiring under an existing name leaves a member in two lists, or listed where it does not belong,
  unless its old department does not exist (`Organizations.HireKeepsPlacesIff`).

## Model

| member | source | states |
|---|---|---|
| DependencyGraphs.StuckSetHasCycle | src/ai/goal_task_graph.py:555-565 | a non-empty set of tasks each of which waits for another of the set contains a directed cycle, and the cycle lies inside the set |
| DependencyGraphs.SaturatedCoversIffAcyclic | src/ai/goal_task_graph.py:346-350 | a topological list that cannot be extended covers the graph exactly when the graph has no cycle |
| DependencyGraphs.SaturatedIsMaximal | src/ai/goal_task_graph.py:332-344 | such a list holds every task that any topological list holds, so what Kahn's loop emits is determined by the graph |
| DependencyGraphs.TopologicalIsAcyclic | src/ai/goal_task_graph.py:332-344 | a topological list of the whole graph rules out cycles |
| DependencyGraphs.FinishingOrderIsAcyclic | src/ai/goal_task_graph.py:376-397 | a depth-first finishing order of the whole graph rules out cycles |
| DependencyGraphs.SameEdgesSameCycles | src/ai/goal_task_graph.py:367-374 | whether there is a cycle depends on the dependency relation alone, not on how nodes are listed |
| TaskOrdering.GraphOfEdge | src/ai/goal_task_graph.py:326-330 | the edges of the graph drawn are exactly the dependencies written in the nodes whose target is in the list |
| TaskOrdering.BuildAdjacency | src/ai/goal_task_graph.py:321-330 | successor lists hold each dependant once per listing, in-degrees count the listed dependencies inside the set, repeated ids included |
| TaskOrdering.InitialQueue | src/ai/goal_task_graph.py:333 | the queue starts with the ids of in-degree zero, each once if the ids are distinct |
| TaskOrdering.Relax | src/ai/goal_task_graph.py:340-343 | each in-degree falls by the number of times its task is listed, and the tasks queued are exactly those that reach zero |
| TaskOrdering.KahnStep | src/ai/goal_task_graph.py:336-343 | emitting the head of the queue keeps: order topological, queue exactly the ready tasks, in-degree the number of dependencies not yet emitted |
| TaskOrdering.KahnRound | src/ai/goal_task_graph.py:336-343 | each round lowers queue length plus the number of positive in-degrees, so the loop ends, repeated ids included |
| TaskOrdering.KahnOrder | src/ai/goal_task_graph.py:332-344 | for distinct ids Kahn's part puts every dependency in the set before its dependants and cannot be extended; for any list nothing is emitted more often than listed |
| TaskOrdering.Dfs | src/ai/goal_task_graph.py:380-392 | a search that reports a cycle has one; otherwise the visited tasks are the recursion stack, a walk, and the finished tasks in finishing order |
| TaskOrdering.DfsFromAll | src/ai/goal_task_graph.py:394-399 | the outer loop visits every task or has found a cycle |
| TaskOrdering.HasCycle | src/ai/goal_task_graph.py:355-399 | returns True exactly when the dependency relation restricted to the list has a directed cycle, for every list |
| Schedules.ScheduleMeaning | src/ai/goal_task_graph.py:551-584 | a schedule hands each task out once, only eligible ones, each after all of its dependencies have returned |
| Schedules.PartialRun | src/ai/goal_task_graph.py:551-584 | every initial part of a run is a schedule itself |
| Schedules.ExhaustedIsMaximal | src/ai/goal_task_graph.py:551-584 | the set of tasks handed out by a run that can start nothing more is the largest possible, whatever the order of the rounds |
| Schedules.CycleNeverEntered | src/ai/goal_task_graph.py:613-618 | no task on a directed cycle is ever handed out |
| Schedules.CyclesAreLeftOver | src/ai/goal_task_graph.py:555-565 | the tasks left over contain a cycle exactly when the goal does |
| Schedules.StuckRoundHasCycle | src/ai/goal_task_graph.py:555-565 | without obstruction a round that can start nothing has a cycle among the tasks that remain |
| Schedules.HangsIffAcyclicAndObstructed | src/ai/goal_task_graph.py:551-569 | the loop finds nothing to start and no cycle exactly for an acyclic goal with an obstruction |
| Schedules.HandedOutIsKahnsPart | src/ai/goal_task_graph.py:551-584 | without obstruction the tasks handed out are exactly those that Kahn's loop emits, and in a topological order |
| GoalExecution.GoalTaskGraph.StoreTasks | src/ai/goal_task_graph.py:292-302 | the goal's ids are recorded in order, other tasks are untouched, and for distinct ids each node is stored under its id |
| GoalExecution.GoalTaskGraph.GetExecutionOrder | src/ai/goal_task_graph.py:309-353 | for distinct stored ids the order holds every task exactly once, begins with a maximal topological part, and that part is the whole exactly when there is no cycle |
| GoalExecution.KahnCovers | src/ai/goal_task_graph.py:346-350 | the length test of the code detects a cycle exactly |
| GoalExecution.StoredDraws | src/ai/goal_task_graph.py:309-330 | the graph that the ordering of a goal's stored nodes draws is the goal's dependency graph, for distinct known ids |
| GoalExecution.GoalTaskGraph.OrderOfGoal | src/ai/goal_task_graph.py:610 | the reported order holds each task of the goal once and starts with a maximal topological list of the goal's graph, which is all of it exactly without a cycle |
| GoalExecution.GoalTaskGraph.ExecuteTask | src/ai/goal_task_graph.py:424-512 | an unknown id fails and changes nothing; otherwise status and the two sets follow the executor's answer, and a direct call returns a result exactly if nothing in it raised, because the handler raises too |
| GoalExecution.WithAgentsRoundRobin | src/ai/goal_task_graph.py:546-548 | the task at position k gets the agent numbered k modulo max_parallel |
| GoalExecution.BatchIsFirstReady | src/ai/goal_task_graph.py:551-573 | a listed task is in the batch of a round exactly if it is ready and fewer than max_parallel ready tasks are listed before it |
| GoalExecution.GoalTaskGraph.AssignAgents | src/ai/goal_task_graph.py:546-548 | the assignment loop changes agents only, round robin |
| GoalExecution.GoalTaskGraph.RunBatch | src/ai/goal_task_graph.py:570-584 | the tasks of a round run as a continuation of the schedule, and the round raises exactly if its batch repeats an id |
| GoalExecution.GoalTaskGraph.DeadlockTest | src/ai/goal_task_graph.py:555-569 | the deadlock test leaves the loop exactly when the tasks left over have a cycle |
| GoalExecution.GoalTaskGraph.RunRound | src/ai/goal_task_graph.py:551-584 | each pass ends with the right verdict, or hands out a batch of the ready tasks in order and shrinks what remains; it raises exactly if its batch repeats an id, and then max_parallel is above one |
| GoalExecution.GoalTaskGraph.RunRounds | src/ai/goal_task_graph.py:551-584 | the loop ends or provably spins; its state is that of a schedule |
| GoalExecution.GoalTaskGraph.ExecuteGraph | src/ai/goal_task_graph.py:515-611 | every way a call can end, with the exact tasks, sets, counts, results, execution order and goal status it leaves |
| GoalExecution.RunIsSafe | src/ai/goal_task_graph.py:538-584 | in every run, also partial, a task is handed out at most once and only after its dependencies completed in that run |
| GoalExecution.DisjointIff | src/ai/goal_task_graph.py:461-492 | no task is both completed and failed exactly if no task handed out raises after it was counted as completed |
| GoalExecution.FailedTaskReleasesDependant | src/ai/goal_task_graph.py:461-492 | a task that raises after it was counted is in both sets and reported as failed, and its dependant is handed out |
| GoalExecution.OverallMeans | src/ai/goal_task_graph.py:585-598 | the status of the summary is completed exactly if every task was handed out and its call returned, failed exactly if there are tasks and no call returned, and partial otherwise; the goal fails exactly with the summary; the counts are those of its results |
| GoalExecution.TaskFate | src/ai/goal_task_graph.py:438-492 | status, result and error of every task after a run, the two sets it is in and its entry in the summary, told by the answer to its call; a task left over by a cycle has failed, and all others are as before |
| GoalExecution.WhenItHangs | src/ai/goal_task_graph.py:551-569 | for distinct ids the call spins exactly on an acyclic goal with an obstruction, and otherwise returns a summary |
| GoalExecution.UnobstructedRunEnds | src/ai/goal_task_graph.py:542-611 | all pending, closed under dependencies, every call returns: the run ends even on cyclic goals; the first entries of the reported order, as many as are reported completed, are exactly the completed tasks, in a topological order; completed plus failed is the total; a failure means a cycle among the tasks left |
| GoalExecution.NothingPendingAfterwards | src/ai/goal_task_graph.py:558-598 | after a run that ended no task of the goal is pending and no dependency has changed |
| GoalExecution.SecondRunHangs | src/ai/goal_task_graph.py:551-569 | a run with nothing pending hands out nothing, and spins exactly on an acyclic goal |
| WorkflowStates.FindIsFirst | src/ai/langgraph_workflow.py:125-129 | the task found has the id and no earlier one has it; nothing is found exactly if no task has it |
| WorkflowStates.FirstReadyIsFirst | src/ai/langgraph_workflow.py:131-132 | the task found is pending with completed dependencies and no earlier one is; nothing is found exactly if no task is |
| WorkflowStates.RunSplit | src/ai/langgraph_workflow.py:540-564 | a run can be cut anywhere |
| WorkflowSafety.PlannerIsSafe | src/ai/langgraph_workflow.py:186-241 | planning new tasks keeps the invariant |
| WorkflowSafety.CoordinatorIsSafe | src/ai/langgraph_workflow.py:377-448 | the coordinator keeps the invariant: it starts only tasks with completed dependencies, and completes a goal only when every task is completed or skipped |
| WorkflowSafety.ExecutorIsSafe | src/ai/langgraph_workflow.py:252-307 | the executor keeps the invariant: it never runs a task it has run before |
| WorkflowSafety.CriticIsSafe | src/ai/langgraph_workflow.py:326-368 | the critic keeps the invariant: no active task depends on one that it takes back |
| WorkflowSafety.RunIsSafe | src/ai/langgraph_workflow.py:540-564 | every configuration of every run from an unstarted goal is safe |
| WorkflowSafety.ResumeIsSafe | src/ai/langgraph_workflow.py:599-620 | resuming an ended run, with or without feedback, starts from a safe state |
| WorkflowSafety.ReachableStates | src/ai/langgraph_workflow.py:252-448 | in every reachable state: active tasks have completed dependencies, only the current task is ready or running, no active task depends on it, each task is executed at most once, a completed goal has only completed or skipped tasks |
| WorkflowSafety.RepeatedIdsAreUnsafe | src/ai/langgraph_workflow.py:125-132 | with two tasks of one id a run of ten steps leaves a completed task whose dependency is not completed |
| WorkflowNodes.Workflow.Planner | src/ai/langgraph_workflow.py:186-241 | the planner node, with its exception paths, computes the planner step |
| WorkflowNodes.Workflow.Coordinator | src/ai/langgraph_workflow.py:377-448 | the coordinator node computes the coordinator step |
| WorkflowNodes.Workflow.Executor | src/ai/langgraph_workflow.py:252-307 | the executor node, with its exception paths, computes the executor step |
| WorkflowNodes.Workflow.Critic | src/ai/langgraph_workflow.py:326-368 | the critic node computes the critic step |
| WorkflowNodes.Workflow.NextNode | src/ai/langgraph_workflow.py:451-479 | the conditional edge chosen after the coordinator |
| WorkflowNodes.Workflow.Drive | src/ai/langgraph_workflow.py:530-566 | the compiled graph over the mutable state refines the run on values |
| WorkflowRuns.VisitsBounded | src/ai/langgraph_workflow.py:382-396 | unless it starts waiting for a human, a run visits the coordinator at most as often as there are iterations left, plus one for pending feedback, and at least a bound of one |
| WorkflowRuns.RunEnds | src/ai/langgraph_workflow.py:444-479 | so every run is over after three times that bound plus two steps |
| WorkflowRuns.BoundIsReached | src/ai/langgraph_workflow.py:444-479 | and some run visits exactly that often |
| WorkflowRuns.LooseBoundIff | src/ai/langgraph_workflow.py:444-479 | the bound "maximum minus iteration plus two" holds for all runs exactly when the counter starts at most one above its limit |
| WorkflowRuns.EndsIff | src/ai/langgraph_workflow.py:456-463 | runs are bounded exactly when the goal does not start out waiting for a human |
| WorkflowRuns.RevisionIsNeverRetried | src/ai/langgraph_workflow.py:354-356 | after a revision the run executes nothing and changes no task: the one sent back stays pending with one more retry counted |
| WorkflowRuns.UnplannedGoalDoesNothing | src/ai/langgraph_workflow.py:391-442 | a goal in none of the three working statuses, its default status included, executes nothing |
| WorkflowFates.StatusWasAnswered | src/ai/langgraph_workflow.py:266-303 | in every run a task becomes completed, failed or running only by the answer that leads there: a reply, an exception of the model, or one before the call |
| WorkflowFates.RaiseIsFinal | src/ai/langgraph_workflow.py:300-307 | when the model raises on the current task, the task is failed for good, nothing is executed any more, and the run is over at the next visit to the coordinator, not completed |
| WorkflowFates.CrashIsFinal | src/ai/langgraph_workflow.py:269-286 | an exception before the call leaves the graph, with the task running for good |
| WorkflowFates.CriticRaiseIsFinal | src/ai/langgraph_workflow.py:365-368 | after an exception of the critic nothing is executed any more, and the next visit to the coordinator is the last |
| WorkflowFates.ErroneousRunStops | src/ai/langgraph_workflow.py:451-463 | a run started or resumed with an error set executes nothing and visits the coordinator once |
| WorkflowFates.MissingTaskStops | src/ai/langgraph_workflow.py:252-263 | without a current task, or with one that is not there, nothing is executed and the run stops with an error |
| WorkflowFates.PlanIsTaken | src/ai/langgraph_workflow.py:217-234 | a plan adds one pending task for each of its entries, in order, and makes the goal a planned one; an exception after that only sets the error |
| WorkflowFates.NoPlanNoRun | src/ai/langgraph_workflow.py:219-239 | without a plan the run ends at the first visit to the coordinator with the error set, and nothing is executed |
| WorkflowFates.RunTellsNode | src/ai/langgraph_workflow.py:451-479 | in every run the executor is entered only without, and the end reached only with, a reason to stop: a finished goal, an error, no iterations left, or nothing to come |
| WorkflowFates.RunTellsFinish | src/ai/langgraph_workflow.py:399-442 | a goal completed in a run has no current task any more, and one that failed left an error |
| WorkflowCompletion.PickedIsInOrder | src/ai/langgraph_workflow.py:391-442 | picking the first ready task again and again takes pending tasks only, each once and after its dependencies, until none can start |
| WorkflowCompletion.WorkedIsCompleteIff | src/ai/langgraph_workflow.py:391-442 | the picking leaves a complete goal exactly if nothing in it has failed and its pending tasks have no cycle and no dependency outside the goal |
| WorkflowCompletion.GoodRunCompletesIff | src/ai/langgraph_workflow.py:252-479 | with every call answered and every result approved, a planned goal is completed exactly in that case, if more iterations are left than tasks pending; then each pending task is executed once, in a topological order |
| WorkflowCompletion.GoodRunFailsIff | src/ai/langgraph_workflow.py:412-442 | and it fails exactly if some task is blocked or has failed with its retries used up, at least one other can start, and the iterations suffice |
| WorkflowCompletion.GoodPlanCompletesIff | src/ai/langgraph_workflow.py:186-479 | the same from the start of the graph, for a goal that the model has just planned |
| Reasoning.Scan | src/ai/reasoning.py:63-76 | one pass only adds justified conclusions; a pass that changes nothing proves closure |
| Reasoning.Deduce | src/ai/reasoning.py:51-78 | ends with a derivation whose premises and conclusions are closed under the rules |
| Reasoning.DerivationInside | src/ai/reasoning.py:62-76 | a derivation stays inside every closed set that holds the premises |
| Reasoning.DeduceIsLeastClosure | src/ai/reasoning.py:57-78 | what is known at the end is the least closed set over the premises; no conclusion repeats or is a premise |
| Reasoning.OrderIrrelevant | src/ai/reasoning.py:57-78 | the set and the number of conclusions depend neither on the order nor on the repetition of premises and rules |
| MissionScheduling.FindAgent | src/ai/enoch.py:219-227 | the inner loop finds the first capable unused agent, or there is none |
| MissionScheduling.CapableIff | src/ai/enoch.py:176-222 | an agent can serve a mission exactly if it advertises the required, non-empty capability in one of three places |
| MissionScheduling.Schedule | src/ai/enoch.py:206-228 | the dictionary returned is that of a first-fit matching: exactly the ids of matched missions, each with the agent of the last matched mission of that id |
| MissionScheduling.AgentsAreNamed | src/ai/enoch.py:196-200 | an agent goes by its own id; agents without one get different names at different positions |
| MissionScheduling.DistinctIdsAreAllNamed | src/ai/enoch.py:206-228 | with distinct mission ids the dictionary names every pair of the matching and nothing else |
| MissionScheduling.FirstFitIsMaximal | src/ai/enoch.py:209-213 | first fit uses capable agents, each once, and leaves no mission that an unused agent could serve |
| MissionScheduling.FirstFitIsUnique | src/ai/enoch.py:216-227 | the first-fit rule determines the matching |
| MissionScheduling.AtMostTwiceAsMany | src/ai/enoch.py:206-228 | no valid assignment serves more than twice as many missions |
| MissionScheduling.FactorTwoIsTight | src/ai/enoch.py:206-228 | the factor two is attained |
| MissionRuns.PayloadRoundTrip | src/ai/enoch.py:81-106 | a mission survives being written and read; a payload with all keys that reads as a mission is the one written for it |
| MissionRuns.RefusedPayloads | src/ai/enoch.py:94-106 | a payload is refused exactly for a missing key or a status text that is none of the six, and each text means its status |
| MissionRuns.SavedSurvivesIff | src/ai/enoch.py:126-145 | a saved mission is still there after another one is saved exactly if their file names differ, as they do for different ids without separators |
| MissionRuns.SharedFile | src/ai/enoch.py:126-129 | two different ids that share a file |
| MissionRuns.MissionRunner.Run | src/ai/enoch.py:264-320 | one cycle: what is left in the store and what is returned, for a result that passes, one that does not, and an exception |
| MissionRuns.FateOfMission | src/ai/enoch.py:264-320 | after any run of calls on any missions, a mission keeps its identity, its attempts count the rejected calls that reached its file, and its status and checkpoint are told by the last of them |
| MissionRuns.FailedIff | src/ai/enoch.py:302-309 | a mission is failed exactly if its last call was rejected with the attempts used up |
| MissionRuns.NoStatusIsFinal | src/ai/enoch.py:264-320 | a call on a mission that is completed or failed: one that passes completes it, one that raises leaves it running, one that is rejected counts and leaves a failed mission failed, a completed one reopened or, with its attempts used up, failed |
| Statistics.SortedIsSorted | src/ai/ada.py:105 | sorting gives the same values in ascending order |
| Statistics.MeanInRange | src/ai/ada.py:96-97 | minimum, mean and maximum are in this order |
| Statistics.MedianInRange | src/ai/ada.py:105-111 | minimum, median and maximum are in this order |
| Statistics.MedianMinimisesDistances | src/ai/ada.py:105-111 | the median of an ordered list minimises the sum of distances |
| Statistics.MedianWithinOneStd | src/ai/ada.py:97-111 | the squared gap between mean and median is at most the sample variance |
| Statistics.ReportIsConsistent | src/ai/ada.py:78-121 | what `analyze` reports of a non-empty list: attained minimum and maximum, and both averages between them |
| Statistics.ReportedFigures | src/ai/ada.py:95-121 | count, sum, mean and sample variance are reported under their names: the count times the mean is the sum, and the count less one times the variance is the sum of squared deviations from that mean |
| Statistics.ReportedMedianIsCentre | src/ai/ada.py:105-111 | the reported median is the centre of the values with the least sum of distances to the data |
| Statistics.ReportedMedianWithinOneStd | src/ai/ada.py:78-121 | the reported median lies within one reported standard deviation of the reported mean |
| Statistics.DetectAnomalies | src/ai/ada.py:123-145 | the indices returned are increasing and are exactly the points whose squared deviation exceeds threshold squared times the variance |
| Statistics.FlaggedIsZScore | src/ai/ada.py:139-144 | a point is flagged exactly if its z-score exceeds the threshold |
| Statistics.FewAnomalies | src/ai/ada.py:123-145 | k flagged points of n satisfy k t^2 < n - 1 |
| Statistics.CauchySchwarz | src/ai/ada.py:134-136 | the square of a sum is at most the number of terms times the sum of squares |
| Statistics.OnePointBounded | src/ai/ada.py:134-144 | no single deviation squared exceeds (n - 1)/n of the sum of squared deviations |
| Statistics.CanFlagIff | src/ai/ada.py:123-145 | a sample of n points can contain a flagged one exactly when n t^2 < (n - 1)^2 |
| Statistics.DefaultThreshold | src/ai/ada.py:123-128 | the default threshold two can flag something exactly from six points on |
| Conversations.ConversationStore.LoadRecent | src/ai/conversation_store.py:103-113 | reading the newest rows backwards and reversing them gives the last rows in order |
| Conversations.ConversationStore.Append | src/ai/conversation_store.py:75-83 | one row is appended |
| Conversations.ConversationStore.Clear | src/ai/conversation_store.py:124-130 | the rows of the principal, and no others, are removed |
| Conversations.MaxTurnIsGreatest | src/ai/conversation_store.py:115-122 | the last turn is the greatest stored, or 0 |
| Conversations.NewestInOrder | src/ai/conversation_store.py:105-113 | descending order with a limit, reversed, is the tail of the history |
| Conversations.LiuHaoAssistant.constructor | src/ai/liuhao.py:190-197 | a new assistant loads the last 20 messages and the last turn, which is the restart step of the runs |
| Conversations.LiuHaoAssistant.Chat | src/ai/liuhao.py:273-322 | a turn counts; a refused one changes nothing else; an answered one sends the last 20 messages and stores both messages under the turn, or as many as are inserted before an insert raises |
| Conversations.LiuHaoAssistant.CommitTurn | src/ai/liuhao.py:445-448 | the history grows by the two messages and the table by the same two rows, or by those inserted before an insert raises |
| Conversations.LiuHaoAssistant.Reset | src/ai/liuhao.py:539-543 | history, turn and the principal's rows are cleared |
| Conversations.StepSeenBy | src/ai/conversation_store.py:75-130 | a step on the shared table is a step alone for its principal and nothing for any other |
| Conversations.SharedTableIsPrivate | src/ai/conversation_store.py:75-130 | in every run each principal sees what it would see with a table of its own |
| Conversations.MemoryIsSuffixOfStore | src/ai/liuhao.py:194-197 | in every run the history in memory is the end of what is stored and holds at least its last 20 messages; stored turns never decrease |
| Conversations.PromptIsHistory | src/ai/liuhao.py:514-537 | in every run a prompt is the system text, the last 20 messages stored, and the new message, in this order |
| Conversations.RestartKeepsPrompt | src/ai/liuhao.py:514-537 | the prompt built now is the one an assistant restarted now would build |
| Conversations.UnsavedIsForgottenIff | src/ai/liuhao.py:445-448 | after a commit in which an insert may raise, a restart keeps the prompt exactly if both inserts succeeded, or neither did and the last 20 stored messages are this very turn ten times over |
| Conversations.RestartsAreInvisible | src/ai/liuhao.py:190-197 | restarts anywhere in a run change no stored message and no later prompt |
| Conversations.CommittedTurnIsNewIff | src/ai/liuhao.py:278-397 | after every run, a commit would store a turn above all stored ones exactly if nothing of the principal is stored or its last step began that turn; otherwise it repeats the last stored turn |
| Conversations.CommittedTurnIsNew | src/ai/liuhao.py:278 | so a turn just begun is above every stored turn of its principal, whatever the others do before it is committed |
| Conversations.OverlappingStreamsShareATurn | src/ai/liuhao.py:335-397 | two streams open at once store the same turn twice, and the second commit is not new in the sense above |
| Conversations.RestartKeepsTurnIff | src/ai/liuhao.py:197 | a restart keeps the turn counter exactly when it is 0 or its turn was stored |
| MessageBuses.MessageBus.Register | src/ai/collaboration.py:77-79 | an empty mailbox is made unless there is one |
| MessageBuses.MessageBus.Send | src/ai/collaboration.py:82-87 | a named message goes to its mailbox, made if needed; a broadcast to every existing mailbox |
| MessageBuses.MessageBus.Poll | src/ai/collaboration.py:89-94 | returns what was queued and leaves nothing queued; the list returned is still in use exactly if it was a registered, empty mailbox |
| MessageBuses.MessageBus.PollOne | src/ai/collaboration.py:96-106 | returns and removes the oldest message |
| MessageBuses.PolledListGrowsIff | src/ai/collaboration.py:82-94 | the list polled gets the next message to its agent exactly if it was a registered, empty mailbox |
| MessageBuses.EmptyPollIsDeliveredAgain | src/ai/collaboration.py:89-94 | a list got from an empty mailbox grows with the next message, which is then polled again |
| MessageBuses.StepKeepsFlow | src/ai/collaboration.py:77-106 | one step: handed out plus left over is what was there plus what came |
| MessageBuses.MailboxesOpened | src/ai/collaboration.py:77-87 | an agent has a mailbox exactly if it was registered or written to by name |
| MessageBuses.NothingLostOrReordered | src/ai/collaboration.py:77-106 | in every run what an agent has polled, then its mailbox, is the messages sent to it and the broadcasts sent while it had a mailbox, in order |
| MessageBuses.BroadcastMissesTheUnregistered | src/ai/collaboration.py:82-85 | a broadcast sent before registration is not delivered |
| Sums.TotalWithout | src/ai/economy.py:107-108 | a sum of dictionary values does not depend on the order of summation |
| Sums.SumValues | src/ai/economy.py:65 | the summation loop computes that sum |
| Budgets.BudgetEngine.Create | src/ai/economy.py:44-50 | construction is refused exactly for a negative total |
| Budgets.BudgetEngine.Reserve | src/ai/economy.py:54-70 | granted exactly if not blocked and the amount is positive and free; otherwise nothing changes |
| Budgets.BudgetEngine.Consume | src/ai/economy.py:72-81 | charged exactly if reserved and not blocked; otherwise nothing changes |
| Budgets.BudgetEngine.Release | src/ai/economy.py:83-88 | the reservation is removed if it exists |
| Budgets.StepKeepsSound | src/ai/economy.py:54-96 | each operation keeps consumed plus reserved within the total |
| Budgets.StepKeepsConserved | src/ai/economy.py:54-96 | each operation keeps every granted amount in exactly one place |
| Budgets.BudgetIsConserved | src/ai/economy.py:54-96 | in every interleaving of operations consumed plus reserved never exceeds the total, and each amount granted is charged, released or outstanding, exactly one of the three, with matching sums |
| Budgets.BlockedIffFrozen | src/ai/economy.py:90-100 | in every run the engine is blocked from a block to the next unblock, and then grants and charges nothing |
| Economies.BillingEngine.RecordUsage | src/ai/economy.py:164-181 | the usage of the model grows by the tokens and the cost, the bill over all models by the cost, and an unknown model is reported |
| Economies.BillingEngine.UsageReport | src/ai/economy.py:183-197 | the usage of each model, the sums over all models, and their number |
| Economies.EconomyEngine.Execute | src/ai/economy.py:211-240 | a call goes through exactly if not blocked with a positive, affordable cost; then both ledgers grow by it, the reservation is gone and the ignored result of consume is True; a refusal changes neither ledger |
| Economies.BilledIsConsumed | src/ai/economy.py:211-240 | with execute as only client the cost billed over all models is the budget consumed, nothing stays reserved, the total is never exceeded |
| Economies.UsageIsPriced | src/ai/economy.py:132-174 | in every run the usage of a model holds the tokens of its calls that went through, in, out and together, and their cost at the rates of the model |
| Economies.AcceptedIff | src/ai/economy.py:218-230 | so a call goes through exactly if the budget is not frozen by then, the cost positive, and the bill with it stays within the total |
| Economies.FreeCallsAreRefused | src/ai/economy.py:133-150 | a call whose cost is not positive is refused and changes nothing, and the cost is zero without a price, without tokens, or with prices of zero |
| ConcurrentCalls.NextKeepsOwned | src/ai/economy.py:218-232 | with several calls in flight each reservation belongs to one call and holds its cost |
| ConcurrentCalls.BooksWithCallsInFlight | src/ai/economy.py:211-240 | however the steps of calls and freezes interleave, each reservation belongs to one call, and the bill is the budget consumed plus what billed calls still hold |
| ConcurrentCalls.OverspentIff | src/ai/economy.py:64-69 | with reserve cut between its check and its hold, consumed plus reserved exceeds the total exactly if some call was held when its cost was no longer free |
| ConcurrentCalls.TooLateIsRaced | src/ai/economy.py:64-69 | that takes another call held between the check and the hold of this one |
| ConcurrentCalls.BackToBackIsSound | src/ai/economy.py:64-69 | if every check is followed at once by its hold, no run overspends |
| ConcurrentCalls.TwoCallsOverspend | src/ai/economy.py:64-69 | two calls that each cost the whole budget are both held |
| ConcurrentCalls.ConsumeFailsIff | src/ai/economy.py:232 | the ignored result of consume is False exactly if the last block came after the last unblock |
| ConcurrentCalls.StuckIffCaught | src/ai/economy.py:231-232 | a call is billed without being charged exactly if some charge was tried while the budget was frozen |
| ConcurrentCalls.QuietBooksAgreeIff | src/ai/economy.py:231-232 | when all calls are over, the bill is the budget consumed exactly if no billed call tries to charge while the budget is frozen; always, it is the budget consumed plus what is still reserved |
| ConcurrentCalls.FreezeParts | src/ai/economy.py:218-232 | one call, frozen between billing and charging, leaves a bill above the budget consumed |
| EvolutionLog.AllowedIffRecorded | src/ai/evolution.py:142-337 | the rules for which event may come next, and what it must say, are exact: some operation records it |
| EvolutionLog.LegalIsReachable | src/ai/evolution.py:142-337 | every trail that follows the rules is the trail of some run |
| EvolutionLog.Trail | src/ai/evolution.py:142-337 | and every run leaves a trail that follows the rules |
| EvolutionLog.LegalIsEarned | src/ai/evolution.py:199-231 | whoever replays a legal trail finds approved or deployed experiments approved by somebody and improved; the baseline never changes |
| EvolutionLog.TrailTellsStatus | src/ai/evolution.py:170-337 | a legal trail tells the state: which events have happened decides the status, and the last benchmark and approval the metric and the approver |
| EvolutionLog.ApprovalInForce | src/ai/evolution.py:199-231 | an approved experiment's last approval is in force: nothing measured, approved or rejected since |
| EvolutionLog.DeploymentRestsOnApproval | src/ai/evolution.py:236-272 | each deployment follows an approval by the same person of the same metric, above baseline, with no benchmark between |
| EvolutionLog.DeploymentIsFinal | src/ai/evolution.py:170-337 | after a deployment nothing is benchmarked, approved, rejected or deployed again |
| EvolutionLog.OnlyMissingApprovalStopsDeployment | src/ai/evolution.py:249-263 | deployment succeeds exactly from the approved status; its other two checks never refuse |
| EvolutionLog.ImprovedCanBeDeployed | src/ai/evolution.py:170-272 | from every state that is not terminal a benchmark above the baseline, an approval and a deployment lead to APPLIED |
| EvolutionEngines.Experiment.Benchmark | src/ai/evolution.py:170-196 | records the metric and returns to RUNNING, or raises; the trail still replays to the state |
| EvolutionEngines.Experiment.Approve | src/ai/evolution.py:199-231 | approves exactly an improved, non-terminal experiment; the trail still replays to the state |
| EvolutionEngines.Experiment.Deploy | src/ai/evolution.py:236-272 | deploys exactly an approved experiment; the trail still replays to the state |
| EvolutionEngines.Experiment.Monitor | src/ai/evolution.py:274-297 | records a metric of a deployed experiment, or raises |
| EvolutionEngines.Experiment.Rollback | src/ai/evolution.py:299-317 | rolls back exactly a deployed experiment |
| EvolutionEngines.Experiment.Reject | src/ai/evolution.py:319-337 | rejects exactly a non-terminal experiment |
| EvolutionEngines.EvolutionEngine.Propose | src/ai/evolution.py:142-167 | raises on an empty description or change, else registers an experiment with a one-event trail |
| EvolutionEngines.EvolutionEngine.Perform | src/ai/evolution.py:344-348 | an unknown id raises KeyError; otherwise only that experiment changes, and its trail grows by the operation's event |
| Numerals.ValueOfDigits | scripts/ops/https_proxy.py:80 | reading back the digits of a number, in any base, gives the number |
| Numerals.DecimalsAreDistinct | src/ai/enoch.py:196-200 | different numbers are written differently |
| Numerals.ValueOfPadded | src/ai/l10k.py:113 | leading zeros do not change the value |
| ChunkedCoding.HexIsRead | scripts/ops/https_proxy.py:80 | the size line written is read back as the chunk's length |
| ChunkedCoding.FrameIsRead | scripts/ops/https_proxy.py:80-82 | a frame puts its chunk in front of what follows |
| ChunkedCoding.FramesAreRead | scripts/ops/https_proxy.py:76-82 | every split into non-empty chunks decodes to the bytes that were split |
| ChunkedCoding.LastIsRead | scripts/ops/https_proxy.py:87 | the zero chunk ends the body with nothing after it |
| ChunkedCoding.CutIsNoticed | scripts/ops/https_proxy.py:76-87 | each proper prefix of a whole message decodes as incomplete, with an initial part of the body: the zero chunk stands only at the end |
| ChunkedCoding.Forward | scripts/ops/https_proxy.py:76-87 | the loop writes the frames of the chunks sent, and the zero chunk unless a read raised, up to the byte at which a write raises; it raises exactly if a read or a write does |
| ChunkedCoding.OutputIsFrames | scripts/ops/https_proxy.py:76-87 | without a write that raises the output is the frames of the chunks sent, then the zero chunk unless a read raised |
| ChunkedCoding.WrittenIsRead | scripts/ops/https_proxy.py:76-87 | what is written decodes to exactly the chunks sent, complete with the zero chunk and incomplete without |
| ChunkedCoding.ReceivedIsRead | scripts/ops/https_proxy.py:76-87 | the client decodes a complete body, that of the chunks sent, exactly if no read and no write raised; otherwise an incomplete one, an initial part of it |
| ChunkedCoding.SentUpToFailure | scripts/ops/https_proxy.py:83-86 | the chunks sent are those up to and including the first whose flush fails |
| ChunkedCoding.WholeBodyIff | scripts/ops/https_proxy.py:76-87 | the client gets the whole body exactly if no flush fails before the last chunk; otherwise a shorter body that looks complete |
| BenchmarkIds.TaskIdsAreDistinct | src/ai/l10k.py:112-113 | different counters give different identifiers, beyond four digits too |
| BenchmarkRegistry.RegisterKeepsAudited | src/ai/l10k.py:103-136 | a registration adds one task under a new id and one event |
| BenchmarkRegistry.RecordKeepsAudited | src/ai/l10k.py:150-222 | a record adds one event, and a value exactly if it was counted |
| BenchmarkRegistry.RunIsAudited | src/ai/l10k.py:112-222 | in every run the values recorded, and the tasks, are those replayed from the audit trail; each task is counted at most once, no trivial one, and only positive values |
| BenchmarkRegistry.RegisteredAre | src/ai/l10k.py:103-122 | in every run the tasks registered are those offered with a known level, a positive weight and a name, numbered in order |
| BenchmarkRegistry.FaultTold | src/ai/l10k.py:103-110 | a registration is refused exactly if it is not acceptable: for its level before its weight, and for its weight before its name |
| BenchmarkRegistry.FirstOfferCounts | src/ai/l10k.py:150-222 | in every run a task is counted exactly if a positive number was offered for it once it was registered and not trivial, with the first such number |
| BenchmarkRegistry.RefusalTold | src/ai/l10k.py:150-205 | a record that counts nothing leaves an event with the first of the four reasons that applies |
| BenchmarkRegistry.L10KRegistry.RegisterTask | src/ai/l10k.py:89-137 | unknown level, weight not positive and empty name are refused in this order; otherwise the next id is issued |
| BenchmarkRegistry.L10KRegistry.RecordVerifiedOutput | src/ai/l10k.py:140-223 | unknown, trivial, repeated and invalid records are refused in this order, each with its event |
| BenchmarkRegistry.L10KRegistry.BaselineReport | src/ai/l10k.py:241-294 | buckets and levels hold the sums over the counted tasks |
| BenchmarkRegistry.LevelsAddUp | src/ai/l10k.py:264-281 | a sum taken level by level is the whole sum |
| BenchmarkRegistry.CommonWeight | src/ai/l10k.py:256 | a weight common to all tasks multiplies the sum of their values |
| BenchmarkRegistry.ReportAddsUp | src/ai/l10k.py:248-281 | main and held-out buckets make up all counted tasks, the levels sum to the same, and their held-out parts to the held-out bucket |
| BenchmarkRegistry.EntriesCoverRecorded | src/ai/l10k.py:252-255 | in every run the tasks aggregated carry exactly the values recorded |
| BenchmarkRegistry.ReportCoversRecorded | src/ai/l10k.py:241-294 | in every run the main and held-out buckets of the report make up the sum and the number of all values recorded, and so do the levels |
| BenchmarkRegistry.HeldOutIsIsolated | src/ai/l10k.py:258-261 | counting a held-out task changes neither the count nor the sums of the main bucket |
| Organizations.HireKeepsPlacesIff | src/ai/organization.py:149-170 | a hire keeps everybody in exactly one list exactly if the name is new or its old department does not exist |
| Organizations.AssignKeepsPlaces | src/ai/organization.py:172-182 | an assignment keeps everybody in exactly one list |
| Organizations.EverybodyInOnePlace | src/ai/organization.py:149-182 | in every run with fresh names each member is listed exactly once in its own department, if that exists, and in no other |
| Organizations.FirstActiveFits | src/ai/organization.py:278-282 | the member chosen is active in the role and no earlier hired one is |
| Organizations.ChosenIsFirstActive | src/ai/organization.py:278-282 | in every run a task goes to the first member hired who, by the operations so far, is active in the role |
| Organizations.BooksAlwaysBalance | src/ai/organization.py:149-241 | in every run each member is listed once, and the money spent is the sum of the audited spends and within a non-negative total |
| Organizations.SpendsIff | src/ai/organization.py:65-69 | in every run a spend goes through exactly if it is not negative and the audited spends, with it, stay within the total |
| Organizations.TalliesCountEndings | src/ai/organization.py:185-198 | in every run the tallies of a member count how the tasks given to it since its last hire ended: completed, reported as failed, or, in submitted only, with an exception |
| Organizations.TrailCountsEndings | src/ai/organization.py:185-198 | in every run the audit trail reports as many completed, and as many failed, tasks of a member since its last hire |
| Organizations.TalliesBalanceIff | src/ai/organization.py:185-275 | the tallies of the whole organization balance exactly if no task given to a present member since its hire ended in an exception; otherwise submitted is larger |
| Organizations.RaisingCallIsLost | src/ai/organization.py:185-198 | one hire and one delegated task whose agent raises: submitted, in neither other tally, and not in the audit log |
| Organizations.TrailTellsStanding | src/ai/organization.py:149-235 | in every run the audit trail tells role, department and status of each member |
| Organizations.OpsTellStanding | src/ai/organization.py:149-235 | and so do the operations on its name: role and department last given, and whether it was suspended or terminated since it was hired |
| Organizations.NamesAreHiredInOrder | src/ai/organization.py:161-167 | members are looked through in the order of their first hires |
| Organizations.DepartmentsAreCreated | src/ai/organization.py:137-141 | the departments are those created, and those that the audit trail says were created |
| Organizations.Budget.Spend | src/ai/organization.py:65-69 | spends exactly an amount between 0 and what remains |
| Organizations.Organization.Hire | src/ai/organization.py:149-170 | the hire step: member, list and audit entry |
| Organizations.Organization.Assign | src/ai/organization.py:172-182 | the assign step, refused for an unknown member or department |
| Organizations.Organization.Delegate | src/ai/organization.py:185-198 | the delegate step for the first active member: one submission, then a completion or failure with its audit entry, or an exception and neither |
| Organizations.Organization.Spend | src/ai/organization.py:237-241 | the spend step, audited only if it succeeds |
| Organizations.Organization.Report | src/ai/organization.py:255-275 | the three tallies are the sums over all members, whether they balance or not; success rate, budget and sizes as in the state |

## Left out

* `execute_graph`: the futures of one round are a block that ends before the next round; the executor's
  answer is a function of the task id, with four endings: it returns, it raises, it returns and the
  bookkeeping after it raises, or the span before it raises. The `except` branch itself always ends in an
  exception, of the bookkeeping or of `end_span`; which one changes only a text, which is not modelled. The
  endless retry is reported as the outcome `Spins`; the KeyError of a batch that repeats an id is the outcome `RepeatedTask`.
* `get_execution_order()` and `has_cycle()` without argument are the calls with the list of all nodes.
* `get_ready_tasks`, the reverse dependency map, goal decomposition and the parsing of model output, and
  `get_graph_summary` of the task graph.
* Workflow: texts, messages, agent outputs and timestamps; a missing goal; the error text set when the
  iteration limit is reached; checkpoints and the recursion limit of the graph library, which is not
  part of this model. The plan comes from the model's JSON, and a uuid is only the default for a missing id:
  safety and completion assume that no plan repeats an id. Completion also assumes that no id is empty.
* Floating point: metrics, money, costs and statistics are real numbers, and standard deviations are
  compared by their squares; rounding in reports is not modelled.
* Reasoning: a step's premises are a multiset, where the code sorts them; confidence, justification and
  the generative `reason`.
* Missions: timestamps, the replan hint, listing, and the JSON text itself; a file holds a mission, and
  the payload conversions are proved inverse. Attempts that are not a number are not modelled.
* Statistics: `run_python`, `run_sql` and `visualize`.
* Conversation: SQLite itself (a table is a sequence of rows), tool calls inside a turn, quota, memory
  and audit writes, and the text of the system prompt. An assistant not yet built stands for one that
  will load when it is. The runs of several steps have inserts that fail only with the process (`Died`); an
  insert that raises in a process that lives on is a parameter of `Chat` and `CommitTurn`, and
  `UnsavedIsForgottenIff` says what follows.
* Message bus: message ids and timestamps, roles, teams and pipelines.
* Economy: observation of metrics and rounding to six digits. `EconomyEngine.Execute` is one step; calls in
  flight at the same time are the subject of `ConcurrentCalls`, on values. There `reserve` is cut into check
  and hold, but `record_usage` and `consume` are single steps: an update lost inside one of them, when two
  threads add to the same figure, is not modelled.
* Evolution: timestamps and ids in events. The six operations are methods of the experiment that the
  engine looks up first; `Perform` is the lookup followed by the operation.
* Proxy: request forwarding and headers. A write that raises is modelled as a number of bytes after which
  no more gets out; the bytes of a failed flush are taken to arrive with a later one.
* Registry: `compute_vhl`, timestamps, and boolean values, which the code accepts as numbers. An
  identifier is its number, or some other text.
* Organization: goals, teams, policies and memory, with their counts in the report and their audit entries;
  KPI snapshots and latencies; the agents' own work, of which only how it ends is kept.
