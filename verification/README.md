# Fleet supervisor: verified model

A Dafny model of the hard core of the central server: the realtime dispatcher that keeps a fleet of robots busy, the
plan executor it drives, and the algorithms around them. Everything is stated for all inputs, all interleavings or all
reachable states. `dafny verify dfyconfig.toml` checks the project.

## What is modelled

**The realtime session** (`SessionProtocol`, `Contexts`, `RealtimeSession`). A session's tick works in many short
critical sections. `SessionProtocol` models each of them as one atomic action and lets executions progress, stops and
overwrites of the planner state happen between any two. Mutual exclusion and exactly-once folding are proved over every
such run; `LostResets` says which resets survive a sync. `RealtimeSession` is the session object; its `Tick` performs
the code's loops and is proved to be a run of the protocol, so the protocol's guarantees hold of every session object.

**Dispatch** (`Dispatch`, `Conditions`, `Activation`, `Candidates`, `Eligibility`, `Arbitration`, `Fairness`). The
activation search, the busy and reservation filters, one agent's candidate, the candidates of a whole tick under the
provisional reservation set, the ranked greedy arbitration, and the rotation with its overtaking bound. What the
dispatcher asks others (are conditions met, is a goal satisfied, is an agent idle, what does the planner answer) is a
record of functions, `Services`. The server's own expansion and evaluation of conditions is spelled out in
`Activation` and `Conditions`. The planner is assumed only to give every task of a plan to the one agent it was asked
for, which any planner can be made to do (`Dispatch.ReassigningIsHonest`).

**The plan executor** (`Executor`, `PlanExecution`, `Schedule`, `Effects`, `Outcomes`, `Replay`, `ParallelGroups`).
The order loop, one goroutine per step and cancellation at any moment form a transition system whose runs keep the
barrier and the terminal guarantees; the class `PlanExecution` performs its critical sections and the order loop
itself, so that the guarantees hold of every execution object. The session recomputes from a snapshot what the
executor wrote: step by step the two agree under an exact condition, over a plan they agree for every completion order
under an exact condition, and for the single-agent plans the session dispatches the second condition always holds,
because the planner puts such tasks at orders 0, 1, 2, ...

**Planner state** (`MergeState`, `MergePolicies`, `Reservation`, `Holders`, `RuntimeState`). Merge policies with their
score arithmetic, the merge of telemetry overlays, the reservation clean-up, and resets and upserts across all
sessions. In `RuntimeState` overlay values are map objects with identity, because the code deletes keys from them in
place.

**Resources and parameters** (`Binding`, `Naming`, `Substitution`). The planner's catalog and capacity count against the
executor's greedy naming of instances, and the placeholder scanner with its staged law over strings, JSON values, field
sources and whole parameter sets.

**Trees and goals** (`GraphConverter`, `Routing`, `Placeholders`, `GoalExpansion`, `Grounding`). The step list to
graph converter as a normalising round trip, and goal placeholder expansion under any map iteration order.

**Edit lock** (`EditLock`). The lease on a behaviour tree over every run of atomically handled requests.

The functions that a method is proved against are themselves pinned by lemmas that do not mention them: `Outcomes`,
`Eligibility`, `Holders`, `Naming`, `Routing` and `Grounding` say in the words of messages, state keys, resource lists,
steps and placeholders what the methods do.

`Text` and `Planning` hold the shared string operations and the planner's vocabulary.

## Where the code falls short of the obvious property

- A reset that arrives between a sync's read of the planner state and its write-back is lost
  (`LostResets.ResetCanBeLost`); `LostResets.ResetSurvivesIff` says exactly which resets survive.
- A step whose start is refused, a failure without a message, a bare `e:` and effect variables with surrounding space
  make replay and execution differ (`Effects.BareErrorIsReplayedWrong`); the condition in `Effects.ReplayWritesMatchIff`
  is exact.
- The score of merge policies breaks with the 101st policy of a session's list
  (`MergePolicies.HundredPoliciesIsTheLimit`).
- The planner's grouping can give one agent two tasks of the same order (`ParallelGroups.AgentCanBeDoubleBooked`),
  exactly when `ParallelGroups.DoubleBookedIff` says so; and its search for an order does not end when a requested type
  has no instance left (`ParallelGroups.ScarceTypeNeverEnds`), exactly as `ParallelGroups.EndsIffSupplied` says.
- Goal expansion can depend on map order even with names free of braces (`GoalExpansion.OneGoalTwoOutcomes`).
  `Placeholders.OrderFreeIffCalm` is the exact condition for all texts to have one result, and
  `Placeholders.AtOnceIffNothingAppears` the exact condition for every order to replace the placeholders of a given text
  at once; goals written with whole placeholders only are safe (`GoalExpansion.CarefulGoalsAreSure`).
- A second stage of substitution is harmless for fewer, and other, values than those free of `$`, `{` and `}`: a closing
  brace does no harm, an empty value does (`Substitution.StagingIsHarmlessIffTame`). Over JSON values a value that is
  itself a JSON document can hide a hole behind an escape sequence, and the law fails
  (`Substitution.HiddenOpeningBreaksStages`); `Substitution.StagesAgreeIffSettled` is the exact condition.
- Terminal steps lose their edges in the graph round trip (`GraphConverter.TerminalLosesItsEdge`), and failure
  transitions lose a negative back-off, or a negative retry count without back-off; `GraphConverter.StepEdgesComeBack`
  is exact.
- The lock handlers read and write the tree record in separate database calls; two sessions whose requests interleave
  are both granted the lock, exactly in the cases of `EditLock.TwoGrantsIff`.
- Evaluating a condition fails on short mode keys (`Conditions.FailsIff`).
- `behavior_tree_lock.go` declares a heartbeat extension of two minutes, but the handler renews by the full five
  minutes. The model follows the handler.
- `selectRealtimeDispatchCandidates` is not called by the tick; it is modelled because it states the intended
  arbitration, and it is proved to drop nothing the tick would dispatch.

## Model

| member | source | states |
|---|---|---|
| SessionProtocol.MutualExclusion | central_server_go/internal/api/realtime_pddl.go:628-812 | in every state of every interleaving of ticks, progress, overwrites and stops, two active executions that are pending or running have different ids, disjoint agents and disjoint resource keys |
| SessionProtocol.RunKeepsInv | central_server_go/internal/api/realtime_pddl.go:628-812 | the inductive invariant behind it: what the tick's local variables hold, what the registry knows and what is offered stay consistent through every critical section |
| SessionProtocol.FoldedAtMostOnce | central_server_go/internal/api/realtime_pddl.go:995-1114 | over every run no execution is folded into the planner state twice |
| SessionProtocol.NoExecutionIsLost | central_server_go/internal/api/realtime_pddl.go:995-1114 | between ticks of a session that was never stopped, a started execution is folded if and only if it is no longer active |
| SessionProtocol.EndedExecutionIsFolded | central_server_go/internal/api/realtime_pddl.go:1027-1068 | an execution that had ended when a sync listed it is folded by that very sync, whatever happens meanwhile |
| SessionProtocol.SyncWritesFoldedEffects | central_server_go/internal/api/realtime_pddl.go:1014-1071 | what a sync writes back is the state it read plus the effects of exactly the executions it folds |
| SessionProtocol.SyncForgetsInterveningWrites | central_server_go/internal/api/realtime_pddl.go:1014-1071 | the state written back depends only on the state at the read and the folded effects, whatever was written in between |
| LostResets.ResetSurvivesIff | central_server_go/internal/api/realtime_pddl.go:1014-1071 | a value a reset wrote, which no later reset or merge changed before the next write-back, is still there afterwards if and only if the folded effects write that very value, or leave the key alone and the reset came before the sync's read or wrote what the sync had read |
| LostResets.ResetInWindowLeavesNoTrace | central_server_go/internal/api/realtime_pddl.go:1014-1071 | from every session with executions, a sync with a reset between its read and its write-back ends in the same session as the sync without the reset |
| LostResets.ResetCanBeLost | central_server_go/internal/api/realtime_pddl.go:335-397 | a run from the initial state in which a reset to shut is followed by a planner state that says open |
| SessionProtocol.SyncIsARun | central_server_go/internal/api/realtime_pddl.go:995-1114 | an uninterrupted sync is a run of the protocol that ends in a closed form: folded effects, surviving jobs, folded ids |
| SessionProtocol.SurveyIsARun | central_server_go/internal/api/realtime_pddl.go:1275-1319 | an uninterrupted survey ends with exactly the agents and keys of the live jobs |
| SessionProtocol.StartIsARun | central_server_go/internal/api/realtime_pddl.go:721-794 | a start request followed by its record makes the offer an active job |
| Contexts.ListingIsUnique | central_server_go/internal/api/realtime_pddl.go:1007-1012 | start time then id is a total order, so the sorted listing of the active map is one list whatever the iteration order |
| Contexts.SyncIsOrderFree | central_server_go/internal/api/realtime_pddl.go:995-1071 | the state after a sync does not depend on the iteration order of the active map |
| Contexts.ListActive | central_server_go/internal/api/realtime_pddl.go:996-1012 | the active executions, each once, in ascending start order |
| Contexts.FoldExecution | central_server_go/internal/api/realtime_pddl.go:1027-1068 | a live execution is kept, an ended one contributes its replayed writes, a completed one clears its goal's failure |
| Contexts.FoldExecutions | central_server_go/internal/api/realtime_pddl.go:1027-1068 | the whole loop: next state, surviving executions and completed goals as functions of the listing |
| Contexts.SurvivingJobs | central_server_go/internal/api/realtime_pddl.go:1029-1046 | the executions a sync keeps are exactly the live jobs of the protocol |
| Contexts.CollectBusy | central_server_go/internal/api/realtime_pddl.go:1275-1319 | the busy sets are the agents and keys of the live jobs, in any iteration order; a resource or agent is busy exactly when the plan or the binding of an execution that is pending or running names it |
| Contexts.JobIsNamed | central_server_go/internal/api/realtime_pddl.go:1275-1355 | what an execution occupies is exactly what its binding or an assignment of its plan names: one of the four resource parameters, a fleet binding, the bound resource; likewise for agents |
| RealtimeSession.RealtimeSession.constructor | central_server_go/internal/api/realtime_pddl.go:243-264 | a new session is the protocol's initial state |
| RealtimeSession.RealtimeSession.SyncExecutions | central_server_go/internal/api/realtime_pddl.go:995-1114 | an execution stays active if and only if its status is pending or running, with its context unchanged; the state is independent of iteration order; every dropped execution is folded; all tied to the protocol |
| RealtimeSession.RealtimeSession.MergeOverlays | central_server_go/internal/api/realtime_pddl.go:2258-2294 | returns the merged state and leaves the refreshed planner state; nothing else changes |
| RealtimeSession.RealtimeSession.ChooseWork | central_server_go/internal/api/realtime_pddl.go:670-719 | the candidates of the tick as a function of merged state and standing; they become a legal choice of the protocol |
| RealtimeSession.RealtimeSession.StartCandidates | central_server_go/internal/api/realtime_pddl.go:721-794 | the fleet after all start requests; each answer, id or refusal, is recorded in order |
| RealtimeSession.AcceptedIsActive | central_server_go/internal/api/realtime_pddl.go:721-794 | every accepted candidate is active and pending under its id, with its plan, goal, binding and start time |
| RealtimeSession.OnlyAcceptedAreNew | central_server_go/internal/api/realtime_pddl.go:721-794 | nothing else becomes active, and what was there before stays as it was |
| RealtimeSession.LastAnswerDecides | central_server_go/internal/api/realtime_pddl.go:735-794 | the last answer for a goal decides its record: refused under the candidate's key, or cleared |
| RealtimeSession.LastAcceptedLeads | central_server_go/internal/api/realtime_pddl.go:776-778 | the rotation continues behind the agent of the last accepted candidate that binds one |
| RealtimeSession.RealtimeSession.Tick | central_server_go/internal/api/realtime_pddl.go:628-812 | a whole tick keeps the session a reachable protocol state, folds every ended execution, and yields a new state and fleet that are functions of the old ones, independent of map iteration order |
| RealtimeSession.RealtimeSession.Stop | central_server_go/internal/api/realtime_pddl.go:277-309 | stop forgets all active executions and leaves the planner state |
| RealtimeSession.RealtimeSession.Progress | central_server_go/internal/api/realtime_pddl.go:1034-1046 | the executor's status report of one execution, as a protocol step |
| RealtimeSession.FleetIsExclusive | central_server_go/internal/api/realtime_pddl.go:628-812 | any session object, however it came about: of two executions that are pending or running no agent is sent by both and no resource is named by both |
| RealtimeSession.NoMachineIsShared | central_server_go/internal/api/realtime_pddl.go:628-812 | the same in the words of the plans: no resource parameter, fleet binding, bound resource or assigned agent of one pending or running execution is, trimmed, one of another's |
| RealtimeSession.FoldsAreOnce | central_server_go/internal/api/realtime_pddl.go:995-1114 | any session object: folded ids are distinct and none of them is active |
| RealtimeSession.TickIsARound | central_server_go/internal/api/realtime_pddl.go:776-778 | a tick that starts its only candidate, whose goal binds its agent, is a round of the rotation and remembers that agent |
| Effects.AppendMessageEffect | central_server_go/internal/executor/plan_executor.go:606-626 | overwrites the first effect on the message variable or appends one |
| Effects.ReplayMatchesExecution | central_server_go/internal/api/realtime_pddl.go:1173-1214 | the session's recomputed list of effects of a step is the executor's if and only if the step's outcome meets a condition on its message |
| Effects.ReplayWritesMatchIff | central_server_go/internal/api/realtime_pddl.go:1132-1214 | the session writes what the executor wrote for a step if and only if a refused start had nothing to write, or no effect variable carries surrounding space and the message is replayed faithfully or overwritten by another effect: the exact border, for all steps and outcomes |
| Effects.BareErrorIsReplayedWrong | central_server_go/internal/api/realtime_pddl.go:1173-1214 | a task that ends with a bare e: and has a message variable: session and executor write different values |
| Effects.SameWritesIffTidy | central_server_go/internal/executor/plan_executor.go:589-604 | executor (raw variable names) and session (trimmed names) write the same map if and only if no effect variable has surrounding space |
| Effects.ApplyPlanningEffects | central_server_go/internal/executor/plan_executor.go:589-604 | the planning state plus what the effects write |
| Effects.EndStatus | central_server_go/internal/executor/plan_executor.go:398-478 | the step ends completed exactly when it reports no error |
| Outcomes.ClassIsTag | central_server_go/internal/executor/plan_executor.go:637-652 | the class of a message is read off its first two characters, w or W or e or E and a colon, and the payload is the trimmed rest |
| Outcomes.MessageTaken | central_server_go/internal/executor/plan_executor.go:589-626 | writing effects with a message: every key gets the last effect on it, the first effect on the message variable carries the message, and no other key changes |
| Outcomes.ExecutionLeaves | central_server_go/internal/executor/plan_executor.go:405-478 | what a finished task leaves in planner state, step status and step error, for each kind of message and for a failure |
| Outcomes.ReplayLeaves | central_server_go/internal/api/realtime_pddl.go:1173-1214 | the same for the session's replay of a recorded step |
| Replay.ApplyExecutionEffects | central_server_go/internal/api/realtime_pddl.go:1132-1171 | the state plus the writes of the ended steps in plan order |
| Replay.ReplayStep | central_server_go/internal/api/realtime_pddl.go:1152-1171 | an ended step is replayed by its status and the characters of its recorded text; any other step changes nothing |
| Replay.RecordedIsOrderFree | central_server_go/internal/api/realtime_pddl.go:1132-1150 | with distinct task ids the index of a snapshot does not depend on the snapshot's order |
| Schedule.EveryInterleavingMatchesReplay | central_server_go/internal/executor/plan_executor.go:258-312 | every completion order the barrier allows writes what the listed replay writes if and only if, per variable, the possible last writers agree with the last listed writer |
| Schedule.OrderedDisjointStepsAgree | central_server_go/internal/executor/plan_executor.go:258-312 | listed by order with disjoint variables per order is sufficient |
| Schedule.UnorderedListingDiverges | central_server_go/internal/api/realtime_pddl.go:1152-1171 | without the listing order replay and execution really differ |
| Executor.RunKeepsInv | central_server_go/internal/executor/plan_executor.go:218-329 | invariant of every interleaving of the order loop, the step goroutines and cancellation |
| Executor.StepsStartAfterLowerOrders | central_server_go/internal/executor/plan_executor.go:258-312 | the barrier: when a step starts, every step of a lower order has completed |
| Executor.TerminalExecutionIsQuiet | central_server_go/internal/executor/plan_executor.go:314-328 | in a terminal state no step is running, and Completed means that every step completed |
| Executor.TerminalIsFinal | central_server_go/internal/executor/plan_executor.go:924-991 | after a terminal status nothing changes but the cancel flag |
| Executor.RunKeepsBarrier | central_server_go/internal/executor/plan_executor.go:258-312 | in every reachable state a step that has started has every step of a lower order completed |
| PlanExecution.GroupByOrder | central_server_go/internal/executor/plan_executor.go:152-185 | group k holds the assignments of order k in plan order |
| PlanExecution.GroupsPartition | central_server_go/internal/executor/plan_executor.go:152-185 | the groups together are the plan, as a multiset |
| PlanExecution.PlanExecution.constructor | central_server_go/internal/executor/plan_executor.go:124-215 | a new execution is the protocol's initial state |
| PlanExecution.PlanExecution.MarkRunning | central_server_go/internal/executor/plan_executor.go:219-221 | the boot step of the protocol |
| PlanExecution.PlanExecution.FailLoading | central_server_go/internal/executor/plan_executor.go:224-251 | missing trees or a missing planning context fail the execution before any step |
| PlanExecution.PlanExecution.FinishLoading | central_server_go/internal/executor/plan_executor.go:240-256 | the order loop begins at order 0 |
| PlanExecution.PlanExecution.CancelContext | central_server_go/internal/executor/plan_executor.go:1085-1104 | the context may be cancelled at any moment |
| PlanExecution.PlanExecution.SkipOrder | central_server_go/internal/executor/plan_executor.go:266-269 | an order without assignments is skipped |
| PlanExecution.PlanExecution.EnterOrder | central_server_go/internal/executor/plan_executor.go:271-289 | dispatching a group spawns exactly its steps |
| PlanExecution.PlanExecution.BeginStep | central_server_go/internal/executor/plan_executor.go:361-387 | marks the step running |
| PlanExecution.PlanExecution.FailStart | central_server_go/internal/executor/plan_executor.go:388-396 | a refused start fails the step with the error's text and changes neither planner state nor another step |
| PlanExecution.PlanExecution.EndStep | central_server_go/internal/executor/plan_executor.go:398-478 | how the step ended and what it wrote, by the characters of its message, in step with the protocol; error exactly when the outcome is one; no other step changes |
| PlanExecution.PlanExecution.NextOrder | central_server_go/internal/executor/plan_executor.go:303-312 | a group in which every step completed lets the loop go on |
| PlanExecution.PlanExecution.RunGroup | central_server_go/internal/executor/plan_executor.go:276-301 | the goroutines of a group move in any order, with cancellation in between, until all have ended; there is an error text exactly when a step did not complete, and it is about such a step, whichever error arrives last |
| PlanExecution.PlanExecution.Run | central_server_go/internal/executor/plan_executor.go:218-329 | every load result, outcome, interleaving and cancellation: a load error fails the execution with that text before any step; without one it completes if no outcome is an error and the context was never cancelled, and only if no outcome is an error; a failure carries the text of a step that ended with an error; cancelled before the first order nothing starts; the context counts as cancelled exactly when the environment cancelled it at a moment reached |
| PlanExecution.PlanExecution.Round | central_server_go/internal/executor/plan_executor.go:260-313 | a context cancelled before an order's group starts none of its steps and ends the execution cancelled; otherwise the round ends the execution only by cancellation or for a step that ended with an error, or the next order follows |
| PlanExecution.PlanExecution.Complete | central_server_go/internal/executor/plan_executor.go:314-318 | the finishing step of the protocol |
| PlanExecution.PlanExecution.Fail | central_server_go/internal/executor/plan_executor.go:924-938 | a failed group fails the execution |
| PlanExecution.PlanExecution.Cancel | central_server_go/internal/executor/plan_executor.go:975-991 | a cancelled context cancels the execution |
| PlanExecution.PlanExecution.Snapshot | central_server_go/internal/executor/plan_executor.go:1024-1063 | lists every step's record once, in whatever order the map yields |
| PlanExecution.SettleStep | central_server_go/internal/executor/plan_executor.go:398-478 | effects and final record for all four endings of a started task; written to any state they leave what the characters of the message say |
| PlanExecution.ReplayRefinesExecution | central_server_go/internal/api/realtime_pddl.go:1132-1171 | in every reachable state of every run, replaying any snapshot writes exactly what the executor has written so far |
| PlanExecution.StartedAfterLowerOrders | central_server_go/internal/executor/plan_executor.go:258-312 | any execution object: a started step has every step of a lower order completed |
| PlanExecution.TerminalObjectIsQuiet | central_server_go/internal/executor/plan_executor.go:314-328 | any execution object that is terminal has no running step, and Completed means every step completed |
| PlanExecution.SnapshotReplaysObject | central_server_go/internal/api/realtime_pddl.go:1132-1171 | any execution object: replaying any of its snapshots writes what it has written |
| PlanExecution.RunReplaysExactly | central_server_go/internal/api/realtime_pddl.go:1132-1171 | if every outcome writes alike, steps are listed by order and steps of one order write different variables, then after any interleaving every snapshot replays to exactly what was written |
| PlanExecution.SingleAgentPlansReplayExactly | central_server_go/internal/api/realtime_pddl.go:870-884 | for the plans the realtime session dispatches (one agent) the refinement needs no condition on the variables written |
| ParallelGroups.ComputeParallelGroups | central_server_go/internal/pddl/planner.go:384-477 | on every list whose searches end, the in-place array ends up holding the orders of the run |
| ParallelGroups.SingleAgentOrders | central_server_go/internal/pddl/planner.go:384-477 | tasks of one agent get orders 0, 1, 2, ...: they run one after the other |
| ParallelGroups.GroupsShareNoInstance | central_server_go/internal/pddl/planner.go:404-469 | two tasks that take the same instance, named or chosen for a type, never share an order: the later listed runs later |
| ParallelGroups.GroupsDoNotDisturb | central_server_go/internal/pddl/planner.go:437-449 | tasks of one order never disturb each other: what one holds while it runs the other does not set to another value |
| ParallelGroups.ResourceSearchEnds | central_server_go/internal/pddl/planner.go:413-430 | the search for an order ends if and only if every requested type has an instance no earlier task took |
| ParallelGroups.EndsIffSupplied | central_server_go/internal/pddl/planner.go:384-477 | the searches for a whole list end if and only if every type a task asks for has an instance no earlier task takes, a condition on tasks and types alone |
| ParallelGroups.ScarceTypeNeverEnds | central_server_go/internal/pddl/planner.go:413-430 | two tasks that each ask for a type with one instance: there is no run, the search for the second does not end |
| ParallelGroups.AgentCanBeDoubleBooked | central_server_go/internal/pddl/planner.go:432-449 | three tasks for which one agent gets two tasks of the same order |
| ParallelGroups.DoubleBookedIff | central_server_go/internal/pddl/planner.go:432-449 | a placement gives an agent a second task of the same order if and only if the first order free for the agent clashes with a during state and the search around the clash stops at an order that has the agent |
| ParallelGroups.SharedOrderIff | central_server_go/internal/pddl/planner.go:384-477 | over every run: a task shares its order with an earlier task of its agent if and only if its placement does that |
| ParallelGroups.DomesticClashesNeverDoubleBook | central_server_go/internal/pddl/planner.go:384-477 | a task list without during clashes between different agents never gives two tasks of one agent the same order |
| Dispatch.MarkBusy | central_server_go/internal/api/realtime_pddl.go:1321-1347 | adds exactly the agents the assignments are given to and the resources they name |
| Dispatch.PlanConflicts | central_server_go/internal/api/realtime_pddl.go:1357-1403 | a value is a conflict if and only if it is busy and an assignment names it |
| Dispatch.PlanKeysAreNamed | central_server_go/internal/api/realtime_pddl.go:1321-1355 | a plan's keys are exactly the trimmed values of the four resource parameters and the fleet bindings of its assignments with parameters |
| Dispatch.RotateAgents | central_server_go/internal/api/realtime_pddl.go:1900-1925 | the agents in ring order, starting after the preferred one |
| Dispatch.ActivationIsExact | central_server_go/internal/api/realtime_pddl.go:1807-1872 | the search succeeds if and only if some pair in scope satisfies the fully expanded conditions |
| Dispatch.ActivatedByFirst | central_server_go/internal/api/realtime_pddl.go:1807-1872 | the binding is that of the first satisfying pair in rotated-agent, then resource order |
| Dispatch.ActivationConditionsMet | central_server_go/internal/api/realtime_pddl.go:1807-1872 | the loops compute that search |
| Activation.ExpandConditions | central_server_go/internal/api/realtime_pddl.go:1874-1898 | the conditions trimmed and filled in for a resource and then for an agent |
| Activation.PairIsMet | central_server_go/internal/api/realtime_pddl.go:1838-1849 | a pair satisfies the conditions if and only if the expanded conditions have no placeholder left and all of them are met |
| Activation.ConcreteActivationIsExact | central_server_go/internal/api/realtime_pddl.go:1807-1872 | a goal without placeholders is activated if and only if its conditions are met, any other if and only if some agent and resource in scope satisfy its conditions expanded for them |
| Grounding.ConditionIsMeant | central_server_go/internal/api/realtime_pddl.go:1874-1898 | a condition text of plain pieces and whole placeholders, expanded for an agent and a resource: every placeholder becomes the field it names, resource placeholders only for a resource with an id or a name, and likewise for agents |
| Grounding.UnresolvedIff | central_server_go/internal/api/realtime_pddl.go:1927-1937 | expanded conditions are unresolved exactly when a variable or a value still has a placeholder of either family |
| Grounding.FlaggedIff | central_server_go/internal/api/realtime_pddl.go:1723-1749 | the two flags of a goal say exactly whether a condition or a goal entry has an agent, or a resource, placeholder |
| Activation.CarefulConditionsAreSure | central_server_go/internal/api/realtime_pddl.go:1874-1898 | conditions with whole placeholders only have one expansion for all names without an opening brace |
| Conditions.ConditionsMet | central_server_go/internal/api/realtime_pddl.go:1974-1997 | all conditions are met, or the first that is unmet or fails decides |
| Conditions.FailsIff | central_server_go/internal/api/realtime_pddl.go:2005-2042 | the evaluation fails if and only if a condition waits for idle or ready on a key that ends in _mode and has fewer than seven bytes |
| Conditions.ShortModeKeyFails | central_server_go/internal/api/realtime_pddl.go:2005-2042 | the key a_mode is such a case |
| Conditions.ReadAsIdleIff | central_server_go/internal/api/realtime_pddl.go:2005-2042 | a condition reads idle exactly when it asks for idle or ready on a status or mode key, in any case, of an agent on record as not executing whose value is an error or a warning; otherwise it reads what is recorded |
| Conditions.OnlyStaleValuesChange | central_server_go/internal/api/realtime_pddl.go:2005-2042 | the leniency only turns a stale error or warning of an agent that does not execute into idle |
| Candidates.BuildCandidate | central_server_go/internal/api/realtime_pddl.go:814-928 | only goals for which the planner answered with an error, an invalid or an empty plan change their record; the first wanted goal is the candidate if its plan uses nothing busy; with distinct goals the candidate is the first wanted goal with such a plan, and exactly the wanted goals before it without a plan are recorded |
| Candidates.OnlyUnplannableAreRecorded | central_server_go/internal/api/realtime_pddl.go:868-894 | a search changes the record of a goal only if the planner has no plan for it; a busy resource leaves no record |
| Candidates.FirstWantedIsTaken | central_server_go/internal/api/realtime_pddl.go:840-925 | where no goal before is wanted, the first wanted goal with a plan free of busy keys is the candidate and nothing is recorded |
| Candidates.SearchStops | central_server_go/internal/api/realtime_pddl.go:840-925 | distinct goals: where the search stops, what it finds and what it records |
| Eligibility.BoundToFirstFit | central_server_go/internal/api/realtime_pddl.go:833-851 | a goal that mentions a resource is bound to the first listed instance of an asked type that is idle, not held by another agent and meets the conditions, or to none when there is none |
| Eligibility.BoundWithoutResource | central_server_go/internal/api/realtime_pddl.go:843-851 | a goal that mentions no resource is bound exactly when its conditions hold |
| Eligibility.OpenIsUnreserved | central_server_go/internal/api/realtime_pddl.go:1627-1660 | the reservation filter lets a resource through exactly when its entry, by name before id, names nobody or the agent by id or name, in any case, with hyphens or underscores |
| Candidates.FoundIsGood | central_server_go/internal/api/realtime_pddl.go:833-928 | a dispatched candidate is for this agent alone, uses no busy key, and its bound resource is a listed instance neither busy nor reserved by another agent |
| Candidates.CollectCandidates | central_server_go/internal/api/realtime_pddl.go:691-719 | the candidates of one tick under the provisional reservation set |
| Candidates.CollectedAreExclusive | central_server_go/internal/api/realtime_pddl.go:691-719 | they avoid everything busy and are pairwise disjoint in agents and keys |
| Arbitration.RankedIsSortedPermutation | central_server_go/internal/api/realtime_pddl.go:938-953 | ranking is a sorted permutation |
| Arbitration.RankedIsStable | central_server_go/internal/api/realtime_pddl.go:938-953 | candidates of equal rank keep their order |
| Arbitration.SelectCandidates | central_server_go/internal/api/realtime_pddl.go:930-993 | the selected candidates avoid the busy keys and have pairwise different agents and disjoint keys; one left out is malformed, needs a busy key, or clashes with a selected one that it does not outrank |
| Arbitration.TakenAreCompatible | central_server_go/internal/api/realtime_pddl.go:955-992 | what is taken is free of busy keys and pairwise compatible |
| Arbitration.RejectedHasReason | central_server_go/internal/api/realtime_pddl.go:955-992 | a candidate that is not taken is malformed, needs a busy key, or loses to an earlier ranked one that was taken |
| Arbitration.ArbitrationKeepsATicksCandidates | central_server_go/internal/api/realtime_pddl.go:930-993 | run on a tick's own candidates it drops nothing |
| Arbitration.TickSelectionIsWhole | central_server_go/internal/api/realtime_pddl.go:691-719 | whatever a tick collects, the arbitration selects all of it, in rank order |
| Fairness.FirstCandidateAtOrBefore | central_server_go/internal/api/realtime_pddl.go:691-719 | the tick's first candidate belongs to an agent at or before any able one in the rotation |
| Fairness.PassedAgentMovesUp | central_server_go/internal/api/realtime_pddl.go:1900-1925 | a round that starts somebody else moves an able agent strictly forward |
| Fairness.BoundedOvertaking | central_server_go/internal/api/realtime_pddl.go:628-719 | an agent that stays able is started within as many rounds as there are agents |
| Fairness.AbleByOwnSearch | central_server_go/internal/api/realtime_pddl.go:691-719 | an agent that is idle and not busy and to which a goal that binds it is open, all judged against the tick's initial busy sets and failures, is able whoever searches before it |
| Fairness.AbleAgentIsStarted | central_server_go/internal/api/realtime_pddl.go:628-719 | an agent for which that holds in every round is started within as many rounds as there are agents |
| MergeState.PriorityIsLive | central_server_go/internal/api/realtime_pddl.go:2137-2160 | live exactly when the key is blank or the highest-scoring matching policy says so or none matches |
| MergeState.FewRulesPickMostSpecific | central_server_go/internal/api/realtime_pddl.go:2137-2175 | with at most 100 policies the score picks the most specific matching one, ties to the earliest |
| Patterns.SpecificityIsLiteral | central_server_go/internal/api/realtime_pddl.go:2162-2175 | a pattern put together from literal text, the six placeholders and stars is as specific as its literal text has bytes |
| MergePolicies.Clean | central_server_go/internal/api/realtime_pddl.go:2083-2103 | trimmed patterns with a known priority; the others are dropped |
| MergePolicies.CleanedHolds | central_server_go/internal/api/realtime_pddl.go:2083-2103 | a stored policy is kept exactly when it has a pattern and names a side, live or planner, in any case and with any space around |
| MergePolicies.Normalize | central_server_go/internal/api/realtime_pddl.go:2105-2125 | the nine defaults with a distributor's policies put in place or appended |
| MergePolicies.DefaultsAreOwned | central_server_go/internal/api/realtime_pddl.go:179-189 | the default policies, by pattern and side: messages and reservations belong to the planner, the other reports to telemetry |
| MergePolicies.AddedPolicies | central_server_go/internal/api/realtime_pddl.go:2105-2125 | the defaults stay in front with their patterns, every pattern occurs once, and the last policy for a pattern counts |
| MergePolicies.LatePolicyLoses | central_server_go/internal/api/realtime_pddl.go:2137-2160 | a list that starts with the defaults and has a more specific planner policy for an agent's status key at position 100: the first default wins |
| MergePolicies.HundredPoliciesIsTheLimit | central_server_go/internal/api/realtime_pddl.go:2105-2175 | for the lists a session can have, the score is right for all lists of n policies if and only if n is at most 100 |
| MergePolicies.NinetyOneOwnPoliciesAreSafe | central_server_go/internal/api/realtime_pddl.go:2105-2175 | up to 91 policies of its own a distributor is always safe |
| MergeState.MergeSources | central_server_go/internal/api/realtime_pddl.go:2273-2283 | the merge of all unexpired sources in iteration order |
| MergeState.PlannerKeyIsKept | central_server_go/internal/api/realtime_pddl.go:2273-2283 | a planner-priority key keeps its planner value through any sources |
| MergeState.LiveKeyTakesLastOffer | central_server_go/internal/api/realtime_pddl.go:2273-2283 | a live key takes the value of the last unexpired source that has it |
| MergeState.MergeIsOrderFree | central_server_go/internal/api/realtime_pddl.go:2273-2283 | when no key has two unexpired sources the merge does not depend on source order |
| MergeState.MostSpecificPolicyDecides | central_server_go/internal/api/realtime_pddl.go:2137-2283 | with up to 100 policies the most specific matching one decides whose value the merge has |
| MergeState.WriteBack | central_server_go/internal/api/realtime_pddl.go:2285-2291 | the write-back updates existing keys only; the key set of the planner state never changes |
| MergeState.SessionMergedState | central_server_go/internal/api/realtime_pddl.go:2258-2294 | merge, clean-up and write-back together |
| MergeState.PlannerKeySurvivesTheMerge | central_server_go/internal/api/realtime_pddl.go:2258-2294 | a planner-owned key that is no location or reservation key reads the planner's value in the merge and afterwards |
| Reservation.Reconcile | central_server_go/internal/api/realtime_pddl.go:2296-2410 | one clean-up of the merged state, equal to the pass that the other rows of this part speak about |
| Reservation.ReconcileIsIdempotent | central_server_go/internal/api/realtime_pddl.go:2296-2410 | with agents whose holder tokens and location keys are disjoint, cleaning up twice is cleaning up once |
| Reservation.HoldersAreAtTheirResource | central_server_go/internal/api/realtime_pddl.go:2350-2410 | after a clean-up a recognised holder whose location is known holds only the resource at that location |
| Reservation.PlainKeysAreLeftAlone | central_server_go/internal/api/realtime_pddl.go:2296-2410 | keys that are neither location nor reservation keys are untouched |
| Holders.LostLocationsFallBack | central_server_go/internal/api/realtime_pddl.go:2349-2364 | agents told apart: a location key changes only where it is the one the live state records a lost location under and the planner has one, and then to the planner's |
| Holders.HolderEntryIsAmended | central_server_go/internal/api/realtime_pddl.go:2366-2402 | a minded resource's entry that names an agent: none when the agent is known to be elsewhere, the agent's display name when it is spelled otherwise, unchanged if neither |
| Holders.OtherEntriesStay | central_server_go/internal/api/realtime_pddl.go:2380-2402 | an entry that names nobody, or nobody the session knows, stays as it is |
| Holders.OtherKeysStay | central_server_go/internal/api/realtime_pddl.go:2296-2424 | every other key keeps what it has, worker slots and resource types included |
| Holders.NoWorkNoChange | central_server_go/internal/api/realtime_pddl.go:2302-2336 | without planner state, resources or agents with an id nothing changes |
| Holders.ChangedIffDifferent | central_server_go/internal/api/realtime_pddl.go:2338-2409 | agents told apart: the clean-up reports a change if and only if the state is a different one, so the write-back depends on the outcome only |
| Holders.TokensAnswer | central_server_go/internal/api/realtime_pddl.go:2462-2475 | the texts an agent answers to as holder |
| Holders.MindedIsNotSkipped | central_server_go/internal/api/realtime_pddl.go:2412-2424 | the resources the clean-up looks at: named instances that are no worker slots by name or by type |
| RuntimeState.Normalize | central_server_go/internal/api/realtime_pddl.go:2477-2493 | one entry per non-blank trimmed key, with the trimmed value of one of its spellings |
| RuntimeState.OneMeaningIffConsistent | central_server_go/internal/api/realtime_pddl.go:2477-2493 | the normal form does not depend on map order if and only if keys that trim alike carry values that trim alike |
| RuntimeState.CollectClearKeys | central_server_go/internal/api/realtime_pddl.go:350-360 | the trimmed non-blank keys asked for, and all keys being set |
| RuntimeState.Values.Delete | central_server_go/internal/api/realtime_pddl.go:377-382 | takes keys out of one map object and reports whether any was there |
| RuntimeState.Session.Put | central_server_go/internal/api/realtime_pddl.go:456-462 | installs an overlay whose map object is fresh |
| RuntimeState.Session.Reset | central_server_go/internal/api/realtime_pddl.go:363-394 | new planner values, their keys out of every overlay, emptied overlays dropped |
| RuntimeState.Manager.Start | central_server_go/internal/api/realtime_pddl.go:191-275 | a new session owns no overlay map and disturbs none |
| RuntimeState.Manager.ResetSessionState | central_server_go/internal/api/realtime_pddl.go:335-397 | not found, values required, or reset; every session but the addressed one keeps its state and overlays although map objects are changed in place |
| RuntimeState.Manager.UpsertByDistributor | central_server_go/internal/api/realtime_pddl.go:424-469 | every session of the distributor gets its own overlay object, all others are untouched, and the count is right |
| RuntimeState.Manager.UpsertByAgent | central_server_go/internal/api/realtime_pddl.go:473-518 | the same for the sessions that include the agent |
| RuntimeState.ExpiryIsLater | central_server_go/internal/api/realtime_pddl.go:441-450 | a posted overlay expires after its time to live, cut to whole nanoseconds; never when that is not positive |
| RuntimeState.SettledIsRead | central_server_go/internal/api/realtime_pddl.go:2258-2294 | a key no overlay offers reads its planner value in the merge and after write-back, whatever the policies |
| RuntimeState.ResetIsVisible | central_server_go/internal/api/realtime_pddl.go:335-397 | after a reset every later merge reads the reset value of a key that is no location or reservation key, through any run of telemetry, clears, resets, folds and merges that does not write the key |
| Substitution.SubstituteString | central_server_go/internal/executor/runtime_graph_materializer.go:225-270 | the cursor loop computes the recursive reading of the text, with both flags |
| Substitution.UnreplacedIsUnchanged | central_server_go/internal/executor/runtime_graph_materializer.go:225-270 | a text in which nothing is replaced comes back byte for byte, unterminated holes included |
| Substitution.StagesCompose | central_server_go/internal/executor/runtime_graph_materializer.go:225-270 | substituting p1 and then p2 is substituting once with p1 overriding p2; the flags agree too |
| Substitution.StagingIsHarmlessIffTame | central_server_go/internal/executor/runtime_graph_materializer.go:225-270 | the staged law holds for every text and every second stage if and only if every fetchable value of the first stage is non-empty, does not start with an opening brace, does not end with a dollar sign and contains no opening |
| Substitution.FullyResolvedIsFinal | central_server_go/internal/executor/runtime_graph_materializer.go:225-270 | a fully resolved text is not changed by any later stage |
| Substitution.SolidOutputOpensIffLeft | central_server_go/internal/executor/runtime_graph_materializer.go:262-270 | with such values the final test for an opening agrees with what the scan left unresolved |
| Substitution.StagesComposeJson | central_server_go/internal/executor/runtime_graph_materializer.go:185-223 | the staged law over whole JSON values, for every coercion: it holds where no text that the first stage resolves completely is read as a value with a hole |
| Substitution.StagesAgreeIffSettled | central_server_go/internal/executor/runtime_graph_materializer.go:185-223 | for every value, every coercion and a first stage with solid values: every second stage gives what one stage with both gives if and only if no completely resolved text is read as a value with a hole |
| Substitution.PlainTextSettles | central_server_go/internal/executor/runtime_graph_materializer.go:272-299 | with the server's coercion, given its number reading and its JSON decoder, that is so for every text that is not decoded as a JSON document |
| Substitution.HiddenOpeningBreaksStages | central_server_go/internal/executor/runtime_graph_materializer.go:272-299 | a JSON string that hides the opening behind an escape sequence is a solid value, and the law fails for it under every coercion that decodes it |
| Substitution.StagesComposeSource | central_server_go/internal/executor/runtime_graph_materializer.go:156-183 | the staged law over field sources under the same condition: an expression the first stage resolves is a constant for the second |
| Substitution.ActionParams.Materialize | central_server_go/internal/executor/runtime_graph_materializer.go:139-183 | data and field sources after the in-place rewrite, and whether anything changed |
| Substitution.StagesComposeParams | central_server_go/internal/executor/runtime_graph_materializer.go:139-183 | two materializations are one, the first stage's values taking precedence, under the same condition on data and sources |
| Substitution.ParamStagesAgreeIffSettled | central_server_go/internal/executor/runtime_graph_materializer.go:139-183 | the condition is exact for whole parameter sets: it holds if and only if every later materialization gives what one pass with both gives |
| Binding.LoadRuntimeCatalog | central_server_go/internal/executor/runtime_resources.go:20-55 | the executor's catalog of a resource list |
| Binding.BuildPlannerCatalog | central_server_go/internal/pddl/resources.go:21-53 | the planner's catalog of a resource list |
| Binding.CatalogsAgree | central_server_go/internal/pddl/resources.go:21-53 | for kinds spelled exactly, both catalogs know the same names and the planner's capacity is the length of the executor's list |
| Binding.TokensReadAlike | central_server_go/internal/pddl/resources.go:55-99 | planner and executor classify a token alike if and only if the planner does not read it as a type with an empty id |
| Binding.ResolveToken | central_server_go/internal/executor/runtime_resources.go:86-114 | the instance a token is bound to, or failure |
| Binding.ResolveBindings | central_server_go/internal/executor/runtime_resources.go:57-84 | the bindings of all non-blank tokens in order, each bound name held from then on, or failure |
| Naming.CatalogReads | central_server_go/internal/executor/runtime_resources.go:20-55 | the catalog's maps hold the last type or instance of a name or id |
| Naming.TokenIsNamed | central_server_go/internal/executor/runtime_resources.go:86-114 | the name a token is bound to, read off the resource list: by id, the first free instance of a type, by name, or itself |
| Naming.AnswerIsNamed | central_server_go/internal/executor/runtime_resources.go:57-84 | the bindings of a token list: each token gets the name due to it when the names before it are taken too, the last mention counts; or the naming stops at a token without a name |
| Binding.TypeRequestIsServed | central_server_go/internal/executor/runtime_resources.go:57-114 | a type request gets an instance of its type that was neither held nor given to an earlier request |
| Binding.GreedyIsExact | central_server_go/internal/executor/runtime_resources.go:57-114 | an all-type request list succeeds if and only if every type has at least as many free instances as requests |
| Binding.CapacityIsExact | central_server_go/internal/pddl/resources.go:21-99 | with nothing held and unique names, the list fits the planner's capacities if and only if the executor can bind it |
| GraphConverter.DecodeEncoded | central_server_go/internal/graph/converter.go:556-586 | decoding an encoded outcome condition gives the trimmed outcome and state |
| GraphConverter.ExtractEdges | central_server_go/internal/graph/converter.go:204-341 | the edges of a step's transition, in order |
| GraphConverter.BuildTransition | central_server_go/internal/graph/converter.go:446-492 | the transition absorbed from a step's outgoing edges |
| GraphConverter.FromDBModel | central_server_go/internal/graph/converter.go:18-89 | the graph of a tree: vertices, edges, entry point |
| Routing.GraphSaysTheTree | central_server_go/internal/graph/converter.go:135-341 | every vertex depicts its step, and with unique ids the edges of each kind that leave it are exactly those its transition asks for: success and failure unless an outcome stands for them, retries and back-off cut to whole numbers, outcomes in order with their condition object |
| GraphConverter.ChooseEntry | central_server_go/internal/graph/converter.go:76-83 | the wanted entry point where there is such a step, else the first step |
| GraphConverter.ToDBModel | central_server_go/internal/graph/converter.go:92-132 | the steps of a graph |
| Routing.TreeSaysTheGraph | central_server_go/internal/graph/converter.go:344-492 | every step restores its vertex; its transition is absent when no edge leaves it, otherwise the last edge of each kind counts and all outcomes in turn, read back from their condition object |
| GraphConverter.VertexSurvives | central_server_go/internal/graph/converter.go:135-201 | a vertex turned into a step and back is the same vertex, whatever transition it is given |
| GraphConverter.OutgoingAreOwn | central_server_go/internal/graph/schema.go:622-630 | with unique ids the edges leaving a step are its own, in order |
| GraphConverter.TransitionComesBack | central_server_go/internal/graph/converter.go:446-492 | the edges of a transition lead back to its normal form |
| GraphConverter.StepEdgesComeBack | central_server_go/internal/graph/converter.go:204-409 | a step keeps its effective edges if and only if it is a terminal without edges, or its failure retry and back-off survive normalisation |
| GraphConverter.TerminalLosesItsEdge | central_server_go/internal/graph/converter.go:344-409 | a terminal with a timeout transition has an edge in the first graph and none in the second |
| GraphConverter.GraphRoundTrip | central_server_go/internal/graph/converter.go:18-132 | steps to graph to steps to graph: the same vertices, a valid entry point, and the same effective edge sequence if and only if every step keeps its edges |
| GraphConverter.SecondPassChangesNothing | central_server_go/internal/graph/converter.go:18-132 | one pass normalises: from then on steps and graph reproduce each other |
| Placeholders.Fill | central_server_go/internal/api/pddl.go:100-125 | some order of the replacement map yields the result |
| Placeholders.Commute | central_server_go/internal/api/pddl.go:100-125 | two replacements commute when neither value can complete the other placeholder |
| Placeholders.RestlessPair | central_server_go/internal/api/pddl.go:100-125 | a value that can complete another placeholder makes some text depend on the order |
| Placeholders.OrderFreeIffCalm | central_server_go/internal/api/pddl.go:100-125 | every text has one result for all iteration orders if and only if no value can complete another placeholder (unless that one stands for itself) |
| Placeholders.AtOnceIffNothingAppears | central_server_go/internal/api/pddl.go:100-125 | for one text and values without an opening brace: every iteration order replaces all placeholders at once if and only if no partial fill-in makes a placeholder appear |
| Placeholders.WellBracedIsSafe | central_server_go/internal/api/pddl.go:100-125 | a text in which every opening brace belongs to a whole placeholder meets that condition, and still does after the fill-in |
| GoalExpansion.PlainNamesAreNotEnough | central_server_go/internal/api/pddl.go:100-113 | names free of braces do not suffice: id "name" and name "dock" |
| GoalExpansion.Instantiate | central_server_go/internal/api/pddl.go:152-187 | the entries are what some iteration orders expand the goal to; where the fill-ins of the goal are sure they are exactly its ground instances |
| GoalExpansion.AddEntries | central_server_go/internal/api/pddl.go:189-204 | adds all entries, or fails because no state can hold them all |
| GoalExpansion.ExpandGoalState | central_server_go/internal/api/pddl.go:139-208 | whatever the names: success gives the expansion for some choice of iteration orders, and an error means that this choice has none; where the fill-ins are sure it is the expansion of the whole goal state or an error because there is none |
| GoalExpansion.SureChoiceIsExpansion | central_server_go/internal/api/pddl.go:139-208 | where every fill-in is sure, expanding for any choice of orders is expanding the goals |
| GoalExpansion.OneGoalTwoOutcomes | central_server_go/internal/api/pddl.go:139-208 | one goal, one instance with id "name" and name "dock": one order expands the goal, another one makes the expansion fail |
| GoalExpansion.CarefulGoalsAreSure | central_server_go/internal/api/pddl.go:139-208 | goals whose opening braces belong to whole placeholders are sure for all names without an opening brace, empty names included |
| GoalExpansion.CarefulIsSure | central_server_go/internal/api/pddl.go:100-125 | for such goals the ground instances are the simultaneous replacement of the placeholders |
| GoalExpansion.CalmNamesAreSure | central_server_go/internal/api/pddl.go:100-125 | names that can complete no other placeholder are sure for any goals |
| GoalExpansion.ExpansionIsUnique | central_server_go/internal/api/pddl.go:139-208 | there is at most one expansion, so goal iteration order cannot matter |
| Grounding.EveryInstanceIsHeld | central_server_go/internal/api/pddl.go:100-208 | goals of plain text and the seven placeholders: the expansion holds, for every instance and agent a goal is expanded for, the meaning of its value under the trimmed meaning of its variable |
| Grounding.NothingElseIsHeld | central_server_go/internal/api/pddl.go:100-208 | and it holds nothing else |
| Grounding.ExpandsIffConsistent | central_server_go/internal/api/pddl.go:139-208 | such a goal state, where no instance or agent is lacking, has an expansion if and only if no key is given two values |
| Grounding.LackingGoalFails | central_server_go/internal/api/pddl.go:153-176 | a goal that mentions a resource where there is no instance, or an agent where there is none, rules every expansion out |
| Grounding.LeftoverFails | central_server_go/internal/api/pddl.go:189-195 | so does an entry left with a placeholder |
| GoalExpansion.ConflictAlwaysFails | central_server_go/internal/api/pddl.go:139-208 | two ground instances with the same trimmed key and different values rule out success |
| EditLock.TreeRecord.Acquire | central_server_go/internal/api/behavior_tree_lock.go:34-116 | the record and answer after an acquire request |
| EditLock.TreeRecord.Release | central_server_go/internal/api/behavior_tree_lock.go:120-164 | the record and answer after a release request |
| EditLock.TreeRecord.Heartbeat | central_server_go/internal/api/behavior_tree_lock.go:204-256 | the record and answer after a heartbeat |
| EditLock.TreeRecord.MayBeEdited | central_server_go/internal/api/behavior_tree_lock.go:260-283 | the ownership check asked before an edit, as one atomic request |
| EditLock.LeaseLastsFiveMinutes | central_server_go/internal/api/behavior_tree_lock.go:79-96 | a lease taken or renewed lasts five minutes from now, to the millisecond |
| EditLock.TreeRecord.CleanUp | central_server_go/internal/api/behavior_tree_lock.go:301-329 | the clean-up unlocks exactly an expired record |
| EditLock.LeaseIsKept | central_server_go/internal/api/behavior_tree_lock.go:34-329 | any request but the holder's release or a forced one keeps an unexpired lease and never shortens it |
| EditLock.OthersAreRefused | central_server_go/internal/api/behavior_tree_lock.go:260-283 | against an unexpired lease no other session acquires or passes the ownership check |
| EditLock.LeaseSafety | central_server_go/internal/api/behavior_tree_lock.go:34-329 | over every run of requests with a non-decreasing clock a lease lasts until its expiry |
| EditLock.NoIntruder | central_server_go/internal/api/behavior_tree_lock.go:34-329 | hence every request of another session in that time is refused |
| EditLock.HeartbeatsKeepTheLock | central_server_go/internal/api/behavior_tree_lock.go:204-256 | a session that acquires and sends each heartbeat before expiry has every heartbeat granted |
| EditLock.HeartbeatsKeepOthersOut | central_server_go/internal/api/behavior_tree_lock.go:204-283 | and nobody else gets in before the expiry of its last heartbeat |
| EditLock.ExpiryIsBounded | central_server_go/internal/api/behavior_tree_lock.go:34-256 | no stored expiry ever reaches further than a lease taken now |
| EditLock.CheckAgreesWithAcquire | central_server_go/internal/api/behavior_tree_lock.go:260-283 | ownership check and acquire agree for another session if and only if the clock is not exactly at the expiry |
| EditLock.StaleReadsGrantTwice | central_server_go/internal/api/behavior_tree_lock.go:34-116 | two acquire handlers that both read before either writes are both granted the lock, and only the last writer has it |
| EditLock.TwoGrantsIff | central_server_go/internal/api/behavior_tree_lock.go:34-116 | for every interleaving of the reads and writes of two acquire handlers of different sessions: both are granted if and only if nobody executes the tree, the record is open to the first at its read, and the second reads before the first write a record open to it, or after the first lease ran out |

## Left out

- HTTP handlers, JSON decoding, WebSocket updates, Neo4j queries, robot transport, configuration, save files and the
  frontend: input/output around the core.
- Plan search, task grounding and reachability (`pddl.Solve`): the planner is an oracle; only its grouping of tasks is
  modelled.
- The scheduler and the state manager: a step's outcome is any outcome, a task may start or be refused, and task polling
  (`waitForTask`) is the moment a step ends.
- Acquire and release tokens in the executor (`plan_executor.go:683-857`): resource occupancy reported by agents is not
  part of the execution protocol modelled here.
- Glob matching of merge patterns, the reading of numbers and the JSON decoder behind the coercion of substituted texts,
  and the JSON text of outcome conditions: functions given as parameters, with the few laws a proof needs stated as
  preconditions.
- Lower-casing is ASCII only; strings are sequences of characters, and bytes are counted only where the server's answer
  depends on them (Conditions.FailsIff).
- Deciding whether a bound goal already holds and recognising idle agents: part of `Services`. A failing condition
  evaluation (`Conditions.FailsIff`) is a run-time panic in the server; the activation search counts it as not met.
- Fields of the session that only report (active plan, selected goal, last error, timestamps) and the parts of behaviour
  trees the converter carries without looking at them; action parameters are one opaque field there.
- Exclusion between sessions: busy sets belong to one session.
- Retrying failed goals: one failure key per goal is kept, so different bindings overwrite each other; the model keeps
  that behaviour. What is recorded is said by Candidates.BuildCandidate; when the planner would answer otherwise is not.
- Collisions between explicit `instance:` tokens and held resources: the resolver does not check them, nor does the
  model claim it.
- Clearing overlays by distributor or agent: modelled as an event of a run, not as a method.
- Block paste and deployment bookkeeping: easy members beside the rest.
- The clean-up of expired edit locks rewrites a record of which it loaded only some fields; only the lock fields are
  modelled.
- Executor.TerminalIsFinal: the state manager's planning state is cleared when the order loop returns; the model keeps
  what was written as the record of the run.
- PlanExecution.PlanExecution.Snapshot: step records are kept per assignment, while the code keys them by task id; the
  two are the same when task ids are distinct, which the replay theorems assume.
- ParallelGroups.ComputeParallelGroups: speaks of task lists for which the code's search loops end; on all others, told
  apart by ParallelGroups.EndsIffSupplied, the code does not return.
- RealtimeSession.RealtimeSession.StartCandidates: the executor's execution ids are assumed fresh and never repeated;
  the code cuts a random identifier to eight characters and does not check.
- RealtimeSession.RealtimeSession.Stop: the cancel requests it sends to the executor are not part of the step; their
  effect is the later progress of those executions.
- GraphConverter.FromDBModel: the tree's metadata, preconditions and checksum are not modelled.
- GraphConverter.ToDBModel: the tree's metadata is not modelled.
- Dispatch.ActivationIsExact: conditions are evaluated by a given function; Activation.ConcreteActivationIsExact says it
  for the server's own expansion and evaluation.
- Dispatch.ActivationConditionsMet: the same function and two flags on the goal; Activation.Flagged says what the flags
  are.
- RealtimeSession.RealtimeSession.Tick: runs without interruption; interleavings of its critical sections with stops,
  resets and progress are covered by the protocol (SessionProtocol.MutualExclusion and its companions).
- RealtimeSession.RealtimeSession.Progress: one report at a time; polling and timing of reports are not modelled.
- EditLock.LeaseSafety: each request is handled atomically, which the handlers do not ensure (EditLock.TwoGrantsIff).
- RuntimeState.ResetIsVisible: operations on a session are atomic; what happens to a reset inside a sync is
  LostResets.ResetSurvivesIff.
- RuntimeState.Manager.UpsertByDistributor: the time to live is a real number of seconds, rounded down to nanoseconds;
  overflow of the duration type is not modelled.
- MergeState.SessionMergedState: which keys are live is a parameter, given by MergeState.LiveUnder over the list of
  MergePolicies.Normalize; expired overlays are skipped, and that the code also deletes them from the source map is
  modelled only as an event in RuntimeState.
