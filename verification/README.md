# Mollis runtime verification

A Dafny model of four connected parts of the Mollis runtime, with proofs about every input, every run and every
reachable state.

- **Workflows.** The fluent builder and its cycle check (`Graph`, `Kahn`, `Builder`), the planner's levels, phases
  and critical path (`Levels`, `Planner`), and the orchestrator as steps on workflow instances (`Workflow`,
  `Orchestrator`) with what all its runs obey (`WorkflowSafety`, `WorkflowRuns`), which workflows can succeed
  (`WorkflowSuccess`), what each event and command changes (`WorkflowReactions`), what the tasks handed out say
  (`WorkflowTasks`), why the order of deliveries does not matter (`WorkflowConfluence`), and when it shows in the
  tasks (`Ancestry`, `WorkflowPayloads`).
- **Recovery.** Replaying the event log as a fold (`EventReplay`), the effect of replaying boundary events twice
  (`OrderedReplay`, `ReplayOverlap`), which event decides which field of a record (`RecoveredRecords`), and the event
  store and recovery manager (`RecoveryManager`).
- **The task queue.** Ordering policies with lazy deletion (`EntryHeap`, `QueueModel`), their refinement of a plain
  stable priority queue (`QueueRefinement`, `QueueRuns`) and where exactly it ends (`QueueExactness`), counters, pops
  and recorded events (`QueueLedger`, `QueueOrder`, `QueueRecords`), and the classes themselves (`TaskQueue`).
- **Scheduling.** The steps of scheduler, pool, time-out monitor and retry engine (`SchedulerModel`, `Scheduler`),
  conservation of task copies (`SchedulerLaws`), what follows from it (`SchedulerBounds`, `SchedulerRounds`),
  where failures and time-outs lead (`SchedulerEffects`), returns after a time-out (`LateFinish`), the delayed-task
  tracker (`Delayed`, `DelayedRelease`) and the back-off (`Retry`).

Code that changes state is a class or a loop proved equal to a step function on values, from any state the object can
be in; the results about runs are lemmas about the step functions. `Wrappers` and `Sequences` hold what all share.
`dafny verify dfyconfig.toml` checks everything.

Where the code does less than it says, the project proves where the line runs:

- The critical path is a longest one unless the backtracking meets an empty node id, at which its loop stops.
- Events naming an empty node id are dropped, so a workflow with such a node cannot succeed; every other one can. A
  workflow without nodes starts running, and the first event of a kind the orchestrator does not handle concludes it.
- The orchestrator does not check that an event names a running node. Exactly the harmless events preserve its
  invariants; a stray completion lets a node finish before its parent.
- A node's own payload is spread over its task's correlation entries. The task's events find their way back exactly
  when it brings no other value there.
- Events that arrive during a pause are lost for good; everything else about a pause is invisible.
- Re-enqueueing an id shows in the queue's later replies exactly when the id is stored, because the order then holds
  a second entry for it, or when a tombstoned entry of it is left, because adding discards the tombstone and so
  revives the old entry.
- Snapshot recovery reads at most a hundred events, so beyond a hundred it can miss the last ones; up to there it
  always gets the tasks and the sets of queued and delayed ids right. It replays the events with the snapshot's own
  timestamp twice, and may thereby reorder the queue and count worker failures twice.
- A timed-out execution is meant never to be completed. Its late return completes the task all the same when the last
  step that decided the task's status, the time-out included, was a failure granted a retry or a start of another
  copy. For a task submitted once this can happen exactly when it has a time limit and its policy retries time-outs.

## Model

| member | source | states |
|---|---|---|
| Builder.ValidateDag | app/runtime/workflow/builder.py:135-163 | The check accepts a graph, with duplicate edges and self-loops, exactly when it has no cycle; the list it then returns is a topological order of all nodes, and the inner loop ran once per edge. |
| Builder.WorkflowBuilder.AddNode | app/runtime/workflow/builder.py:28-53 | A node id that is taken is refused and changes nothing; otherwise the node joins the others at the end of the insertion order. |
| Builder.WorkflowBuilder.Connect | app/runtime/workflow/builder.py:55-61 | An edge is appended whether or not its ends exist. |
| Builder.WorkflowBuilder.Parallel | app/runtime/workflow/builder.py:63-67 | One edge per target is appended, in the order of the targets. |
| Builder.WorkflowBuilder.Build | app/runtime/workflow/builder.py:116-133 | A definition is built exactly when every edge joins known nodes and there is no cycle, and it carries the accumulated graph; otherwise the error names the first bad edge, source before target, or the cycle. |
| Builder.ComplaintNamesFirstBadEdge | app/runtime/workflow/builder.py:116-122 | The complaint about edges is about the first bad one: an unknown source, or a known source with an unknown target. |
| Kahn.ExhaustedEarly | app/runtime/workflow/builder.py:160-161 | A run that leaves nodes out proves a cycle: the nodes left over each have a predecessor among them. |
| Kahn.TopologicalOrderIsAcyclic | app/runtime/workflow/builder.py:160-163 | A graph whose nodes can all be listed with edges going forward has no cycle. |
| LevelResolution.ResolveLevels | app/runtime/workflow/planner.py:40-65 | On a DAG the levels grow along edges and every positive level is one above some parent's, and each node's level is already final when the node enters the queue. |
| LevelResolution.LevelIsLongestWalk | app/runtime/workflow/planner.py:40-65 | A node's level is the number of edges on a longest walk ending at it: one such walk exists, none is longer, and no other number has this property. |
| Planner.PhasesPartition | app/runtime/workflow/planner.py:25-30 | Every node stands in exactly one phase, once, and no phase is empty. |
| Planner.PhasesRespectEdges | app/runtime/workflow/planner.py:25-30 | Every edge goes to a strictly later phase. |
| Planner.PhasesAreMinimal | app/runtime/workflow/planner.py:25-30 | No layering of the graph that respects the edges uses fewer layers, or places any node in an earlier layer. |
| Planner.TraceDescends | app/runtime/workflow/planner.py:87-95 | Backtracking moves to a parent exactly one level down at every step, so it visits level + 1 nodes and ends at a node without parents. |
| Planner.TraceIsCritical | app/runtime/workflow/planner.py:67-98 | The nodes met by a full backtracking from a deepest node, reversed, form a walk from a parentless node that no walk of the graph exceeds. |
| Planner.TraceFollowsFirstHighest | app/runtime/workflow/planner.py:87-95 | Each step of the backtracking follows the first edge, in the order of insertion, that comes from a parent of the highest level. |
| Planner.CriticalPathIff | app/runtime/workflow/planner.py:87-98 | The path the loop returns is a longest walk exactly when the backtracking met no empty node id, because the loop stops at one. |
| Planner.BlankIdCutsPath | app/runtime/workflow/planner.py:87-98 | A two-node graph the builder lets through, with an empty id at its root, of which every plan reports a path that is not a longest one. |
| Planner.CalculateCriticalPath | app/runtime/workflow/planner.py:67-98 | The loop terminates, and its result is the reversed backtracking from the first deepest node in insertion order, cut at the first empty id. |
| Planner.TracedPathIsUnique | app/runtime/workflow/planner.py:67-98 | Graph and levels determine the end node and the path, so the condition of the previous rows can be evaluated before the call. |
| Planner.Plan | app/runtime/workflow/planner.py:16-38 | The plan of a DAG lists the nodes level by level in insertion order, up to the highest level in use, with the critical path traced from the first deepest node; an empty graph has an empty plan. |
| Orchestrator.ResolveNodeInputs | app/runtime/workflow/orchestrator.py:281-299 | Each mapped input takes its source's output under its key if that is present and not null, else its default, and overrides the node's own payload. |
| Orchestrator.AllCompleted | app/runtime/workflow/orchestrator.py:211-216 | The scan answers whether no recorded node state is pending, running or waiting for approval. |
| Orchestrator.DispatchEligibleNodes | app/runtime/workflow/orchestrator.py:231-279 | One pass marks running exactly the pending nodes whose parents had all finished before the pass, and hands out their tasks in insertion order, although it updates the states it reads. |
| Orchestrator.CancelNodes | app/runtime/workflow/orchestrator.py:97-115 | Exactly the pending and running nodes become cancelled, and exactly those of them whose task is still queued are withdrawn from the queue. |
| Orchestrator.WorkflowOrchestrator.StartWorkflow | app/runtime/workflow/orchestrator.py:41-72 | The stored instance and the scheduled tasks are those of the start step, with a plan that fits the graph. |
| Orchestrator.WorkflowOrchestrator.PauseWorkflow | app/runtime/workflow/orchestrator.py:74-83 | An unknown id raises and changes nothing; otherwise the stored instance takes the pause step and nothing is scheduled. |
| Orchestrator.WorkflowOrchestrator.ResumeWorkflow | app/runtime/workflow/orchestrator.py:85-95 | An unknown id raises and changes nothing; otherwise the instance takes the resume step, which dispatches what is ready. |
| Orchestrator.WorkflowOrchestrator.CancelWorkflow | app/runtime/workflow/orchestrator.py:97-125 | An unknown id raises; a running or paused instance takes the cancel step and withdraws its queued tasks; a finished one is left alone. |
| Orchestrator.WorkflowOrchestrator.OnRuntimeEvent | app/runtime/workflow/orchestrator.py:164-229 | Events without correlation are ignored, unknown instances raise, and every other event makes the stored instance take exactly the event step; a failure of an unknown node raises before anything is saved. |
| WorkflowSafety.DispatchIsComplete | app/runtime/workflow/orchestrator.py:243-255 | A single dispatch pass is a fixpoint: no pending node is ready afterwards, and dependencies stay respected. |
| WorkflowReactions.StartReaction | app/runtime/workflow/orchestrator.py:41-72 | A started workflow is running, its nodes without parents run and are handed out in insertion order, the others are pending, and its outputs hold the launch inputs only. |
| WorkflowReactions.FailureReaction | app/runtime/workflow/orchestrator.py:191-229 | A failure, time-out or cancellation of a known node fails the workflow and that node alone exactly when the node's own policy is other than ignoring, or it has none and the workflow's is; otherwise the node is skipped and the workflow succeeds when no node is pending, running or waiting, or goes on with the nodes that became ready. |
| WorkflowReactions.CompletionReaction | app/runtime/workflow/orchestrator.py:183-229 | A completion records the node as succeeded and its result under the key result; the workflow then succeeds or goes on in the same way. |
| WorkflowReactions.IdleReaction | app/runtime/workflow/orchestrator.py:168-196 | Events outside a running workflow, for an empty node id, and failures of unknown nodes change nothing and hand nothing out. |
| WorkflowReactions.PauseResumeReaction | app/runtime/workflow/orchestrator.py:74-95 | Pausing and resuming switch between running and paused and change no other status; resuming starts exactly the nodes that are ready. |
| WorkflowReactions.CancelReaction | app/runtime/workflow/orchestrator.py:97-125 | Cancelling a running or paused workflow cancels its pending and running nodes, leaves all other node states, and hands nothing out. |
| WorkflowTasks.StartDescribes | app/runtime/workflow/orchestrator.py:41-72 | What a start hands out is described as the next row says, so that row speaks of every run from a start. |
| WorkflowTasks.LogDescribes | app/runtime/workflow/orchestrator.py:258-299 | In every run, each task handed out is named after its instance and node, carries its node's own payload entries and, where these leave room, both ids and under payload each mapped input: what its source had provided at that moment if that is not null, else its default. |
| WorkflowTasks.TaskFindsItsNodeIff | app/runtime/workflow/orchestrator.py:168-173 | The events a task leads to, correlated by its own metadata, name its instance and node exactly when neither id is empty and the node's payload brings no other value under the two correlation keys. |
| WorkflowTasks.OutputsAreResults | app/runtime/workflow/orchestrator.py:182-189 | Over every run a node's outputs are the result of the last completion a running workflow took for it, or else what the start put there. |
| WorkflowTasks.CancelWithdrawsQueued | app/runtime/workflow/orchestrator.py:104-113 | Cancelling after any run withdraws, in insertion order, exactly the pending and running nodes whose logged task's id is still queued, given that the queue holds under this workflow's ids only what it handed out. |
| WorkflowSafety.StartIsConsistent | app/runtime/workflow/orchestrator.py:41-72 | A started workflow is consistent: its status fits the node states, started nodes have finished parents, and nothing ready is left pending. |
| WorkflowSafety.EventKeepsConsistentIff | app/runtime/workflow/orchestrator.py:164-229 | An event keeps a consistent instance consistent exactly when it is dropped, raises, is of another kind, names a running node, or repeats for a finished node without fatally failing one whose children have started. |
| WorkflowSafety.StrayCompletionOvertakes | app/runtime/workflow/orchestrator.py:185-194 | In a started chain of two nodes a completion event for the second, while the first is running, is accepted and finishes the second before its parent. |
| WorkflowSafety.CommandKeepsConsistent | app/runtime/workflow/orchestrator.py:74-125 | Pausing, resuming and cancelling keep a consistent instance consistent. |
| WorkflowSafety.PauseLosesOnlyEvents | app/runtime/workflow/orchestrator.py:74-95 | Pausing and resuming leaves the instance as it was and dispatches nothing; every event in between is lost. |
| WorkflowRuns.RunIsSafe | app/runtime/workflow/orchestrator.py:74-279 | Every run of commands and harmless events stays consistent, dispatches no node twice, dispatches parents before children, and has dispatched every node that ever started. |
| WorkflowRuns.StatusIsExact | app/runtime/workflow/orchestrator.py:211-229 | On a non-empty graph: succeeded means all nodes succeeded or were skipped, failed means some node failed, cancelled means some node was cancelled, and running or paused means some node is unfinished and none failed; each in both directions. |
| WorkflowRuns.EmptyWorkflowStartsRunning | app/runtime/workflow/orchestrator.py:41-72 | A workflow starts as running, and it starts with every node finished exactly when it has none. |
| WorkflowRuns.NoDeadlock | app/runtime/workflow/orchestrator.py:231-279 | In every consistent running or paused instance of a non-empty DAG some node is running. |
| WorkflowRuns.TerminalIsAbsorbing | app/runtime/workflow/orchestrator.py:77-229 | After a final status no sequence of commands and events, harmful ones included, changes the instance or dispatches anything. |
| WorkflowRuns.SuccessDispatchesAll | app/runtime/workflow/orchestrator.py:231-279 | A run that succeeded dispatched every node exactly once, in a topological order. |
| WorkflowRuns.PlanAgreesWithRuntime | app/runtime/workflow/orchestrator.py:231-279 | While in progress, if exactly the phases before k are finished then exactly the nodes of phase k are running. |
| WorkflowRuns.LegalEventFinishesOne | app/runtime/workflow/orchestrator.py:185-229 | An event for a running node takes exactly that node out of the unfinished ones. |
| WorkflowRuns.LegalRunsEnd | app/runtime/workflow/orchestrator.py:185-229 | A run of events for running nodes has at most as many events as the graph has nodes, and with that many it has reached a final status. |
| WorkflowSuccess.CanSucceedIff | app/runtime/workflow/orchestrator.py:164-224 | Some run of commands and events drives a started workflow to success exactly when no node id is empty; restricting the events to harmless ones changes nothing. |
| WorkflowSuccess.LegalEventsCanSucceedIff | app/runtime/workflow/orchestrator.py:164-224 | Events for running nodes alone can do so exactly when, besides, the workflow has a node. |
| WorkflowSuccess.EmptyWorkflowIsConcluded | app/runtime/workflow/orchestrator.py:209-224 | Any correlated event of another kind concludes a workflow without nodes as succeeded. |
| WorkflowConfluence.LegalRunIsCanonical | app/runtime/workflow/orchestrator.py:164-279 | After a run of legal events the whole instance is a function of the launch and of each node's outcome. |
| WorkflowConfluence.Confluence | app/runtime/workflow/orchestrator.py:164-279 | Two legal runs delivering the same outcomes in different orders end with equal node states, outputs and status. |
| WorkflowConfluence.DeliveriesCommuteIff | app/runtime/workflow/orchestrator.py:185-229 | Two events for different running nodes commute exactly when neither fails the workflow. |
| WorkflowPayloads.SteadyTask | app/runtime/workflow/orchestrator.py:258-299 | A node all of whose mapped inputs are steady is dispatched with the same task in every order of the same outcomes. |
| WorkflowPayloads.PayloadOrderIndependentIff | app/runtime/workflow/orchestrator.py:258-299 | In every DAG, a node's task is independent of the delivery order, for all launch inputs, exactly when the node is or waits for one with an empty id, or its own payload has an entry named payload, or each mapped input is steady: its source is no node, an ancestor, a node that always finishes later or never can, or its key is one no node provides. |
| OrderedReplay.ReplayShape | app/runtime/persistence/recovery/manager.py:148-200 | Replaying insertions and removals leaves the ids never removed in place, followed by the ids appended. |
| OrderedReplay.ReplayTwiceSameMembers | app/runtime/persistence/recovery/manager.py:148-200 | Replaying a log over its own result leaves the same ids in the list. |
| OrderedReplay.ReplayTwiceIsPartition | app/runtime/persistence/recovery/manager.py:148-200 | Replaying a log over its own result moves exactly the ids the log removes at some point behind the others, keeping both groups in order. |
| OrderedReplay.OverlapThenRest | app/runtime/persistence/recovery/manager.py:148-200 | After an overlap and further events the list has the same ids and length, and the same order exactly when among the ids the further events leave alone none removed in the overlap stands before one that was not. |
| EventReplay.ReplayKeepsValid | app/runtime/persistence/recovery/manager.py:137-270 | Over any valid state every event sequence keeps: no duplicate queued or delayed ids, the recorded size equal to the queue's length, every task and worker filed under its own id, and no completed or failed task queued. |
| RecoveredRecords.KnownIff | app/runtime/persistence/recovery/manager.py:138-146 | A replayed log knows a task exactly when the state before it did or it submits the task. |
| RecoveredRecords.StatusIsDecided | app/runtime/persistence/recovery/manager.py:138-206 | A known task's status is decided by the last event about it other than a dequeue: pending after a submission, queueing or retry, running after a start, completed after a completion, failed after a failure, cancellation or time-out; with no such event it is what it was. |
| RecoveredRecords.StartIsDecided | app/runtime/persistence/recovery/manager.py:160-164 | Its start is the time of its last start since it was submitted. |
| RecoveredRecords.EndIsDecided | app/runtime/persistence/recovery/manager.py:166-200 | Its end is the time of its last completion, failure, cancellation or time-out since it was submitted. |
| RecoveredRecords.ErrorIsDecided | app/runtime/persistence/recovery/manager.py:175-200 | Its error message is the one of its last failure, cancellation or time-out since it was submitted; a completion leaves it. |
| RecoveredRecords.RetryCountIsDecided | app/runtime/persistence/recovery/manager.py:202-206 | Its retry count is the one its last retry since the submission reported, else zero. |
| RecoveredRecords.IdentityIsDecided | app/runtime/persistence/recovery/manager.py:138-146 | Its title, type, metadata and creation time are those of its last submission. |
| RecoveredRecords.WorkerStateIsDecided | app/runtime/persistence/recovery/manager.py:208-237 | A known worker's state is idle after its last start or recovery, stopped after a stop, failed after a failure, whichever came last. |
| RecoveredRecords.HeartbeatIsDecided | app/runtime/persistence/recovery/manager.py:208-227 | Its heartbeat is the one last reported, or the time of a later start. |
| RecoveredRecords.FailuresAreCounted | app/runtime/persistence/recovery/manager.py:208-233 | Its failure count is that of the failures since its last start, on top of the earlier count when it did not start. |
| RecoveredRecords.QueueingIsDecided | app/runtime/persistence/recovery/manager.py:148-200 | A task is queued exactly when the last event that queues, dequeues or ends it queues it. |
| RecoveredRecords.DelayIsDecided | app/runtime/persistence/recovery/manager.py:245-254 | A task is delayed exactly when the last event that schedules or releases it schedules it. |
| RecoveredRecords.SchedulerIsDecided | app/runtime/persistence/recovery/manager.py:239-250 | The scheduler is started after a start that no stop follows, and a task's recorded time-out is the one last reported. |
| ReplayOverlap.FoldPatchesTask | app/runtime/persistence/recovery/manager.py:138-206 | To each task a whole log acts as one patch, independent of every other task. |
| ReplayOverlap.FoldPatchesWorker | app/runtime/persistence/recovery/manager.py:208-237 | To each worker a whole log acts as one patch. |
| ReplayOverlap.FoldReplaysLists | app/runtime/persistence/recovery/manager.py:148-254 | The queued and the delayed ids after a log are its insertions and removals replayed. |
| ReplayOverlap.RecoveryAbsorbsOverlap | app/runtime/persistence/recovery/manager.py:107-254 | Replaying events[j..] over the state folded from events[..k], for j at most k, gives the tasks, timeouts, scheduler flag, queue size, sets of queued and delayed ids, and workers up to failure counts, of a replay from the start. |
| ReplayOverlap.RecoveryIsExactIff | app/runtime/persistence/recovery/manager.py:107-254 | It gives the very same state exactly when the order of both lists survives and every worker known before the overlap restarts later or does not fail in the overlap. |
| ReplayOverlap.OverlapCanReorder | app/runtime/persistence/recovery/manager.py:148-158 | From any state with nothing queued, a boundary that queues a, dequeues it, queues it again and then queues c leaves a before c when replayed once, and c before a when recovery replays it over its own result. |
| ReplayOverlap.OverlapCanRecount | app/runtime/persistence/recovery/manager.py:229-233 | A failure in the overlap of a known worker is counted a second time. |
| RecoveryManagement.EventStore.AppendBatch | app/runtime/persistence/adapters/sqlite/event_store.py:49-72 | A batch is appended row by row, in order, leaving earlier rows alone. |
| RecoveryManagement.ReplayTaskEvent | app/runtime/persistence/recovery/manager.py:138-206 | The branch for a task event moves the task records, the queued ids and the recorded size as the step of the fold does. |
| RecoveryManagement.ReplayWorkerEvent | app/runtime/persistence/recovery/manager.py:208-237 | The branch for a worker event moves the worker records as the step of the fold does. |
| RecoveryManagement.ReplaySchedulerEvent | app/runtime/persistence/recovery/manager.py:239-254 | The branch for a scheduler event moves the flag, the delayed ids and the timeouts as the step of the fold does. |
| RecoveryManagement.ReplayEvents | app/runtime/persistence/recovery/manager.py:119-278 | The loop over local copies computes the fold of the events over the base state. |
| RecoveryManagement.RecoveryManager.Recover | app/runtime/persistence/recovery/manager.py:72-293 | The state is the fold of the selected events over the snapshot or the empty state, and the report counts what was replayed and rebuilt; a missing event store replays nothing. |
| RecoveryManagement.SinceIsSuffix | app/runtime/persistence/adapters/sqlite/event_store.py:96-110 | When the matching rows are those from some position on, the inclusive filter returns that suffix of the log. |
| RecoveryManagement.SnapshotReplayIsOverlap | app/runtime/persistence/recovery/manager.py:107-114 | Recovery from a snapshot of the first k rows folds the rows from the boundary up to the limit over it, wherever the limit falls; when that reaches past the snapshot it is a replay with overlap of the log cut at the limit. |
| RecoveryManagement.SnapshotRecoveryAgrees | app/runtime/persistence/recovery/manager.py:107-270 | With at most a hundred matching rows, snapshot recovery agrees with replaying the whole log in all parts overlap absorbs, and is equal to it under the exact condition. |
| RecoveryManagement.BeyondTheLimit | app/runtime/persistence/recovery/manager.py:111-112 | For every n above a hundred, a log of n matching rows whose recovery reports a stopped scheduler as started. |
| RecoveryManagement.AgreesIffWithinLimit | app/runtime/persistence/recovery/manager.py:107-114 | Snapshot recovery agrees with full replay on every log with n matching rows exactly when n is at most a hundred. |
| RecoveryManagement.CompleteIffWithinLimit | app/runtime/persistence/recovery/manager.py:113-114 | Recovery without a snapshot returns the state of the whole log, for every log of n rows, exactly when n is at most a hundred thousand. |
| RecoveryManagement.RecoverAgrees | app/runtime/persistence/recovery/manager.py:72-293 | The state that recovery returns from a snapshot of its own log, with at most a hundred matching rows, agrees with a replay of the whole log. |
| RecoveryManagement.RecoverFromGenesis | app/runtime/persistence/recovery/manager.py:89-117 | From genesis, or without a snapshot, a log of at most a hundred thousand rows is recovered whole over a state that knows nothing, whatever snapshots exist; without an event store recovery returns what it started from. |
| EntryHeap.LeastEntry | app/runtime/scheduling/queue/policy.py:119-127 | Popping yields the entry before all others by key and then by insertion number. |
| EntryHeap.SortedInsert | app/runtime/scheduling/queue/policy.py:107-113 | Pushing the newest entry puts it behind all entries whose key is not greater: ties come out first in, first out. |
| EntryHeap.SortedRemove | app/runtime/scheduling/queue/policy.py:119-127 | Taking an entry out leaves the order of the others. |
| EntryHeap.SortedIsSorted | app/runtime/scheduling/queue/policy.py:119-127 | Entries are popped in order of key, ties in order of insertion. |
| TaskQueue.FIFOPolicy.Remove | app/runtime/scheduling/queue/policy.py:73-78 | The first occurrence of the id leaves the order, if there is one, and the others keep theirs. |
| TaskQueue.HeapPolicy.Next | app/runtime/scheduling/queue/policy.py:119-127 | The loop discards tombstoned entries with their tombstones and returns the first other one, exactly as the specification's next does; the deadline policy shares the loop. |
| TaskQueue.HeapPolicy.Peek | app/runtime/scheduling/queue/policy.py:129-138 | The loop drops tombstoned entries from the front and reports the next id without taking it, exactly as the specification's peek does. |
| TaskQueue.InMemoryTaskQueue.constructor | app/runtime/scheduling/queue/in_memory_queue.py:26-43 | A missing, zero or negative maximum means no limit; a new queue is empty with zero counters. |
| TaskQueue.InMemoryTaskQueue.Enqueue | app/runtime/scheduling/queue/in_memory_queue.py:45-66 | From any state the object and the reply are those of the enqueue step: refused when full without a trace, otherwise stored, ordered, counted and recorded. |
| TaskQueue.InMemoryTaskQueue.Dequeue | app/runtime/scheduling/queue/in_memory_queue.py:68-85 | From any state the object and the reply are those of the dequeue step, also when the policy names an id that is not stored. |
| TaskQueue.InMemoryTaskQueue.Peek | app/runtime/scheduling/queue/in_memory_queue.py:87-96 | From any state the object and the reply are those of the peek step; storage, counters and record stay. |
| TaskQueue.InMemoryTaskQueue.Cancel | app/runtime/scheduling/queue/in_memory_queue.py:98-115 | From any state the object and the reply are those of the cancel step; an unknown id raises and changes nothing. |
| QueueRefinement.NextTakesLeast | app/runtime/scheduling/queue/policy.py:119-127 | In a well-ordered policy next takes the live entry of least key and number, whatever tombstones stand before it. |
| QueueRefinement.PeekShowsLeast | app/runtime/scheduling/queue/policy.py:129-138 | Peek keeps every live entry and names the one next will take. |
| QueueRefinement.StepRefines | app/runtime/scheduling/queue/in_memory_queue.py:45-115 | Storage index, heap and tombstones together answer and change as one stable priority queue, whenever an accepted enqueue names an id that has left no trace. |
| QueueRefinement.DequeueServesMostUrgent | app/runtime/scheduling/queue/policy.py:93-189 | A valid queue with tasks always hands one out, and no stored task has a higher priority (missing ones count as zero) or, by deadline, an earlier deadline (tasks without a usable one come last). |
| QueueRuns.RunRefines | app/runtime/scheduling/queue/in_memory_queue.py:45-115 | Every disciplined run gets, call by call, the replies of the plain stable priority queue and ends standing for the same queue. |
| QueueRuns.EnqueueRefinesIff | app/runtime/scheduling/queue/policy.py:107-113 | One enqueue is a step of the plain queue, on the representation's own terms, exactly when the queue is full or the id is neither stored nor tombstoned. |
| QueueExactness.EnqueueBehavesIff | app/runtime/scheduling/queue/in_memory_queue.py:45-115 | After an enqueue in any state a disciplined run can reach, every further disciplined call is answered as the plain queue answers it exactly when the queue was full or the id was neither stored nor tombstoned; otherwise some later reply differs. |
| QueueExactness.UndisciplinedCallsShow | app/runtime/scheduling/queue/policy.py:107-113 | Without the discipline on the later calls no valid unbounded queue passes for the plain one: enqueueing a fresh id twice changes some reply. |
| QueueRuns.DistinctIdsAreDisciplined | app/runtime/scheduling/queue/policy.py:107-117 | A run from a new queue that never enqueues an id twice is disciplined. |
| QueueRuns.RevivedEntryJumpsQueue | app/runtime/scheduling/queue/policy.py:107-127 | Enqueueing an id whose tombstoned entry heads the heap serves that task next, where the plain queue first serves whatever is at least as urgent. |
| QueueRuns.LeftoverEntryHidesTasks | app/runtime/scheduling/queue/in_memory_queue.py:68-77 | After that the entry left over makes a dequeue report an empty queue while tasks are stored. |
| QueueExactness.StaleEntryStrikes | app/runtime/scheduling/queue/policy.py:107-127 | A run from a new queue that meets both: a cancelled task that comes back less urgent is served first all the same, and one that comes back more urgent leaves a stored task behind an empty-queue error. |
| QueueLedger.HeapIsStoredPlusTombstones | app/runtime/scheduling/queue/policy.py:107-138 | In a valid queue the heap has one entry per stored task and one per tombstone. |
| QueueLedger.PopsArePaidFor | app/runtime/scheduling/queue/policy.py:107-138 | Over every run from a new queue, pops by next and peek plus the entries left equal the enqueues: the claimed amortised bound. |
| QueueLedger.CapacityHolds | app/runtime/scheduling/queue/in_memory_queue.py:51-53 | Over every run the stored tasks never exceed the capacity. |
| QueueLedger.EnqueuesAreAccounted | app/runtime/scheduling/queue/in_memory_queue.py:45-115 | Over every run from a new queue, enqueues counted equal dequeues plus cancellations plus stored tasks, plus the accepted enqueues that overwrote a stored task; so the counters add up exactly when none did. |
| QueueRecords.CountersCountReplies | app/runtime/scheduling/queue/in_memory_queue.py:45-115 | Over every run from a new queue each of the three counters counts the accepted calls of its own kind. |
| QueueRecords.DequeueAndCancelDiffer | app/runtime/scheduling/queue/in_memory_queue.py:68-115 | Recovery finds a task that was dequeued with the record it had, and one that was cancelled failed at that time with the message for cancellations. |
| QueueRecords.RecoveredStatus | app/runtime/scheduling/queue/in_memory_queue.py:45-115 | Over every run from a new queue, the status recovery finds of a known task is pending or failed as the last accepted enqueue or cancellation of it says; a dequeue leaves it. |
| QueueLedger.ReplayRebuildsStorage | app/runtime/scheduling/queue/in_memory_queue.py:45-115 | Over every run, replaying the recorded events into an empty list yields exactly the stored ids, each once. |
| QueueLedger.ReplayRebuildsFifoOrder | app/runtime/scheduling/queue/in_memory_queue.py:45-115 | Under FIFO, in a disciplined run, the replayed list is the policy's own order. |
| QueueOrder.ReplayIsFifoOrderIff | app/runtime/scheduling/queue/in_memory_queue.py:45-115 | After any run under FIFO, disciplined or not, the replayed list is the policy's own order exactly when that order holds no more entries than there are stored tasks. |
| QueueLedger.RecoveryFindsStoredTasks | app/runtime/persistence/recovery/manager.py:148-191 | Recovery folding the queue's events over a state with nothing queued finds exactly the stored ids queued, and under FIFO in service order. |
| QueueLedger.PeekPredictsDequeue | app/runtime/scheduling/queue/in_memory_queue.py:87-96 | Peek leaves what the queue stands for alone and shows the task the next dequeue returns, or nothing when that will raise. |
| QueueLedger.CancelledNeverServed | app/runtime/scheduling/queue/in_memory_queue.py:98-115 | An id that is not stored is never handed out by any later call unless it is enqueued again. |
| QueueLedger.StorageMovesAsSet | app/runtime/scheduling/queue/in_memory_queue.py:45-85 | Whatever the policy, an accepted enqueue adds its id, a dequeue removes the id it returns or raises and removes none, and a valid non-empty queue always yields a task. |
| Delayed.DelayedTaskTracker.AddDelayedTask | app/runtime/scheduling/delayed/tracker.py:60-76 | A task without a positive delay is ready at once and leaves the heap alone; any other joins it with its due time, even beside an equal task. |
| Delayed.DelayedTaskTracker.Poll | app/runtime/scheduling/delayed/tracker.py:83-93 | One poll releases exactly the tasks due, by due time and then arrival, and leaves exactly the later ones. |
| Delayed.ReleaseOrder | app/runtime/scheduling/delayed/tracker.py:83-93 | Released tasks are due and come out by due time, ties in order of arrival. |
| Delayed.PollsCompose | app/runtime/scheduling/delayed/tracker.py:83-93 | Two polls release together, in the same order, what the later alone would have released. |
| Delayed.PollingRateIsInvisible | app/runtime/scheduling/delayed/tracker.py:60-106 | Under any interleaving of additions and polls at ascending times, the tracker has released what one poll at its last polling time would release of everything it was handed, in that order, and holds the rest. |
| DelayedRelease.PollReleasesFallenDue | app/runtime/scheduling/delayed/tracker.py:60-93 | A poll releases a task once for every addition of it whose time plus delay has passed now and had not at any earlier poll. |
| DelayedRelease.FirstDuePollReleases | app/runtime/scheduling/delayed/tracker.py:60-93 | A task added once with a positive delay comes out with the first poll at or after its time plus delay, and with no other. |
| Retry.TotalDelayIsGeometric | app/runtime/scheduling/retry/policy.py:14-26 | The delays of n retries after r earlier ones add up to initial * f^r * (f^n - 1) / (f - 1), and to n * initial when f is 1. |
| Retry.NeverShrinksIff | app/runtime/scheduling/retry/policy.py:14-26 | Delays never shrink with the retry count exactly when the initial delay is zero, or is positive with a factor of at least one. |
| Scheduler.IntelligentScheduler.Schedule | app/runtime/scheduling/scheduler/intelligent_scheduler.py:100-120 | A submission with a positive delay, or to a queue with room, is accepted and placed; a full queue refuses it without a trace. |
| Scheduler.IntelligentScheduler.OnDelayedTaskReady | app/runtime/scheduling/scheduler/intelligent_scheduler.py:164-173 | A matured copy is queued unless the queue is full or already holds the task; then it is lost. |
| Scheduler.IntelligentScheduler.HandleTaskFailure | app/runtime/scheduling/scheduler/intelligent_scheduler.py:175-189 | A retryable failure below the maximum counts one retry, resets the task and sends one copy on, delayed or at once; any other changes nothing. |
| SchedulerEffects.CrashIsHandled | app/runtime/scheduling/scheduler/intelligent_scheduler.py:175-189 | A crash whose retry the policy grants adds one to the count, resets the task, and gives one copy to the tracker for the initial delay times the factor to the power of the earlier retries exactly when that is positive, else to the queue, or loses it there; a refused one moves no copy and leaves the task failed. |
| SchedulerEffects.TimeOutIsRetriedIff | app/runtime/scheduling/retry/engine.py:15-47 | A time-out is retried exactly by a policy with retries left and no filter, or a filter naming TimeoutError or one of its base classes. |
| DelayedRelease.RetryFallsDue | app/runtime/scheduling/scheduler/intelligent_scheduler.py:175-179 | The copy of a retried crash comes out of the tracker with the first poll that is later than its addition by at least that back-off. |
| SchedulerEffects.RetriesWaitGeometrically | app/runtime/scheduling/retry/engine.py:48-69 | Over every run, what a task was held back for its retries are the positive ones among its policy's back-offs, one for each retry counted, in order. |
| SchedulerEffects.RetriesWaitInAll | app/runtime/scheduling/retry/policy.py:14-26 | With no negative delay they add up to the policy's geometric sum. |
| Scheduler.IntelligentScheduler.TakeNext | app/runtime/scheduling/scheduler/intelligent_scheduler.py:149-155 | With an idle worker the orchestrator takes the task the queue names. |
| Scheduler.IntelligentScheduler.SubmitToPool | app/runtime/scheduling/worker/pool.py:109-119 | A started pool queues the task for hand-over; a stopped one raises and the dequeued task is lost. |
| Scheduler.IntelligentScheduler.WorkerStarts | app/runtime/scheduling/worker/worker.py:109-132 | A free worker takes the first task handed over, marks it running and arms its start time. |
| Scheduler.IntelligentScheduler.WorkerFinishes | app/runtime/scheduling/worker/worker.py:134-149 | A normal return completes the task unless it is marked failed, counts a completion and frees the worker. |
| Scheduler.IntelligentScheduler.WorkerCrashes | app/runtime/scheduling/worker/worker.py:150-167 | An exception marks the task failed, counts a failure, lets the scheduler retry and frees the worker. |
| Scheduler.IntelligentScheduler.CheckTimeouts | app/runtime/scheduling/timeout/manager.py:60-96 | One pass takes the time-out step of every execution it looked at, and afterwards none of them can time out again. |
| SchedulerEffects.PassTimesOutExactly | app/runtime/scheduling/timeout/manager.py:60-96 | A pass times out exactly the armed executions of known tasks with a limit that had run for longer than it: it disarms these, counts one failure for each, and leaves all other executions and tasks alone. |
| Scheduler.SecondPassIsIdle | app/runtime/scheduling/timeout/manager.py:87-89 | A pass over executions none of which can time out changes nothing, so a second pass at the same moment is idle. |
| Scheduler.IntelligentScheduler.ReleaseDelayed | app/runtime/scheduling/delayed/tracker.py:94-99 | The callbacks after a poll are the maturing steps of the released tasks in order. |
| SchedulerLaws.CopiesAreConserved | app/runtime/scheduling/scheduler/intelligent_scheduler.py:145-205 | Over every run, for each task: executions started, copies waiting and copies lost add up to submissions accepted and retries counted. |
| SchedulerLaws.CopiesInFlight | app/runtime/scheduling/scheduler/intelligent_scheduler.py:145-205 | Over every run a task has at most one copy waiting or running for each submission and each time-out, and at most one time-out for each execution. |
| SchedulerBounds.ExecutionsAreBounded | app/runtime/scheduling/retry/engine.py:15-69 | Over every run a task is started at most once per submission plus once per retry its policy still allows, even when a time-out and a failure hit the same execution. |
| SchedulerRounds.BoundIsReached | app/runtime/scheduling/retry/engine.py:15-69 | For every task with a policy some run starts it exactly that often after a single submission. |
| SchedulerBounds.NothingIsLost | app/runtime/scheduling/scheduler/intelligent_scheduler.py:164-189 | In a system with an unbounded queue and a pool that keeps running, a task submitted once that never times out has at most one copy at a time and loses none. |
| SchedulerBounds.EveryRetryRuns | app/runtime/scheduling/scheduler/intelligent_scheduler.py:164-189 | Such a task has started once and once more for each retry counted, less the copy still waiting, and never runs on two workers. |
| SchedulerBounds.CountersAddUp | app/runtime/scheduling/worker/pool.py:214-235 | Over every run, completions and failures counted plus executions under way equal executions started plus time-outs, and only the pool's workers run. |
| SchedulerBounds.PromptFinishCompletesIff | app/runtime/scheduling/worker/worker.py:139-143 | An execution that times out and returns before anything else happens completes its task exactly when the time-out was granted a retry; then a further copy of the completed task is on its way or was lost. |
| LateFinish.FailedIff | app/runtime/scheduling/worker/worker.py:132-167 | Over every run a task is marked failed exactly when the last step that decided anything about it was a failure or time-out not granted a retry, or none decided and it was marked before; starts and granted retries clear the mark. |
| LateFinish.LateFinishCompletesIff | app/runtime/scheduling/worker/worker.py:139-143 | Whatever steps lie between a time-out and the late return of its execution, the return completes the task exactly when the last of them that decided anything, the time-out included, was a start or a failure granted a retry; otherwise the task stays failed. |
| LateFinish.SingleTaskCompletesLateIff | app/runtime/scheduling/timeout/manager.py:87-96 | For a task submitted at most once, some run completes a timed-out execution of it exactly when it has a time limit and its policy allows a retry of a time-out. |

## Left out

- JSON text, SQLite, compression and locks: a checkpoint is the instance itself, the event table a sequence of rows. A node-level failure policy would not survive the JSON text, since it stays an enumeration value there.
- Threads, sleeps and clocks: each public operation is one atomic step, and times are parameters; timestamps are integers, so the order of their texts is taken to be that of the times.
- `recover_workflow`: it does not filter events by instance and loses the failed status it assigns, so it is outside the invariants of the orchestrator.
- Exceptions from `scheduler.schedule` in the middle of a dispatch pass: the scheduler is taken to accept what the orchestrator hands it.
- Planner.Plan: covers the DAGs the builder lets through; on a cyclic graph the backtracking may not end.
- Orchestrator.WorkflowOrchestrator.StartWorkflow: likewise starts DAGs only, and takes the freshly drawn instance id to be new.
- The builder's overrides of retry, time-out, checkpoint and approval settings, edge conditions and capabilities: nothing the model covers reads them.
- The started and completed times of workflow instances, the task type chosen from the executor type, and the versions of snapshots.
- Event identities: appending a second event with a known id would raise in the store.
- `heapq`: a heap is a set of entries from which the least is taken. Floating-point keys, times and delays are real numbers, and a priority that is not a number is not considered.
- PriorityPolicy and DeadlinePolicy as two classes: their code differs only in the key, so one class carries the key as a field; `clear` is left out.
- The queue's own metadata entry `queued_at`, its look-ups and its published notifications.
- Scheduler.IntelligentScheduler.TakeNext: the queue appears in the scheduler as its set of stored ids, justified by QueueLedger.StorageMovesAsSet; which id the policy names is left open.
- Scheduler.IntelligentScheduler.ReleaseDelayed: delayed copies appear in the scheduler as a multiset, so any of them may mature; when and in which order they do is proved of the tracker.
- SchedulerLaws.CopiesAreConserved: task objects are known by id, and the scheduler's handling of one failure is one step.
- Restarting a stopped pool, the supervisor, admission control, executors, environments and the registry.
- Middleware, tracing, metrics snapshots, health, alerts, logging and the SDK decorators: they observe or wrap the four parts, share no state with them, and mostly perform input and output.
