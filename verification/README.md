# VibeFlow: verified model of the scheduler and the worker runtime

VibeFlow runs workflows on a master and many workers that share an etcd store. A workflow is a list
of task groups; the tasks of a group run in parallel, groups run one after another, and what a group
answers may pause the workflow, enter a branch, skip ahead or repeat a loop. The project models the
parts of it where the state and the interleavings are, and proves what they keep.

| file | what it models |
|---|---|
| `Options.dfy`, `Sequences.dfy` | a value that may be absent; sequences without repetition, removal by position |
| `Heap.dfy` | the binary heap behind both task queues |
| `WorkerQueue.dfy` | the worker's priority queue, refined to a ranked queue |
| `Dispatcher.dfy` | the task dispatcher, one call at a time: two levels of slots, backlog, dispatch loop, batched write, retries |
| `SlotProtocol.dfy` | the global slot counter with all calls interleaved at atomic steps |
| `CounterRace.dfy` | one workflow's slot counter with finding, adding and deleting interleaved, by pushes, dispatches, retries and releases |
| `CasClaim.dfy` | claiming and reporting one task key in CAS mode: any number of attempts over the revisioned store |
| `CasWorker.dfy` | the worker's own code for that, call by call, refining the steps of `CasClaim.dfy` |
| `Execution.dfy` | group sequencing, branches, skips, loops, approval |
| `WorkflowEntry.dfy` | the running entry's state as executions and approvals write it |
| `Snapshot.dfy` | incremental snapshots, replay, the event guard, crash recovery |
| `HistoryCache.dfy` | the cache of finished executions and its index |
| `NameIndex.dfy` | the submission check on task names and the indexes built from them |
| `EventBacklog.dfy` | fan-out of task events by several workers with the bounded backlog, flushed entry by entry while all else goes on |
| `FieldScanner.dfy` | the field scanner against the serializer's output |
| `Breaker.dfy` | the circuit breaker |
| `RetryBackoff.dfy` | attempts and exponential waiting under the default policy |

The environment is explicit: store answers, clock readings, task outputs, the order in which Go walks
a map, and what happens between two atomic steps are inputs or free choices of a step, so every
theorem holds for all of them. A run is a value (`Start`, or `Then` a run and a step); a step that is
not enabled changes nothing, so the theorems about runs are about all sequences of steps.

## What turned out not to hold

The models follow the code. Where a comment or an obvious expectation promises more, there is a run or
input that shows it fails, and a theorem that says for all of them exactly when it holds:

- The dispatcher's check and add are two steps, so the global cap can be exceeded, without retries by
  one slot and no more, for every cap (`SlotProtocol.CapIsExceeded`). It is kept throughout a run if and only if every
  dispatch and every retry finds a slot free when it adds (`SlotProtocol.CapIsKeptIff`).
- A workflow's counter is deleted from its map when it reaches zero, and that races with the next increment:
  for every cap and every number there is a run that ends with that many slots held by one workflow
  while its counter reads zero (`CounterRace.NoBoundOnSlotsHeld`). The counter is exact throughout a run if
  and only if every add and subtraction meets the counter the map holds and every deletion finds it reading
  zero (`CounterRace.CounterIsExactIff`).
- Even an exact counter does not keep a workflow's cap: the dispatcher checks before its add only, and a
  retry not at all. While the counter is exact the slots held are at most the cap, plus one, plus the retried
  tasks holding a slot, and that is reached for every cap (`CounterRace.OvershootBound`,
  `CounterRace.OvershootIsReached`); the cap is kept if and only if every dispatch and every retry finds fewer
  slots held than the cap when it adds (`CounterRace.CapIsKeptIff`).
- Eviction can leave overdue tasks behind; it leaves none if and only if no overdue task had a lower priority
  than one in time (`Dispatcher.TaskDispatcher.EvictTimedOut`).
- A claim whose reply is lost leaves the task RUNNING with nobody to execute it, for ever
  (`CasClaim.LostReplyStrandsTask`). A task is stranded if and only if, while its key was still pending, a
  claim reported as failed took effect or the key was deleted (`CasClaim.StrandedIff`). The comments call
  `updateStatus` free of unconditional overwrites; the executor's fallback is one, and is proved
  harmless to a terminal value. A put of it that was reported as failed can still land later, and recreates
  the key even after the master has deleted it (`CasClaim.FailedPutStillLands`).
- A pause inside a branch stores an index relative to the branch, which approval reads against the main
  groups. Approval continues where the workflow paused, or completes it when nothing is left, if and only if
  the pause was in a main group or in the last group of a branch as long as the main list
  (`Execution.ApprovalContinuesIff`). Otherwise it can repeat for ever (`Execution.BranchPauseRepeats`), or
  schedule nothing and leave the workflow running (`Execution.BranchPauseStrands`);
  `Execution.ApprovalMovesForwardIff` says when it resumes behind what has run, completes, or does nothing.
- A loop group hands its upstream outputs on as its own, so a skip or a branch request that was followed
  already is followed again (`Execution.LoopActsOnUpstreamAgain`).
- A task that completes again after it was written keeps its old output in the log
  (`Snapshot.RecompletionIsNotWritten`); the log has the live output if and only if no different one came
  since it was written (`Snapshot.ReplayMatchesLive`). A task that fails after its completion was written leaves
  no trace of the failure in the log (`Snapshot.FailureAfterCompletionIsNotWritten`); a standing failure has been
  written by the next snapshot if and only if it was not recorded while a mark of the task stood
  (`Snapshot.SnapshotIsComplete`). A failure whose retry had gone out comes back after a
  crash and blocks the retry's completion (`Snapshot.ClearedFailureReturns`); after a crash the events of
  a task are dropped if and only if a completion or failure of it had reached the database
  (`Snapshot.AfterCrash`). The check for PENDING tasks during recovery, whose comment promises to skip
  such groups, does not influence the start group (`Snapshot.RecoverPosition`), and the sweep of old marks
  never removes one (`Snapshot.SweepRemovesNothing`).
- Persisting an execution ID twice breaks the cache, always (`HistoryCache.PersistKeepsValidIff`), and
  the per-workflow index is never refilled, so after n retries a lookup hits if and only if the index had
  more than n entries, whatever is still retained (`HistoryCache.RetriesExhaustIndex`).
- The name generated for a nameless sub-workflow node is written to a loop-local copy, so two such nodes are
  accepted and share the empty name (`NameIndex.AcceptedNamesDistinctIff`, `NameIndex.TwoNamelessNodes`).
- Events of one workflow can overtake each other: an event can be sent while an earlier one is still in another
  worker's hand (`EventBacklog.EventInHandIsPassed`), waits in the backlog, or was kept by the flush. A workflow's
  events are sent in the order offered if and only if none that a later one was sent past is sent after all
  (`EventBacklog.SentInOrderIff`); and none is ever sent past another that may still be sent if and only if no
  direct send and no look of a flush does so (`EventBacklog.OrderIsKeptIff`). A waiting event can reach the next
  execution of the same workflow (`EventBacklog.WaitingEventReachesNextExecution`); it is sent if and only if,
  when the flush looks at it, it is young enough, its workflow is registered and the channel has room
  (`EventBacklog.FlushSendsIff`).
- The scanner returns a field exactly when it has no control characters, none of `<`, `>` and `&`, and no Unicode
  line separator: of the serializer's escapes it understands those of quotes and backslashes only
  (`FieldScanner.TaskNameIsReadBackIff`).
- The waiting time of a retry is exact if and only if the largest one fits in 63 bits
  (`RetryBackoff.AllTermsExactIff`).
- Without a global cap the dispatcher adds to the global counter and nothing gives the slots back; a write
  that fails in `PushTask` or `RetryTask` can leave a workflow's counter at minus one; a task whose workflow
  vanished during a batch keeps its slot. The contracts in `Dispatcher` state these amounts.

## Model

| member | source | states |
|---|---|---|
| Heap.Push | infra/engine/scheduler/types.go:41-54 | the pushed slice is heap-ordered again and holds exactly the old elements and the new one |
| Heap.Pop | infra/engine/scheduler/types.go:41-63 | the element returned is the old front, none has a higher priority or, at the same one, an earlier tick, and the rest is heap-ordered and loses nothing else |
| Heap.HeadIsFirst | infra/engine/runtime/priority_queue.go:41-47 | no element of a heap-ordered slice has a higher priority than the first, and none of its priority a smaller tick |
| WorkerQueue.PriorityTaskQueue.Enqueue | infra/engine/runtime/priority_queue.go:70-90 | an open queue gets exactly one item more, with the next arrival number, behind everything it does not outrank; a closed queue ignores it |
| WorkerQueue.PriorityTaskQueue.Dequeue | infra/engine/runtime/priority_queue.go:94-125 | the front is handed out and nothing else leaves, even from a closed queue; an empty queue reports closed if it is closed or the signal closes it, and else waits |
| WorkerQueue.PriorityTaskQueue.Close | infra/engine/runtime/priority_queue.go:128-132 | the queue is closed and keeps what waits |
| WorkerQueue.NothingLostAndHeadFirst | infra/engine/runtime/priority_queue.go:41-125 | over every run, what arrived is exactly what departed plus what waits, and what waits is strictly ranked |
| WorkerQueue.FifoWithinPriority | infra/engine/runtime/priority_queue.go:41-125 | over every run, each priority class departs in order of arrival |
| WorkerQueue.DrainIsStableSort | infra/engine/runtime/priority_queue.go:41-125 | after any run, draining hands out the stable sort by descending priority of the arrivals still waiting, and only that sequence is one; of all arrivals when nothing had departed |
| WorkerQueue.StableSortUnique | infra/engine/runtime/priority_queue.go:41-47 | two sequences with descending priorities and equal priority classes are equal |
| SlotProtocol.OvershootBound | infra/engine/scheduler/task_dispatcher.go:137-206 | in every interleaving the slots held are at most the cap, plus one, plus the retried tasks holding a slot; the counter is the slots held plus the adds not yet taken back |
| SlotProtocol.EveryRunKeepsInv | infra/engine/scheduler/task_dispatcher.go:462-531 | the invariant behind the bound holds after every run of pushes, dispatches, retries and matched releases |
| SlotProtocol.CapIsKeptIff | infra/engine/scheduler/task_dispatcher.go:501-531 | a run never holds more slots than the cap if and only if every dispatch and every retry finds a slot free when it adds |
| SlotProtocol.UninterruptedCheckKeepsCap | infra/engine/scheduler/task_dispatcher.go:501-531 | with no retries and nothing between the dispatcher's check and its add, the cap is never exceeded |
| SlotProtocol.CapIsExceeded | infra/engine/scheduler/task_dispatcher.go:501-531 | for every cap there is a run without retries that holds one slot too many |
| SlotProtocol.EveryCallIsAccountedFor | infra/engine/scheduler/task_dispatcher.go:137-542 | over every run each call begun is under way, has a slot or has enqueued its task, and each task enqueued waits, is put aside under the lock, or was dispatched or evicted |
| CounterRace.CountersAddUp | infra/engine/scheduler/task_dispatcher.go:79-116 | in every interleaving of pushes, dispatches, retries, releases and forced deletions all counters ever created add up to the slots held or about to be given back |
| CounterRace.CounterIsExactIff | infra/engine/scheduler/task_dispatcher.go:79-116 | the counter read is exact at every moment of a run if and only if every add and subtraction meets the counter the map holds and every deletion finds it reading zero |
| CounterRace.CapIsKeptIff | infra/engine/scheduler/task_dispatcher.go:501-531 | while the counter is exact the workflow never holds more slots than its cap if and only if every add of the dispatcher and of a retry finds fewer held |
| CounterRace.OvershootBound | infra/engine/scheduler/task_dispatcher.go:501-531 | while the counter is exact the slots held are at most the cap, plus one, plus the retried tasks holding a slot |
| CounterRace.OvershootIsReached | infra/engine/scheduler/task_dispatcher.go:605-621 | for every cap and every number of retries a run with an exact counter that reaches this bound |
| CounterRace.UninterruptedIsExact | infra/engine/scheduler/task_dispatcher.go:79-108 | when finding and adding, and finding, subtracting and deleting, are not interrupted, the counter is exact |
| CounterRace.UninterruptedKeepsCap | infra/engine/scheduler/task_dispatcher.go:501-531 | when besides there are no retries and nothing comes between the dispatcher's load and its add, the cap is kept |
| CounterRace.NoBoundOnSlotsHeld | infra/engine/scheduler/task_dispatcher.go:102-108 | for every cap and every n a run with n slots held by one workflow and a counter that reads zero |
| Dispatcher.Inc | infra/engine/scheduler/task_dispatcher.go:79-99 | one more for the workflow, the same for all others |
| Dispatcher.Dec | infra/engine/scheduler/task_dispatcher.go:102-108 | one less for the workflow, the same for all others, although the entry goes at zero |
| Dispatcher.TaskDispatcher.MarkWorkflowFailed | infra/engine/scheduler/watch.go:687-715 | a running workflow ends and its counter is cleared; one that has ended is left alone |
| Dispatcher.TaskDispatcher.EnqueuePending | infra/engine/scheduler/task_dispatcher.go:209-219 | the backlog is heap-ordered and has exactly one more task, ranked by priority and enqueue time |
| Dispatcher.TaskDispatcher.EvictTimedOut | infra/engine/scheduler/task_dispatcher.go:548-590 | only tasks past the time-out leave; afterwards the head and every waiting task of its priority are in time, and all are if and only if no overdue task had a lower priority than one in time; evicted workflows end and lose their counter |
| Dispatcher.TaskDispatcher.EvictionIsCompleteIff | infra/engine/scheduler/task_dispatcher.go:553-568 | popping overdue heads leaves no overdue task if and only if none had a lower priority than a task in time |
| Dispatcher.TaskDispatcher.SelectTasks | infra/engine/scheduler/task_dispatcher.go:484-542 | maximal, in plain numbers: it ends with as many slots out as the global cap allows, or only tasks waiting whose workflow has as many as its cap; a waiting task ranks before a dispatched one only if its own, different workflow is at its cap; dispatched and waiting partition the backlog; no cap is passed |
| Dispatcher.TaskDispatcher.BatchPush | infra/engine/scheduler/task_dispatcher.go:336-458 | the tasks written and the refunds of both levels, for every mix of vanished workflows, unserializable payloads and a failing write |
| Dispatcher.FatesPartition | infra/engine/scheduler/task_dispatcher.go:336-458 | written, unserializable and vanished tasks partition a batch, in total and per workflow |
| Dispatcher.ReadyIff | infra/engine/scheduler/task_dispatcher.go:353-430 | a task of a batch is ready if and only if its workflow was found at its place or before and its payload serializes |
| Dispatcher.UnserializableIff | infra/engine/scheduler/task_dispatcher.go:353-430 | it is given back at once if and only if its workflow was found in time and its payload is refused |
| Dispatcher.TaskDispatcher.TryDispatchPending | infra/engine/scheduler/task_dispatcher.go:484-542 | evicted, selected and waiting tasks partition the backlog; with a global cap both counters end with one more per task written and per vanished workflow's task, no double refund |
| Dispatcher.TaskDispatcher.PushTask | infra/engine/scheduler/task_dispatcher.go:137-206 | with exact loads a task is refused if and only if one of the two levels has reached its cap; under arbitrarily stale loads it is let through only below both; the exact effect on queue and counters in each outcome |
| Dispatcher.TaskDispatcher.ReleaseSlotForWorkflow | infra/engine/scheduler/task_dispatcher.go:470-482 | one slot of both levels given back, then the dispatch, with the resulting counters with and without a global cap |
| Dispatcher.TaskDispatcher.RetryTask | infra/engine/scheduler/task_dispatcher.go:605-668 | a slot of both levels without a cap check; after a failed write the workflow ends, its counter, if it was running, comes to minus one, and what waits is dispatched, with all resulting amounts |
| CasClaim.EveryRunKeepsInv | infra/engine/runtime/cas_lock.go:39-167 | the protocol invariant after every run of any attempts with failing, late and lost writes |
| CasClaim.AtMostOneWinner | infra/engine/runtime/cas_lock.go:39-105 | over every run at most one attempt acquires the key and the task is executed at most once |
| CasClaim.StatusMovesForward | infra/engine/runtime/cas_lock.go:107-167 | between any two moments the status moves only forward, and no terminal value is ever joined or replaced by a different one, the unconditional put included |
| CasClaim.RevisionTellsChange | infra/store/etcd/store.go:299-329 | between two moments of any run with the same revision the key has not been touched, so the compare cannot be deceived |
| CasClaim.ExactlyOneWinner | infra/engine/runtime/cas_lock.go:39-105 | without errors and deletions exactly one attempt wins once any issues its write, and its outcome is what the key ends with |
| CasClaim.StrandedIff | infra/engine/runtime/cas_lock.go:39-105 | over every run the task is stranded if and only if a claim reported as failed took effect, or the key was deleted, while it was pending; otherwise the key is pending or an attempt has the task |
| CasClaim.LostReplyStrandsTask | infra/engine/runtime/cas_lock.go:73-77 | such a run, stranded in every continuation |
| CasClaim.FailedPutStillLands | infra/engine/runtime/reporter.go:54-90 | a fallback put reported as failed can land at any later moment of any run, over any value and after a deletion |
| CasClaim.FailedReportStillLands | infra/engine/runtime/cas_lock.go:122-126 | a report that failed can land at any later moment, and takes effect if and only if the key still has the revision of its claim |
| CasWorker.Cluster.GetWithRevision | infra/store/etcd/store.go:284-297 | a read under interference is one step of the protocol, and without interference takes place at once |
| CasWorker.Cluster.CASPut | infra/store/etcd/store.go:299-329 | a compare-and-put under interference is one step; it succeeds if and only if it does not fail and the key has the expected revision at that moment, and then the key holds the value at the revision returned |
| CasWorker.Cluster.TryAcquire | infra/engine/runtime/cas_lock.go:39-105 | it is refused only for a cause: a read or put that failed, a key seen not pending, three conflicts, or a context that ended after a conflict; acquired, the key is RUNNING at its revision; undisturbed on a pending key it acquires |
| CasWorker.Cluster.UpdateStatus | infra/engine/runtime/cas_lock.go:107-167 | a report made is in the store when it returns; one not made failed, or met a moved key that could not be read or was not terminal; undisturbed on its own revision it is made |
| CasWorker.Cluster.FallBack | infra/engine/runtime/reporter.go:42-95 | a put goes through, and the outcome is in the store, if and only if it is not refused and one of at most three puts is reached in time and does not fail |
| CasWorker.Cluster.ExecuteWithCas | infra/engine/runtime/executor.go:120-183 | it executes exactly if it acquired, and then is the only holder; otherwise it has a cause; undisturbed it executes a pending task; the outcome is in the store when it returns if the report is undisturbed or the first fallback put goes through |
| Execution.CollectResults | infra/engine/scheduler/execution_manager.go:738-867 | a group succeeds exactly if no task failed; the error kept is that of the first failed task |
| Execution.CollectedPiecewise | infra/engine/scheduler/execution_manager.go:738-867 | the outputs of a group follow each other in order of arrival, and the first error of any prefix is kept |
| Execution.RunLoop | infra/engine/scheduler/advanced_executor.go:396-474 | the loop is the recursive loop specification |
| Execution.LoopFrom | infra/engine/scheduler/advanced_executor.go:396-474 | a loop body runs at most the maximal number of times, at least once if that is positive, and outputs accumulate behind the upstream |
| Execution.LoopEndsAtFirstStop | infra/engine/scheduler/advanced_executor.go:396-474 | the loop ends with its first round that fails or asks to stop, else with the last of the maximum; it fails exactly when that round failed, with its error, else hands on the upstream and the outputs of all rounds in order |
| Execution.LoopRoundsIff | infra/engine/scheduler/advanced_executor.go:626-657 | for a body that never fails: the maximum of rounds unless the loop looks at a key, and then the first whose last output holds false under it, or no boolean there and false under the general key |
| Execution.GetSkipGroups | domain/model/context.go:222-236 | a number is cut off towards zero and anything else asks for no skip |
| Execution.Decide | infra/engine/scheduler/execution_manager.go:109-195 | a skip lands behind the next group and inside the list; a branch entered is one the group's first branching node defines |
| Execution.BranchTarget | infra/engine/scheduler/execution_manager.go:127-165 | the target is the named branch, else the default one, of the first node with branches |
| Execution.NamedBranchComesFirst | infra/engine/scheduler/execution_manager.go:127-160 | the named branch is taken if the branching node has it, else the default one, else none |
| Execution.BranchingNodeIsFirst | infra/engine/scheduler/execution_manager.go:289-299 | the branching node is the first with branches, missing only when no node has any |
| Execution.LoopIsFirst | infra/engine/scheduler/execution_manager.go:444-476 | a group is looped if and only if it has a loop node, by the first one |
| Execution.FirstActingOutputsDecide | infra/engine/scheduler/execution_manager.go:118-186 | the first outputs a group acts on decide, whatever follows them |
| Execution.ApprovalPauses | infra/engine/scheduler/execution_manager.go:118-125 | when the first output acted on asks for approval, the run ends there, paused, whatever else it asks |
| Execution.BranchIsEntered | infra/engine/scheduler/execution_manager.go:127-149 | when it asks for a branch, the run goes on at that branch's first group with the group's own outputs |
| Execution.SkipPassesOver | infra/engine/scheduler/execution_manager.go:165-186 | when it asks to skip n groups, exactly n are passed over: the next place is n + 1 further on in the same list with the group's own outputs, or the run is completed |
| Execution.PlainGroupGoesOn | infra/engine/scheduler/execution_manager.go:188-195 | when no output is acted on, the run goes on with the next group, which gets the outputs appended to those handed in, or is completed |
| Execution.FailureEndsRun | infra/engine/scheduler/execution_manager.go:411-426 | a group that fails ends the run there |
| Execution.LoopActsOnUpstreamAgain | infra/engine/scheduler/execution_manager.go:461-513 | a loop group decides on its upstream outputs first, on its body's answers only if none of those is acted on |
| Execution.AdvanceMoves | infra/engine/scheduler/execution_manager.go:109-232 | every next, skip and branch makes the remaining tree smaller |
| Execution.RunVisitsTreeInOrder | infra/engine/scheduler/execution_manager.go:311-440 | for every tree and all outputs a run executes groups of the remaining tree, in strictly increasing order, at most as many as it holds |
| Execution.NoGroupRunsTwice | infra/engine/scheduler/execution_manager.go:311-440 | no group is executed twice in a run |
| Execution.RunEndsAtLastPlace | infra/engine/scheduler/execution_manager.go:234-251 | a pause or failure carries the index of the last group executed, and only a request for approval pauses |
| Execution.ApprovalMovesForwardIff | infra/engine/scheduler/workflow_manager.go:428-478 | approval resumes behind every main group reached if and only if the stored index is below the last main group and the pause was in a main group or not below the branching one; it completes exactly at the last main index and schedules nothing exactly beyond it |
| Execution.ApprovalContinuesIff | infra/engine/scheduler/workflow_manager.go:453-478 | approval does what is due, the next group of the list that paused or completion, if and only if the pause was in a main group or in the last group of a branch as long as the main list |
| Execution.MainPauseResumesAtNextGroup | infra/engine/scheduler/workflow_manager.go:453-478 | a pause in main group i resumes at i + 1 or completes after the last; the output passed on loses exactly the three control keys |
| Execution.LifetimeVisitsTreeOnce | infra/engine/scheduler/workflow_manager.go:428-478 | across any number of approved main-group pauses no group runs twice, the total is bounded by the tree, and the life ends |
| Execution.BranchPauseRepeats | infra/engine/scheduler/execution_manager.go:234-251 | a workflow that, after any number of approvals, runs the branching group again and pauses at the same place |
| Execution.BranchPauseStrands | infra/engine/scheduler/workflow_manager.go:453-478 | a workflow whose branch pause is past every main group and whose approval schedules nothing |
| WorkflowEntry.Entry.Execute | infra/engine/scheduler/execution_manager.go:97-440 | an execution leaves the entry completed, paused or failed as its run ended, within the bounds of the tree |
| WorkflowEntry.Entry.PauseForApproval | infra/engine/scheduler/execution_manager.go:234-251 | the paused state, with a task name taken from the main groups whichever list paused |
| WorkflowEntry.Entry.ApproveWorkflow | infra/engine/scheduler/workflow_manager.go:428-478 | refused unless paused; resumes, completes, or, for an index beyond the main groups, leaves the entry running with nothing scheduled |
| Snapshot.WorkflowState.CollectTaskDeltas | infra/engine/scheduler/repository.go:294-350 | the deltas are exactly the changes of tasks without a mark, each once, in whatever order the maps are walked; their tasks bear the new mark afterwards, and the sweep follows |
| Snapshot.WorkflowState.ApplyDeltas | domain/model/workflow.go:412-432 | the state is the fold of the deltas |
| Snapshot.ReplayOf | domain/model/workflow.go:412-432 | a replay has exactly the tasks named by the deltas, with an output some delta carries, and never loses a failure |
| Snapshot.WorkflowState.RecordCompleted | infra/engine/scheduler/watch.go:436-471 | an event is dropped exactly for a failed task, or after recovery for a completed one |
| Snapshot.WorkflowState.RecordFailed | infra/engine/scheduler/watch.go:436-471 | the same guard for failures |
| Snapshot.WorkflowState.ClearFailedTask | infra/engine/scheduler/workflow_manager.go:802-812 | the failure and the mark of the task are gone, nothing else changes |
| Snapshot.EveryRunKeepsInv | infra/engine/scheduler/repository.go:294-350 | after every run of events, snapshots, lost or late writes and crashes, what was written is real and every mark is honest |
| Snapshot.ReplayMatchesLive | infra/engine/scheduler/repository.go:294-350 | from a snapshot or a recovery to the next completion the replay has exactly the live completed tasks, and a task's live output if and only if it has not completed again with a different one since it was written |
| Snapshot.SnapshotIsComplete | infra/engine/scheduler/repository.go:294-350 | right after a snapshot the replay equals the live completed map if no task completed twice under one mark; a standing failure has been written if and only if it was not recorded under a mark, and then with its live text, else the replay counts the task as completed |
| Snapshot.FailureAfterCompletionIsNotWritten | infra/engine/scheduler/repository.go:312-320 | a task failing after its completion was written leaves no failure in the log |
| Snapshot.SweepRemovesNothing | infra/engine/scheduler/repository.go:336-347 | the every-tenth-snapshot sweep changes no mark |
| Snapshot.RecompletionIsNotWritten | infra/engine/scheduler/repository.go:303-311 | a task completing again under its mark keeps its first output in the log |
| Snapshot.FirstIncomplete | infra/engine/scheduler/repository.go:496-527 | all groups before the result are completely done, the one at it is not |
| Snapshot.RecoverPosition | infra/engine/scheduler/repository.go:496-527 | the start is the first group not completely done; the upstream holds, position by position, the outputs of the tasks named in the groups before it, in order of definition; PENDING tasks make no difference |
| Snapshot.RecoveryNeverSkipsWork | infra/engine/scheduler/repository.go:496-527 | after a crash at any point each output handed on is, position by position, one the named task before the start had completed with, and the start is at most the first incomplete live group |
| Snapshot.RecoveryIsExact | infra/engine/scheduler/repository.go:496-527 | with all writes landed and no completion after the last snapshot the start is the first incomplete live group |
| Snapshot.AfterCrash | infra/engine/scheduler/watch.go:436-471 | after any run and a crash a task's events are dropped if and only if a completion or a failure of it had reached the database |
| Snapshot.ClearedFailureReturns | infra/engine/scheduler/watch.go:436-446 | a failure cleared for a retry is back after a crash, and the retry's completion is dropped |
| HistoryCache.Cache.AddToHistory | infra/engine/scheduler/workflow_manager.go:605-615 | the first locked part: record and order get the execution, the index entry gets it as its last ID and keeps the ten newest, for any ID; other entries stay |
| HistoryCache.Cache.EvictOverLimit | infra/engine/scheduler/workflow_manager.go:642-657 | the second locked part: exactly the oldest executions above the limit leave the order and the records, a thousand when none is configured |
| HistoryCache.Cache.PersistWorkflowLocked | infra/engine/scheduler/workflow_manager.go:604-658 | append, whatever other calls do while no lock is held, evict |
| HistoryCache.Cache.RemoveHistoryByUUIDEntry | infra/engine/scheduler/workflow_manager.go:566-580 | the first occurrence of the ID leaves the index entry, and an emptied entry goes |
| HistoryCache.Cache.RemoveFromHistoryOrder | infra/engine/scheduler/workflow_manager.go:584-591 | the first occurrence of the ID leaves the order |
| HistoryCache.Cache.GetHistory | infra/engine/scheduler/workflow_manager.go:190-205 | the record behind the last indexed ID, or a miss |
| HistoryCache.Cache.RetryWorkflow | infra/engine/scheduler/workflow_manager.go:529-562 | resubmits exactly if the workflow is not running and found; the newest execution leaves all three structures |
| HistoryCache.PersistKeepsValidIff | infra/engine/scheduler/workflow_manager.go:604-658 | persisting keeps the cache consistent if and only if the ID is not already retained, within the limit |
| HistoryCache.EveryRunKeepsValid | infra/engine/scheduler/workflow_manager.go:529-658 | with fresh IDs, after every interleaving of the locked parts the order lists exactly the cached executions once each, each index entry is a suffix of at most ten of its workflow's IDs, and the limit is exceeded by no more than the evictions still owed |
| HistoryCache.EvictKeepsNewest | infra/engine/scheduler/workflow_manager.go:642-656 | eviction leaves exactly the newest executions up to the limit, in order and records |
| HistoryCache.EvictTrimsIndex | infra/engine/scheduler/workflow_manager.go:642-656 | an index entry is shortened by eviction only as far as its executions are gone |
| HistoryCache.HitIsNewest | infra/engine/scheduler/workflow_manager.go:190-205 | a hit returns the workflow's newest retained execution |
| HistoryCache.RetryKeepsValid | infra/engine/scheduler/workflow_manager.go:529-589 | a retry takes out exactly the workflow's newest retained execution and keeps the cache consistent |
| HistoryCache.RetriesExhaustIndex | infra/engine/scheduler/workflow_manager.go:566-580 | after n retries lookups hit if and only if the index had more than n entries, with all executions not taken still retained |
| NameIndex.ValidateWorkflowTasks | infra/engine/scheduler/types.go:145-220 | accepted if and only if no node has one of the listed defects, all branch tasks are named and no resolved name is used twice anywhere |
| NameIndex.AcceptedNamesDistinctIff | infra/engine/scheduler/types.go:156-220 | in an accepted workflow all main and branch names are pairwise distinct if and only if at most one main node is nameless |
| NameIndex.TwoNamelessNodes | infra/engine/scheduler/types.go:168-172 | two nameless sub-workflow nodes are accepted and share the empty name |
| NameIndex.NamelessNodeClaimsName | infra/engine/scheduler/types.go:229-243 | a nameless sub-workflow node claims a generated name, which no task may bear |
| NameIndex.BuildTaskGroupIndex | domain/model/workflow.go:314-322 | each main name leads to the last main group using it, and nothing else is indexed |
| NameIndex.BuildBranchTaskIndex | domain/model/workflow.go:327-348 | each branch task's name leads to the place of a branch task of that name, and nothing else is indexed |
| NameIndex.IndexesInvertPositions | domain/model/workflow.go:314-348 | for distinct names the indexes are exact inverses of the positions with disjoint keys |
| NameIndex.IndexesAreDetermined | domain/model/workflow.go:327-348 | for distinct names the order of walking the branch maps makes no difference |
| NameIndex.AllTaskNames | domain/model/workflow.go:264-301 | the names are exactly those of all tasks that are not passed over and of the fan-out templates, with multiplicities |
| NameIndex.TemplateIff | domain/model/workflow.go:279-287 | a template is listed if and only if a fan-out node of a main group has it, and it is not empty |
| NameIndex.AllTaskNamesCached | domain/model/workflow.go:352-361 | exactly the keys of both indexes, once each when they share none |
| NameIndex.CachedNamesAreAllNames | domain/model/workflow.go:352-361 | in an accepted workflow without nameless nodes the names read off the indexes are those of the full walk without the templates |
| EventBacklog.WorkflowWatchers.RegisterWorkflow | infra/engine/scheduler/watch.go:81-87 | one registration step of the run |
| EventBacklog.WorkflowWatchers.UnregisterWorkflow | infra/engine/scheduler/watch.go:90-98 | one unregistration step of the run |
| EventBacklog.WorkflowWatchers.ReportDropped | infra/engine/scheduler/watch.go:239-242 | the counter is read and reset, one step of the run |
| EventBacklog.WorkflowWatchers.LookUp | infra/engine/scheduler/watch.go:104-110 | the event of a registered workflow is offered and in hand, others are ignored: one step of the run |
| EventBacklog.WorkflowWatchers.SendFromHand | infra/engine/scheduler/watch.go:116-122 | an event in hand goes into its channel: one step of the run |
| EventBacklog.WorkflowWatchers.ParkFromHand | infra/engine/scheduler/watch.go:124-138 | when no flush holds the lock, an event in hand goes to the end of a backlog of fewer than 2048 and is dropped and counted otherwise: one step of the run |
| EventBacklog.WorkflowWatchers.DispatchEvent | infra/engine/scheduler/watch.go:104-146 | the whole dispatch, when nothing comes between, is these steps |
| EventBacklog.WorkflowWatchers.FlushBacklog | infra/engine/scheduler/watch.go:150-196 | a whole flush is a run of looks between its beginning and its end, with registrations, look-ups, direct sends and reports in between |
| EventBacklog.WorkflowWatchers.LookAt | infra/engine/scheduler/watch.go:165-187 | one turn of the loop is one look: an entry older than thirty seconds is counted as dropped, one of a registered workflow is sent or kept as its channel has room, and any other is discarded |
| EventBacklog.EveryRunAccounts | infra/engine/scheduler/watch.go:81-196 | over every run each offered event is in hand, sent, waiting, dropped or discarded as often as it was offered, the counter tells the truth, and the backlog keeps its bound |
| EventBacklog.EachEventInOnePlace | infra/engine/scheduler/watch.go:104-196 | if no event is offered twice, each offered event is in exactly one place, once |
| EventBacklog.EventIsGivenUpIff | infra/engine/scheduler/watch.go:124-187 | over every run an event is counted as dropped if and only if it is parked while 2048 wait or looked at when older than thirty seconds, and discarded if and only if looked at in time without its workflow registered |
| EventBacklog.PassDecides | infra/engine/scheduler/watch.go:150-196 | every entry is looked at once, in order, and its age and what the look finds decide its fate; what is kept and what is sent are exactly those |
| EventBacklog.FlushKeepsOrder | infra/engine/scheduler/watch.go:150-196 | what remains after a flush keeps its order, and is exactly what was young enough and refused by a registered workflow's channel |
| EventBacklog.FlushSendsIff | infra/engine/scheduler/watch.go:165-187 | a waiting event is sent if and only if, when looked at, it is young enough, its workflow is registered, under whichever registration, and the channel has room |
| EventBacklog.FlushSendsInOrder | infra/engine/scheduler/watch.go:165-187 | what a flush sends goes out in the order it waited |
| EventBacklog.DirectSendKeepsOrderIff | infra/engine/scheduler/watch.go:112-122 | a direct send keeps the workflow's order if and only if no event of it that was offered earlier waits or is in hand |
| EventBacklog.LookKeepsOrderIff | infra/engine/scheduler/watch.go:165-187 | a look keeps the workflow's order if and only if it does not send one of its events past an earlier one that waits or is in hand |
| EventBacklog.OrderIsKeptIff | infra/engine/scheduler/watch.go:104-196 | over every run a workflow's events stay in order, sent past none that may still be sent, if and only if no direct send and no look overtakes one |
| EventBacklog.SentInOrderIff | infra/engine/scheduler/watch.go:104-196 | over every run a workflow's events have been sent in the order offered if and only if none that a later one was sent past has been sent after all |
| EventBacklog.EventInHandIsPassed | infra/engine/scheduler/watch.go:112-130 | for every two events of a workflow a run that sends the second while the first is in hand |
| EventBacklog.WaitingEventReachesNextExecution | infra/engine/scheduler/watch.go:81-196 | such a run, for every event: offered under one registration, sent under the next |
| FieldScanner.ExtractJSONField | infra/store/model.go:100-136 | the value is the quoted text behind the first occurrence of the key pattern, empty without one |
| FieldScanner.ExtractTaskName | infra/store/model.go:86-88 | the field behind the task_name key |
| FieldScanner.ExtractWorkflowUUID | infra/store/model.go:93-95 | the field behind the workflow_id key |
| FieldScanner.ReadQuoted | infra/store/model.go:109-135 | the loops are the recursive scanner |
| FieldScanner.QuotedNeedsBothQuotes | infra/store/model.go:109-135 | blanks and tabs before the quote make no difference; without an opening quote there, or with no quote to end it, nothing is read |
| FieldScanner.TaskNameKeyIsFirst | infra/store/model.go:86-103 | the task name's key pattern occurs where it was printed and nowhere before, whatever the workflow ID holds |
| FieldScanner.TaskNameIsReadBackIff | infra/store/model.go:65-136 | the task name is read back from its serialized form if and only if it has no control characters, none of the three special to HTML and no Unicode line separator |
| FieldScanner.WorkflowIDIsReadBackIff | infra/store/model.go:65-136 | the same for the workflow ID |
| Breaker.CircuitBreaker.Allow | infra/circuit/circuit.go:75-98 | admission and the state change, in terms of the log of calls |
| Breaker.CircuitBreaker.Success | infra/circuit/circuit.go:101-110 | the state the log with this success leads to |
| Breaker.CircuitBreaker.Failure | infra/circuit/circuit.go:113-131 | the state the log with this failure leads to |
| Breaker.ClosedIff | infra/circuit/circuit.go:101-131 | closed if and only if the failures since the last success number fewer than the maximum, or than one |
| Breaker.ClosedAdmits | infra/circuit/circuit.go:82-83 | below the threshold of failures every call is admitted |
| Breaker.NothingAfterProbe | infra/circuit/circuit.go:84-95 | after a probe nothing is admitted until a report arrives |
| Breaker.CoolDownDecides | infra/circuit/circuit.go:84-131 | an open breaker admits a call, as a probe, if and only if the cool-down since it last opened is over; late failures do not prolong it |
| Breaker.ProbesAreApart | infra/circuit/circuit.go:75-131 | the opening and all probes without a success between them are at least a cool-down apart |
| Breaker.ProbesInWindow | infra/circuit/circuit.go:75-131 | the probes in a window are bounded by its length over the cool-down plus one |
| RetryBackoff.RetriedTask.HandleTaskFailed | infra/engine/scheduler/watch.go:635-685 | the retry decision, the wait scheduled and the new counts |
| RetryBackoff.AttemptsAreBounded | infra/engine/scheduler/watch.go:652-670 | a task is attempted at most once more than its retries allow |
| RetryBackoff.RetriedIff | infra/engine/scheduler/watch.go:632-685 | an event starts one more attempt if and only if it is a failure that may be retried, with a retry left, whose payload is written; any other ends the task |
| RetryBackoff.EndIsFinal | infra/engine/scheduler/watch.go:632-650 | a completion or a failure that must not be retried ends the task for good |
| RetryBackoff.WaitIsExact | infra/engine/scheduler/watch.go:652-653 | with all terms in 63 bits, k retries wait base × (2^k − 1) seconds, at most base × (2^max − 1) |
| RetryBackoff.AllRetriesAreUsed | infra/engine/scheduler/task_dispatcher.go:605-642 | a task that keeps failing uses all retries, so both bounds are reached |
| RetryBackoff.AllTermsExactIff | infra/engine/scheduler/watch.go:653 | all waits are exact if and only if the largest fits in 63 bits |
| RetryBackoff.LongWaitWraps | infra/engine/scheduler/watch.go:653 | base one second, thirty-fifth retry: the computed wait is negative |

## Left out

- The default mutex mode of the worker: it does not read the status again after locking, so it makes no at-most-once promise.
- Saga rollback: the entry is persisted, and thereby removed, before the rollback looks it up, so the compensation order its comments describe is not what the code does. Running entries therefore never hold rolled-back tasks; the snapshot model collects and replays them, but no step adds one.
- The skip error policy, which persists and so ends the workflow it means to continue, and the fail-fast policy.
- Sub-workflow and fan-out execution; in the group executor every node is an ordinary or a loop node.
- Delays between groups, task time-outs and cancellation of a running workflow.
- History loaded from the database at start-up (in the opposite order); the history model starts empty. The database answer after a cache miss is not modelled.
- The worker registry's counters, cron, the web interface, plugins, metrics and tracing.
- JSON, MySQL and etcd internals, leases and watch streams. The stored snapshot is a single JSON object where the loader expects a list of deltas; the model works on lists of deltas.
- Snapshot writes that land after a crash has been recovered from; a write still on its way at a crash is lost.
- The submission check's parts on event triggers, error policies and input mappings, which can only reject more.
- Heap.Push: works on the values of the slice, not in place; aliasing of slices is not modelled.
- Dispatcher.TaskDispatcher.PushTask: one call at a time with stale loads as inputs; the interleavings of the global counter are in SlotProtocol, those of one workflow's counter in CounterRace.
- Two snapshots of one workflow at the same moment, which the read lock around the collection would allow.
- RejectWorkflow, which hands a fake failure to the failure handler and so releases a slot that is not held.
- The relation between the keys of one task: a retry writes a new key, and the claims about CAS mode are about each key by itself.
- FieldScanner.TaskNameIsReadBackIff: about well-formed UTF-8 text; the serializer replaces invalid bytes.
- EventBacklog.WorkflowWatchers.DispatchEvent: a send on a channel that is closed while a worker blocks on it, which panics, is not modelled; such an event stays in hand until it is parked.
