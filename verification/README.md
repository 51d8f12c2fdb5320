# Verification of agilePool

agilePool is a goroutine pool: submitters hand tasks to sharded bounded channels with a chunked
overflow buffer behind them, workers scan the shards and batch from the buffer, a scaler starts
workers, a cleaner drops expired idle ones. This project models that machinery in Dafny and proves
what it promises over every interleaving, every sequence of container calls and every input.

## Layers

1. **The pool protocol** (`Protocol`, `Invariant`, `SubmitSteps`, `WorkerSteps`, `Steps`, `Safety`,
   `Capacity`, `Acceptance`, `QueueLaws`, `Rotation`, `LastActive`, `Drain`, `Rescue`, `ScalerExit`,
   `Ramp`, `RampUp`, `RampRace`, `IdleSteps`, `NewPool`). Any number of submit calls and worker goroutines, one scaler, the
   winning `Close` and the cleaner interleave. One `Action` is one atomic operation, one channel
   operation or one critical section; `Enabled` says when it can happen and `Apply` what it does, so a
   run is a sequence of actions (`Fires`, `After`) and a state is `Reachable` when some run from `Init`
   ends in it. Clock values, context cancellation, medians, the queue snapshot, panics and the member
   that an idle container pops are arguments of the actions and range over everything. The fields
   `stage`, `log`, `enqueued`, `owner` and `finished` record history; no action reads them.
2. **The mutable structures** (`TaskBuffer`, `TreapImpl`, `RingQueueImpl`, `SliceImpl`,
   `LinkedListImpl`, `MinHeapImpl`), as classes with the source's fields, each proved against a plain
   sequence or multiset. `TaskBufferSpec` is the meeting point: the buffer class refines
   `PushOutcome`, `TakeBatch` and `LeaveBatch`, and the protocol's steps use the same three functions.
   `IdleContract` and `Lockstep` compare the five containers with each other, and `IdleSteps` ties the
   protocol's idle workers to the same sequences and the same expiry filter.
3. **Arithmetic and planning** (`Shards`, `Scaling`, `ScalingLaws`, `Histogram`, `DepGraph`, `Planner`,
   `Session`). `Scaling.Demand` is also what the protocol's scaler step uses.

`Counting` holds general facts about counts and sums.

## Where the code and its words differ

- `readme.md:91` documents `WithWorkerNumCapacity` as the maximum number of running workers. The
  cold-start compare-and-swap (pool.go:324-329) does not take the lock under which the scaler re-checks
  capacity and adds (pool.go:647-659). `Capacity.CapacityPlusOneReachable` gives, for every
  configuration of the model, whose counters are unbounded, a run that reaches capacity + 1 (with the
  default capacity of `math.MaxInt64` the source's int64 counter would wrap there, after 2^63 pending
  submissions); `Capacity.OvershootExactly` says when a step does it;
  `Capacity.RunningBound` shows that it is never more; `Capacity.LockedBound` shows that the documented
  bound holds in every run where no other action separates the re-check from the add.
- The doubling loop of `resolveTaskQueueShards` (pool.go:237-240) doubles a 64-bit int. With the shift as a
  wrap-around doubling, `Shards.DoublingReaches` proves that some number of rounds reaches the wanted
  count if and only if that count is at most 2^62, and `Shards.DoublingRunsForever` shows the loop
  standing still at 2^62 + 1. `WithTaskQueueShards` lets such a request through.
- The pending brake (pool.go:618-624) is meant to stop a runaway worker count. A tick reads the running
  count, the pending count and the queue depth at three moments (pool.go:553, 560 and 600), so
  submissions in between can make it clip a zero-consume ramp although work is queued throughout:
  `RampRace.BrakeClips` gives such a reachable state. `Ramp.DecideGrows` says, for all readings, when the
  brake binds; for readings of one state with all workers busy it never does.

## Model

| member | source | states |
|---|---|---|
| Steps.StepKeepsInv | pool.go:311-398 | every enabled action of submitter, worker, scaler, closer or cleaner keeps the whole invariant: places of tasks, counters, ownership, shutdown |
| Steps.RunKeepsInv | pool.go:311-398 | the invariant survives every finite run |
| Steps.ReachableInv | pool.go:149-221 | the new pool satisfies the invariant, so every reachable state does, for every configuration that NewPool.Size yields |
| NewPool.Size | pool.go:165-177 | for every queue size of at least 1 and every shard request the sizing gives a valid configuration of the protocol, with the shard count that the options ask for and total capacity in [size, size + shards), or never returns, the latter exactly for a request above 2^62 |
| NewPool.SizedBackpressure | pool.go:168-176 | the backpressure bound in terms of the configured queue size |
| SubmitSteps.SubKeepsInv | pool.go:311-398 | every step of a submit call, with cold start, offer, overflow push, forward, blocking send and rejection, keeps the invariant |
| WorkerSteps.WorkKeepsInv | worker.go:28-138 | every step of a worker goroutine, from its scan to its park, keeps the invariant |
| Acceptance.EntryExactly | pool.go:456-471 | a call is dropped at entry exactly when its innermost value is a nil interface or a nil value of one of the package's own task types, and otherwise becomes a submission carrying it |
| Tasks.NilExactly | pool.go:456-471 | what counts as nil, by the innermost value |
| Acceptance.RejectedExactly | pool.go:311-398 | a step sends a submission away if and only if it reads the closed flag as set, finds no room in NONBLOCK mode, meets a shut buffer, or gives up a wait by cancellation or close |
| Acceptance.AcceptedExactly | pool.go:337-396 | a step takes a submission in if and only if its shard has room, at once or after waiting, or the open buffer is below 100000 tasks, and puts it at the end of that queue |
| Acceptance.RouteExactly | pool.go:349-377 | BLOCK mode turns to the overflow buffer exactly when the chosen shard is full, to a blocking wait exactly when the open buffer is at its limit, and forwards exactly after a push |
| Acceptance.ColdStartExactly | pool.go:323-329 | a submission reserves and starts a worker exactly when its swap finds none running, and goes on without exactly when a read finds one |
| Acceptance.CloseExactly | pool.go:708-716 | only the close moves the shutdown on, flag, buffer and channel in that order, the buffer under taskMu |
| Acceptance.WaitingCanLeave | pool.go:376-385 | a waiting submission can always be cancelled, and leaves by close exactly when the close is complete |
| Acceptance.BlockModeAccepts | pool.go:349-396 | in BLOCK mode, along every run without a close from an open reachable state, a submission that is not cancelled is never turned away |
| Acceptance.BlockModeNeverRejects | pool.go:349-396 | in particular, from a new pool, it never returns false |
| Acceptance.NonblockNeverBuffers | pool.go:337-347 | in NONBLOCK mode no submission ever waits and nothing ever enters the overflow buffer |
| QueueLaws.QueuesAreFifo | worker.go:84-104 | over every run, what workers received from a shard followed by what it holds is what it held followed by what was sent to it, and likewise for the overflow buffer with forwards and batches |
| QueueLaws.PoolIsFifo | task_buffer.go:60-134 | from a new pool: everything sent is what was received, then what is still there |
| QueueLaws.WorksInOrder | worker.go:47-65 | a worker works off its batch in order, advances only the task in front, records how its body ended, and scans again after the last |
| QueueLaws.CursorFollows | worker.go:84-104 | a worker that receives from a shard starts its next scan there |
| QueueLaws.GivesUpAfterWholeScan | worker.go:84-104 | along every run, a worker turns to the buffer or parks only after it has found every shard empty since its start or its last task |
| QueueLaws.ParksExactly | worker.go:56-74 | a worker decides to park exactly when, after that, it finds the buffer empty |
| Rotation.ChoicesAreCalls | pool.go:486-490 | the shards that submissions choose along a run are those of consecutive nextShard calls |
| Rotation.ChoicesRotate | pool.go:486-490 | among any n consecutive choices of a run each of the n shards comes exactly once |
| Rotation.WorkersRotate | pool.go:493-496 | the g-th started worker begins its scan at the shard of the g-th call |
| LastActive.WorkerBearsLastBegin | worker.go:34-65 | at every moment of every run a worker on duty bears the clock of the last action that began one of its tasks, or of its first action |
| LastActive.ParksWithLastBegin | worker.go:67-74 | and enters the idle container with that date |
| Safety.ExactlyOnePlace | pool.go:311-398 | in every reachable state a task is accepted exactly when it sits in some place, and it sits in one place only: one slot of one shard, the buffer, one worker's batch, or the finished log |
| Safety.DoubledOnlyUnderLock | task_buffer.go:60-81 | a buffered task that is also elsewhere is the buffer's head, and the submitter holding taskMu is between sending it and popping it |
| Safety.RunsOnce | worker.go:106-138 | a task's events are a prefix of Started, one execution, Completed, and complete if and only if the task is in the finished log or its worker has only its decrements left; an unaccepted task has none; Enqueued fired once if and only if submit returned true; no nil task exists |
| Safety.HistoryKept | worker.go:106-138 | no run erases an event, changes a body or shortens the finished log |
| Safety.OwnStepsOnly | pool.go:311-398 | only its own steps move a submit call |
| Safety.ReturnedForGood | pool.go:311-398 | the answer of a returned submit call never changes in any continuation, so with RunsOnce a rejected task never executes |
| Safety.WaitGroupCounts | pool.go:311-322 | the WaitGroup counter equals the submissions past Add and not past Done, pendingTasks those past their increment and not past their decrement; neither is negative |
| Safety.WaitMeansFinished | pool.go:722-731 | when the WaitGroup is at 0, every accepted task is finished with all three events, panics included, and every other submission has not yet added itself or was rejected |
| Safety.OneHolder | worker.go:67-74 | a worker object has at most one holder among goroutines, cold starters, the scaler and the idle container |
| Safety.IdleTimestampsFrozen | worker.go:34-40 | no action changes the last-active time of a worker that the idle container holds |
| Safety.StoppedIsDrained | pool.go:692-696 | when the scaler has exited, the pool is closed, all shards are empty, every buffered task has already been sent, and a worker holds at most a task that is already settled |
| Safety.ScalerExitIsFinal | pool.go:692-696 | after the scaler's exit, in every continuation: the pool stays drained and no submission that was not accepted before is ever accepted |
| ScalerExit.StopsExactly | pool.go:692-696 | an action makes the scaler exit if and only if it is its second exit reading and nothing is pending, and that reading follows exactly a first one that found the pool closed |
| ScalerExit.ExitWithin | pool.go:686-698 | in a closed pool with nothing pending every run of scaler actions is bounded, from sleep by 9 + 2 * capacity, whatever its decisions read |
| ScalerExit.ExitHasNext | pool.go:686-698 | and it has a next action until it has exited |
| ScalerExit.ClosedPoolStops | pool.go:700-720 | from every reachable state of a closed pool a finite run of submitter, worker and scaler actions ends with everything finished or answered and the scaler gone |
| ScalerExit.ExitReachable | pool.go:686-698 | for every configuration the exit is reachable |
| Capacity.RunningBound | pool.go:647-672 | runningWorkersNum equals the goroutines before their park decrement plus the slots reserved by cold starts and the scaler, and lies between 0 and capacity + 1 |
| Capacity.OvershootExactly | pool.go:647-659 | a step takes the count above capacity if and only if it is the scaler's add, the re-check had read 0 and granted the whole capacity, and a cold start has raised the count to 1 since |
| Capacity.LockedBound | pool.go:647-659 | with re-check and add as one step the count never exceeds capacity |
| Capacity.CapacityPlusOneReachable | pool.go:324-329 | for every configuration some run reaches capacity + 1, with unbounded counters |
| Capacity.BackpressureBound | pool.go:168-176 | accepted and unfinished tasks never exceed shards * perShardCap + maxChunkLen + 8 * (capacity + 1) |
| Drain.Drains | pool.go:686-698 | from every reachable state, closed or not, a finite run of submitter, worker and scaler steps alone ends with pendingTasks and WaitGroup at 0, every submit call returned and every accepted task finished |
| Drain.Progress | worker.go:42-75 | while work remains some such run lowers the measure of remaining work |
| Drain.QuietProgress | worker.go:42-75 | with all submitters waiting and no task held, scanning workers take a queued task or park, after which the scaler takes over |
| Drain.ScanFinds | worker.go:84-104 | a worker whose probes so far met empty shards reaches a queued task by finishing its scan and its batch |
| Drain.ScalerRescues | pool.go:575-577 | with every worker parked and tasks queued, the scaler's next ticks from wherever it stands start a worker that finds a task |
| Rescue.EveryScalerRunStarts | pool.go:551-698 | with every worker parked and work remaining, every run of 14 scaler actions starts a worker, for all medians, queue depths, eligibilities and idle picks |
| Rescue.ScalerHasNext | pool.go:686-698 | and the scaler always has an enabled action there |
| IdleSteps.CleanIsRemoveExpired | pool.go:498-513 | the cleaner's step is RemoveExpired on the dated idle workers |
| IdleSteps.PickIsPop | pool.go:661-672 | the scaler's pick takes one member out of the container, or finds it empty |
| IdleSteps.ParkIsAdd | pool.go:473-477 | a park adds the worker at the end with the date it bears |
| IdleSteps.EnvironmentIsFree | pool.go:551-673 | calls, cleanings, readings, idle picks, clocks and panics are unrestricted in every reachable state |
| IdleSteps.OthersLeaveIdle | worker.go:67-74 | no other action changes the container or a date in it |
| Ramp.BusyBacklog | pool.go:543-549 | when every running worker is on an unsettled task and no slot is reserved, running workers plus queued tasks are at most pendingTasks |
| Ramp.DecideGrows | pool.go:592-645 | every zero-consume decision with running workers, whatever happened between its readings: the demand is the braked growth plus the exit compensation within the room, and the brake binds if and only if the pending reading is below running plus min(queued, running, step, room) |
| Ramp.TickExactly | pool.go:629-659 | every decision carries exactly the demand of its readings into the re-check, the re-check grants exactly what fits, and the add reserves exactly that |
| Ramp.SnapshotGrows | pool.go:592-624 | when the readings come from one state with every worker busy, the brake does not bind |
| RampRace.BrakeClips | pool.go:618-620 | a reachable state, all workers busy and work queued throughout, in which a tick that read 2 running and 3 pending finds 6 queued, has growth 2 and asks for 1 worker |
| RampUp.Tick | pool.go:551-673 | from a state with every worker busy, an eligible zero-consume tick starts exactly min(queued, running, step, room) goroutines, or min(pending, capacity) when none runs, and changes nothing else |
| RampUp.WorkerTakes | worker.go:42-64 | a started worker's scan ends with a task of a shard or a batch of the buffer, while tasks are queued |
| RampUp.RampsUp | pool.go:592-673 | from every reachable state with every worker busy and the scaler asleep, such ticks and the scans of the started workers lead, with no task finishing, to nothing queued or to capacity with every worker busy |
| Scaling.ToSpawn | pool.go:551-645 | the branch-by-branch computation of a tick, early returns included, equals the closed form that the laws below speak about |
| ScalingLaws.TickBound | pool.go:625-659 | a tick starts at most max(0, min(pending, capacity) - running) + exitPerTick workers, none when min(pending, capacity) <= running, and at least min(pending, capacity) asked for when none runs |
| ScalingLaws.TargetExactly | pool.go:566-627 | with running workers, a backlog and a positive consume median the target reaches n if and only if n is within backlog and capacity and n * consumeMed is at most submitMed * running or at most (submitMed + backlog * d) * running, d the decay from 0.15 * bufDepth / consumeMed |
| ScalingLaws.ExitExactly | pool.go:631-637 | the exit compensation reaches n if and only if n * samplePeriod is at most exitMed * scalerPeriod |
| ScalingLaws.DemandExactly | pool.go:629-645 | the demand reaches n if and only if the target exceeds running and n is within the room and within the gap plus the exit compensation |
| ScalingLaws.GrantExactly | pool.go:647-657 | the re-check grants n if and only if n is within the demand and the room under the lock |
| ScalingLaws.DecayRange | pool.go:578-587 | the dynamic decay lies between the configured factor and 1 |
| ScalingLaws.TargetMono | pool.go:566-591 | with running workers and a positive consume median the target is monotone in submit median, pending count, buffer depth and decay factor and antitone in the consume median |
| ScalingLaws.RampStep | pool.go:592-645 | for all readings of a zero-consume tick with running workers: its growth, its demand, and exactly when the brake binds |
| Shards.MaskIsMod | pool.go:486-490 | masking with a power of two minus one is the remainder |
| Shards.RoundRobin | pool.go:486-490 | among any n consecutive nextShard calls exactly one picks a given shard, also across the wrap of the 64-bit cursor |
| Shards.CallShardIs | pool.go:486-490 | the i-th of consecutive calls selects shard (start + 1 + i) mod n, across the wrap |
| Shards.ProbeIs | worker.go:84-104 | the i-th probe of a scan looks at shard (cursor + i) mod n |
| Shards.ScanCovers | worker.go:84-104 | a scan from any cursor probes each shard exactly once |
| Shards.DoublingReaches | pool.go:237-240 | on 64-bit integers some number of doublings reaches the wanted count if and only if it is at most 2^62 |
| Shards.DoublingRunsForever | pool.go:237-240 | at 2^62 + 1 no number of doublings does |
| Shards.ResolveTaskQueueShards | pool.go:223-246 | for every request: the loop never ends if and only if the request is above 2^62; otherwise the shard count is the power of two that rounds the request up, cut to the queue size; an automatic request gives 1 below 1024 slots, and otherwise the processor count rounded up, at most 32 |
| Shards.TotalCapacity | pool.go:165-176 | the shards' total capacity lies in [size, size + shards) |
| TaskBuffer.ChunkedTaskBuffer.PushAndForward | task_buffer.go:60-81 | closed and full leave the buffer as it was; otherwise the task joins the tail and the head leaves if and only if the forward of that head succeeded |
| TaskBuffer.ChunkedTaskBuffer.PeekHead | task_buffer.go:85-114 | shows the oldest task and leaves the contents, recycling used-up chunks |
| TaskBuffer.ChunkedTaskBuffer.PopHead | task_buffer.go:158-167 | removes the oldest task, or answers nil on an empty buffer |
| TaskBuffer.ChunkedTaskBuffer.PushTail | task_buffer.go:136-155 | appends one task, over a fresh or recycled chunk where needed |
| TaskBuffer.ChunkedTaskBuffer.PopBatch | task_buffer.go:117-133 | fills the destination with the oldest tasks, as many as fit, and keeps the rest in order |
| TaskBuffer.ChunkedTaskBuffer.DropHead | task_buffer.go:85-114 | a used-up head chunk is all nil, is unlinked and joins the pool, outside the live list |
| TaskBuffer.ChunkedTaskBuffer.Close | task_buffer.go:50-54 | only the closed flag changes |
| TreapSpec.SplitInOrder | internal/idle/treap.go:39-53 | split neither loses nor reorders an element |
| TreapSpec.SplitCuts | internal/idle/treap.go:39-53 | on a time-sorted tree the left part holds the elements up to the key and the right part the later ones |
| TreapSpec.SplitHeap | internal/idle/treap.go:39-53 | split keeps heap order |
| TreapSpec.MergeInOrder | internal/idle/treap.go:55-70 | merge concatenates the in-order sequences |
| TreapSpec.MergeHeap | internal/idle/treap.go:55-70 | merge keeps heap order |
| TreapSpec.AddIsStableInsert | internal/idle/treap.go:88-98 | split, merge, merge around a new node inserts it after all equal keys and keeps the sequence sorted, for every priority |
| TreapSpec.PopFacts | internal/idle/treap.go:100-140 | removing the leftmost node takes the head of the sequence and keeps order, heap order and disjointness |
| TreapSpec.SplitIsKeepLive | internal/idle/treap.go:142-151 | the right part of a split at now - expiry is the filter of unexpired elements |
| TreapImpl.SplitNodes | internal/idle/treap.go:39-53 | the recursive pointer rewriting builds the split trees in place |
| TreapImpl.MergeNodes | internal/idle/treap.go:55-70 | the recursive pointer rewriting builds the merged tree in place |
| TreapImpl.Treap.Add | internal/idle/treap.go:88-98 | stable insertion by time for any priority and any recycled or fresh node |
| TreapImpl.Treap.Pop | internal/idle/treap.go:100-140 | the earliest element leaves, or the zero value comes back; the freed node is clean and pooled |
| TreapImpl.Treap.RemoveExpired | internal/idle/treap.go:142-151 | the contents become their unexpired elements, the count is the difference, and the removed nodes join the pool |
| TreapImpl.Treap.RemoveTree | internal/idle/treap.go:72-86 | every node of the subtree is cleared and pooled and size drops by their number |
| RingQueueImpl.RingQueue.Grow | internal/idle/ring_queue.go:28-44 | the buffer doubles, keeps the contents in order and has room |
| RingQueueImpl.RingQueue.Add | internal/idle/ring_queue.go:46-55 | appends, across wrap-around and growth |
| RingQueueImpl.RingQueue.Pop | internal/idle/ring_queue.go:57-74 | the oldest element leaves and its slot is zero |
| RingQueueImpl.RingQueue.Compact | internal/idle/ring_queue.go:76-102 | in-place compaction leaves the survivors at the first offsets and overwrites no element before it is read |
| RingQueueImpl.RingQueue.RemoveExpired | internal/idle/ring_queue.go:76-111 | the order-preserving filter, with every freed slot zero and tail = (head + length) mod capacity |
| SliceImpl.Slice.Add | internal/idle/slice.go:25-30 | appends, over the same or a new backing array |
| SliceImpl.Slice.Pop | internal/idle/slice.go:32-47 | the oldest element leaves |
| SliceImpl.Slice.RemoveExpired | internal/idle/slice.go:49-74 | the filter through an aliasing slice is the order-preserving filter, and the abandoned tail is zeroed |
| LinkedListImpl.LinkedList.Add | internal/idle/linkedlist.go:33-48 | appends a node at the tail with both links right |
| LinkedListImpl.LinkedList.Pop | internal/idle/linkedlist.go:50-69 | the oldest element leaves |
| LinkedListImpl.LinkedList.RemoveNode | internal/idle/linkedlist.go:87-101 | exactly the node at its position leaves the list, unlinked on both sides |
| LinkedListImpl.LinkedList.RemoveExpired | internal/idle/linkedlist.go:71-85 | one pass with removal is the order-preserving filter |
| MinHeapImpl.RootIsEarliest | internal/idle/heap.go:55-67 | in a heap no element is earlier than the root |
| MinHeapImpl.MinHeap.Add | internal/idle/heap.go:48-53 | the multiset gains the element and heap order holds |
| MinHeapImpl.MinHeap.Pop | internal/idle/heap.go:55-67 | an earliest element leaves and heap order holds |
| MinHeapImpl.MinHeap.RemoveExpired | internal/idle/heap.go:69-80 | the early stop loses nothing: every expired copy leaves and every other copy stays |
| IdleContract.KeepLivePurges | internal/idle/idle.go:33-44 | the filter by one expiry test drops exactly what the differently written test drops |
| IdleContract.PurgeAgrees | internal/idle/idle.go:33-44 | containers with equal multisets keep equal multisets and report equal counts |
| IdleContract.CallAgrees | internal/idle/heap.go:48-80 | one call keeps heap and treap equal in dates and shows equal dates and counts |
| IdleContract.HeapAndTreapAgree | internal/idle/treap.go:88-151 | over any calls from empty, and however the heap breaks ties, heap and treap show identical dates and counts |
| Lockstep.DriveFifo | internal/idle/idle.go:33-44 | over any calls list, slice and ring give identical replies and hold the same sequence |
| Lockstep.DriveOrdered | internal/idle/idle.go:33-44 | over any calls and priorities heap and treap objects show identical dates and counts |
| Lockstep.PurgeAll | internal/idle/idle.go:33-44 | from the same elements RemoveExpired leaves all five containers with the same elements and returns the same count |
| Histogram.Histogram.Add | histogram.go:27-47 | counts equal the multiplicities of the last min(adds, window) samples after every add |
| Histogram.Histogram.BucketIndex | histogram.go:71-79 | the first bucket that holds the value, the last one when none does |
| Histogram.Histogram.Median | histogram.go:51-69 | 0 for no samples; for any buckets the bucket of rank total / 2 among the samples' buckets; for tiling buckets and non-negative samples the bucket of the sample of that rank, the middle of a closed bucket and within half its width, the bottom of the open one, and 0 if and only if that sample is 0 |
| Histogram.FoundRank | histogram.go:56-67 | the first bucket whose cumulative count passes total / 2 is the median's bucket |
| Histogram.RankBucket | histogram.go:51-69 | for non-negative samples ranking the buckets and taking the bucket of the ranked sample agree |
| Histogram.TilesOrder | histogram.go:71-79 | over tiling buckets a non-negative sample lies in one bucket only and a larger one never in an earlier bucket |
| Histogram.DefaultBucketOf | histogram.go:82-113 | the bucket of every non-negative value in the default tables |
| Histogram.DefaultsTile | histogram.go:82-113 | the default tables cut the non-negative numbers into {0} and consecutive ranges |
| Planner.Plan | test/plan.go:30-89 | planning succeeds if and only if names are distinct, all needed plugins are registered and acyclic, and no requested segment needs itself or a later one; the order then has no repeats, dependencies first, the request as a subsequence with its arguments, and only needed additions with empty arguments; an error names a real obstacle |
| Planner.Index | test/plan.go:31-41 | the request indexed by name, or a name that comes twice |
| Planner.Visitor.Visit | test/plan.go:47-82 | a visit places the plugin after everything it needs, adds nothing else that was requested, and fails only with an obstacle below the visited root |
| Planner.Visitor.VisitDeps | test/plan.go:60-76 | all declared dependencies are placed, or the first obstacle is reported |
| Planner.ServedIsPlannable | test/plan.go:13-29 | a request that has such an order satisfies the condition |
| Planner.ExplainedIsUnplannable | test/plan.go:13-29 | a request with a reported obstacle does not |
| DepGraph.DependsBefore | test/plan.go:13-29 | with dependencies first, everything a plugin transitively needs comes before it |
| Session.Host.ExecSession | test/main.go:101-144 | Starts in plan order up to the first failure, Runs in plan order only if all Starts succeeded, one End for each successful Start in reverse order whatever fails, exit code 0 if and only if every call succeeded |
| Session.RunRequest | test/main.go:73-86 | exit code 2 if and only if the request has no plan, and then no plugin is called; otherwise every Run follows successful Runs of everything the plugin needs |
| Session.RunsFollowDeps | test/main.go:121-129 | each Run follows successful Runs of all transitive dependencies |
| Session.StartsFollowDeps | test/main.go:104-116 | among lifecycle plugins a dependency's successful Start comes first |
| Session.EndsBeforeDeps | test/main.go:134-142 | among lifecycle plugins a dependency's End comes later |
| Session.SuccessRanAll | test/main.go:101-144 | exit code 0 means the whole plan ran, requested segments in the request's order with their arguments |

## Left out

- Shards.ResolveTaskQueueShards: an endless loop is reported as Diverges where the doubling has reached its fixed point 0.
- RampUp.RampsUp: the run it gives lets each started worker scan before the next tick and reads the true queue depth at each decision; Ramp.DecideGrows covers all other readings of a single tick.
- SliceImpl.Slice.Add: growth doubles the backing array plus one; Go's append leaves the growth policy open, and no contract depends on it.
- MinHeapImpl.MinHeap.Add: container/heap belongs to Go's standard library; sift-up and sift-down are modelled as its documentation describes them.
- Drain.Drains: a task body is one step that ends, normally or by a panic; a body that blocks forever blocks its worker in the source as well.
- float64 rounding and int64 overflow: medians and targets are reals, counters are unbounded integers; only the shard cursors are 64-bit.
- Safety.WaitMeansFinished: the WaitGroup is a counter, so Go's rule about reusing a WaitGroup while Wait returns is outside the model.
- Locks are owners and critical sections; the spin lock, the mutexes and the memory model below them are not modelled.
- The three histograms' sampler and its counters: the medians are arbitrary non-negative arguments of the scaler's step, and the queue snapshot is an arbitrary number.
- The idle container inside the protocol is a sequence from which Pop may take any member, which covers all five containers.
- sync.Pool is a set that may yield any member or a fresh object; the pool of worker objects is never refilled by the source, so its Get is fresh.
- Chunk slots are a sequence field of the chunk object; the source's fixed array is embedded in the chunk in the same way.
- Hooks other than Enqueued, Started and Completed, hook registration, context tasks, SubmitBefore, retry and backoff, options, getters, the default pool, logging and stack traces: single-branch code or I/O.
- Session.RunRequest: splitting the command line into segments, the help output and signal handling are not modelled; a plugin is a function from the calls made so far to success or failure.
- NewRegistry's own checks: the planner is proved for every registry, with or without them.
- Other plugins, benchmarks, examples and plotting: scenario drivers.
