# Verified models of the transaction protocols

This project models the protocol cores of the repository in Dafny and proves what
they are for. Each module names the source file it models; the shared modules are
`Collections` (optional values, the order of `std::pair`, least elements, sizes of sets), `Words`
(64-bit words) and `Digraphs` (paths, components, acyclicity).

- **Detock ordering.** `SCCFinder` is Tarjan's algorithm as a class that mutates its
  context, `TopologicalSort` is Kahn's queue loop, `GraphWorker` builds and orders
  the condensation. `DependencyLogs` turns the shards' logs into dependency edges,
  `StableGraphs` keeps the graph of the ordering thread and cuts out what can no
  longer change. `DetockPipeline` puts the four kinds of thread together as a step
  system over their queues and proves confluence: whatever the interleaving of the
  shards' logs, the points at which a pass cuts, the iteration order of hash
  containers and the schedule of the workers, two runs execute path-connected
  transactions in the same order. `DetockProgress` says what gets executed: once
  everything has been parsed and ordered, exactly the transactions whose direct and
  indirect dependencies are listed by all their shards. `DetockExecutor` is the executor
  object; every method is one turn of a thread's loop and is proved to take the
  corresponding step.
- **The lock-free queue.** `FreeList` and `DequeueCounters` interleave the atomic
  operations of any number of threads, under sequential consistency, with the
  32-bit and 64-bit words of the program; `FreeListCalls` says what a whole call of
  the free list achieves. `BlockIndex` is the circular block index
  with its in-place entries, which larger rings share with the smaller ones they
  replace, proved against the plain list of blocks.
- **Replication.** `DetockLog` is the leader-based log over a network that keeps,
  repeats and reorders messages, and `DetockLogReplicas` says what one replica makes of
  the messages it gets. `NezhaHoldRelease`, `NezhaHashes` and `NezhaLogSync` are
  deadline hold-and-release, the incremental XOR hashes, and log synchronisation;
  `NezhaFollower` joins the first two as a follower's threads do, and `NezhaHashRuns`
  says what the queues hold after any entries.
- **Coordination and scheduling.** `TigaCoordinator` is the quorum and reconciliation
  loop of the Tiga coordinator, `TigaQuorums` says what its quorums are for, and
  `CalvinScheduler` is the epoch scheduler.
- **The YCSB state machine.** `YCSBRows` is its text handling, `YCSBStateMachine` the
  locks, speculation and rollback, `YCSBOperations` the meaning of each operation.

Six properties hold only under a condition, which is proved exactly.

- The leader's hold buffer keeps the release order with a new request exactly when the
  request fits (`HoldBuffer.Hold`, `BumpOrders`): always as long as none of its keys has
  been released at the deadline 2^64 - 1, above which the bump wraps to zero. After such a
  release, any request for the key that ends up below that deadline spoils the order
  (`WrapBreaksOrder`), and a leader can get there (`WrapIsReachable`).
- Detock's log can commit a batch exactly if the group has three or more replicas,
  because the leader never votes (`CommitsIffThree`).
- The dequeue protocol keeps headIndex behind tailIndex as long as no consumer checks a
  value that is more than 2^63 above tailIndex (`Near`). The bound is the largest that
  does: a run that goes one beyond it makes headIndex pass (`BeyondTheBound`).
- `IncrementField` is a field update exactly when the field's name has no `:` or `|`
  (`IncrementIsUpdate`).
- Rolling back a speculative execution restores the undo table exactly when no key of the
  transaction had an entry before (`RollbackLeavesNoTrace`).
- The Calvin scheduler leaves nothing due in its map exactly as long as no epoch arrives
  after its turn (`FreshIffNoneLate`): one that does, a repeated one for instance, stays
  in front of the map and blocks it (`StaleBlocks`, `RepeatedEpochBlocks`).

Assumptions the code makes of its surroundings appear as preconditions: a shard's log
is delivered in order and lists a transaction at most once, in the shards that it
involves (`DependencyLogs.WellFormed`); the queue between two threads is first in,
first out; every neighbour of a graph handed to `FindSCCs` is a key, which
`StableGraphs.PassKeeps` proves of every graph that is handed over; the entries a
follower hashes have increasing deadlines per key, which `NezhaFollower` proves of every
entry that the follower's buffer lets through.

## Model

| member | source | states |
|---|---|---|
| SCCFinder.FindSCCs | DetockService/SCCFinder.cc:32-45 | terminates and returns exactly the maximal strongly connected components: disjoint, covering every node, mutually reachable inside, none mergeable |
| SCCFinder.SCCContext.TarjanDFS | DetockService/SCCFinder.cc:3-30 | the recursive search leaves a state in which finished components are whole, the stack is ordered, and the low link is attained by a reachable stack vertex and bounds all edges back into the stack |
| SCCFinder.PoppedIsComponent | DetockService/SCCFinder.cc:19-29 | when low link and index agree, the stack above the node is a maximal component |
| SCCFinder.CloseKeeps | DetockService/SCCFinder.cc:19-29 | popping a component keeps the search invariant of the caller |
| SCCFinder.OpenKeeps | DetockService/SCCFinder.cc:8-17 | a node whose low link is smaller stays on the stack, anchored to an open ancestor |
| TopologicalSort.TopologicalSort | DetockService/SCCFinder.cc:62-97 | the output lists distinct keys, each after all its predecessors, and whatever is left out has a predecessor that is left out |
| TopologicalSort.CountInDegrees | DetockService/SCCFinder.cc:65-76 | the in-degree table counts exactly the keys that list a node |
| TopologicalSort.SortIsCompleteIffAcyclic | DetockService/SCCFinder.cc:84-96 | every node is output exactly when the graph has no cycle |
| GraphWorker.IsSCCConnected | DetockService/SCCFinder.cc:47-60 | true exactly when an edge leads from the first component into the second |
| GraphWorker.Condense | DetockService/DetockExecutor.cc:514-528 | the condensation has every component number as a key and exactly the connected pairs as edges |
| GraphWorker.CondensationIsAcyclic | DetockService/DetockExecutor.cc:530-531 | the condensation by maximal components has no cycle, so the sort returns every component |
| GraphWorker.OrderStableGraph | DetockService/DetockExecutor.cc:505-541 | the emitted keys are the graph's vertices once each, every path between components points forward, and each component is contiguous and ascending |
| StableGraphs.IntakeKeeps | DetockService/DetockExecutor.cc:392-417 | taking in an edge or a completed vertex keeps the kept graph equal to the recorded one without the emitted vertices |
| StableGraphs.StablePredecessor | DetockService/DetockExecutor.cc:433-473 | a recorded predecessor of a stable vertex is stable or was emitted before |
| StableGraphs.PassKeeps | DetockService/DetockExecutor.cc:418-494 | every batch ever handed out is closed under recorded predecessors, its neighbours are keys, and no vertex is in two batches |
| StableGraphs.ComponentInOneBatch | DetockService/DetockExecutor.cc:443-491 | a strongly connected component of the recorded graph is emitted whole, in one batch |
| StableGraphs.PathInsideBatch | DetockService/DetockExecutor.cc:453-474 | two vertices of a batch are connected in the batch exactly when they are in the recorded graph |
| DependencyLogs.ParseTxnKeeps | DetockService/DetockExecutor.cc:308-360 | parsing the next transaction of any shard keeps the stream timely: nothing about a vertex follows its completion, and all its dependencies precede it |
| DependencyLogs.CompletesIffListed | DetockService/DetockExecutor.cc:340-359 | once all logs are parsed, the completed transactions are exactly those that involve this shard and are listed by every shard they involve |
| DependencyLogs.SharedKeyIsConnected | DetockService/DetockExecutor.cc:320-337 | two transactions that use a common key in one shard's log are connected by a path |
| DetockPipeline.RunInv | DetockService/DetockExecutor.cc:299-590 | the invariant of all threads holds in every state of every run |
| DetockPipeline.ReadyInEveryRun | DetockService/DetockExecutor.cc:366-590 | in every run the state meets what each thread's turn needs, in particular every queued graph is closed |
| DetockPipeline.EmittedSeesAll | DetockService/DetockExecutor.cc:320-359 | by the time a vertex is emitted exactly its dependencies in the complete logs have been recorded |
| DetockPipeline.NextBatch | DetockService/DetockExecutor.cc:559-567 | the head of the worker queue polled in turn is the next batch |
| DetockPipeline.KnownAreExecuted | DetockService/DetockExecutor.cc:559-588 | a turn of the executing thread takes the polled batch, executes exactly its transactions whose request is known, after what was executed before, and skips exactly the others |
| DetockPipeline.ExecutionObeysPaths | DetockService/DetockExecutor.cc:299-587 | the executed sequence obeys all paths of the complete dependency graph, and transaction keys within a component |
| DetockPipeline.ExecutedOnce | DetockService/DetockExecutor.cc:552-588 | no transaction is executed twice |
| DetockPipeline.Confluence | DetockService/DetockExecutor.cc:299-587 | two runs over the same logs execute every two path-connected transactions in the same relative order |
| DetockPipeline.ConflictsAgree | DetockService/DetockExecutor.cc:299-587 | in particular every two transactions that use a common key in one shard's log |
| DetockProgress.PassEmitsSettled | DetockService/DetockExecutor.cc:418-494 | once everything has been parsed and taken, after one pass the transactions handed out are exactly those all of whose dependencies, direct and indirect, are listed by all their shards |
| DetockProgress.SkippedWasUnknown | DetockService/DetockExecutor.cc:568-573 | a transaction that has been skipped was in a batch whose turn came before its request |
| DetockProgress.SettledAreRun | DetockService/DetockExecutor.cc:299-590 | in any run, after such a pass and once the queues between the threads are empty, exactly those have been executed or, if their request is not here, skipped |
| DetockProgress.SettledAreExecuted | DetockService/DetockExecutor.cc:299-590 | so a transaction whose request is here whenever its batch is run has then been executed exactly if all its dependencies, direct and indirect, are listed by all their shards |
| DetockProgress.NothingIsLeft | DetockService/DetockExecutor.cc:299-590 | if no shard misses a transaction, every transaction of this server is then executed or skipped, and executed if its request is here in time |
| DetockExecutor.DetockExecutor.ParseSync | DetockService/DetockExecutor.cc:299-361 | a sync message is parsed as steps of the parsing thread; one of another view is ignored |
| DetockExecutor.DetockExecutor.ParseMeta | DetockService/DetockExecutor.cc:308-360 | one transaction is one step |
| DetockExecutor.DetockExecutor.TakeGraphInfo | DetockService/DetockExecutor.cc:392-417 | one message taken from the queue is one intake step |
| DetockExecutor.DetockExecutor.FindUnstable | DetockService/DetockExecutor.cc:430-448 | the breadth-first search finds exactly what an incomplete vertex reaches, and touches the graph only where it looks |
| DetockExecutor.DetockExecutor.OrderPass | DetockService/DetockExecutor.cc:418-494 | one pass is one ordering step: the stable graph goes to the next worker and is pruned |
| DetockExecutor.DetockExecutor.OrderGraph | DetockService/DetockExecutor.cc:502-547 | a worker orders the graph at the head of its queue |
| DetockExecutor.DetockExecutor.ExecuteBatch | DetockService/DetockExecutor.cc:559-588 | the executing thread runs the next batch: what it adds to the executed transactions are exactly those of the batch whose request is here |
| FreeList.RunInv | concurrentqueue.h:1686-1786 | in every interleaving each node's word is its flag plus the references counted in it, and each node is with a client, with one adder, listed, taken by one thread, or pending with a reference |
| FreeList.NoAba | concurrentqueue.h:1716-1731 | the list linked from the head has no repetition, and a successful compare-and-swap in try_get installs the node's current successor and finds its flag clear |
| FreeList.FlagIsClear | concurrentqueue.h:1690-1693 | add may set the flag by an addition: it is clear |
| FreeList.HandedOutOnce | concurrentqueue.h:1700-1747 | between two hand-outs of a node lies an add of it |
| FreeList.Conservation | concurrentqueue.h:1686-1786 | when all threads are idle every node is with a client or on the list exactly once, and no count has gone astray |
| FreeList.ReleaseLast | concurrentqueue.h:1739-1743 | the thread that gives up the last reference to a pending node becomes its only adder |
| FreeListCalls.TryGetTakesFirst | concurrentqueue.h:1700-1731 | a try_get that runs alone on a list that is not empty ends with its first node in the client's hands and the rest of the list, all else unchanged |
| FreeListCalls.TryGetEmpty | concurrentqueue.h:1701-1702 | on an empty list it answers null and changes nothing |
| FreeListCalls.AddPutsFirst | concurrentqueue.h:1686-1695 | an add that runs alone puts the client's node in front of the list |
| FreeListCalls.CallsAlone | concurrentqueue.h:1686-1786 | in every reachable state at rest the calls behave so |
| FreeListCalls.NullMeansEmpty | concurrentqueue.h:1700-1747 | among any other threads, try_get answers null only if the list was empty at some moment of the call |
| DequeueCounters.LessIsLess | concurrentqueue.h:609-621 | the comparison of words is exact for values less than 2^63 apart |
| DequeueCounters.LessIsBelow | concurrentqueue.h:609-621 | a word comparison that says less is right as long as the first value is at most 2^63 above the second |
| DequeueCounters.CheckKeeps | concurrentqueue.h:3075-3079 | a ticket that passes has enough failed tickets below it |
| DequeueCounters.HeadBehindTail | concurrentqueue.h:3063-3142 | headIndex never passes tailIndex nor falls 2^63 behind, and a consumer about to take an index takes one that exists, however many are past the check, and however stale what they loaded, up to 2^63 at the check |
| DequeueCounters.EachIndexOnce | concurrentqueue.h:3078-3081 | an index is taken by at most one dequeue, after it was produced |
| DequeueCounters.EachIndexTaken | concurrentqueue.h:3080-3081 | every index below headIndex was taken by some dequeue |
| DequeueCounters.QuiescentCounters | concurrentqueue.h:3136-3138 | with no dequeue in progress the optimistic count less the overcommit is headIndex |
| DequeueCounters.SoloDequeue | concurrentqueue.h:3063-3142 | a dequeue that runs alone succeeds exactly when the queue is not empty, and leaves an empty one as it was |
| DequeueCounters.RoomTest | concurrentqueue.h:2988-3000 | the producer's test at the end of a block is exact |
| DequeueCounters.EnqueuePublishes | concurrentqueue.h:2980-3060 | in every reachable state the producer publishes one more element, unless it stands at the end of a block and another block would put tailIndex 2^63 ahead of headIndex |
| DequeueCounters.NearWhileFew | concurrentqueue.h:3075-3079 | that bound holds while at most 2^63 tickets have been taken |
| DequeueCounters.BeyondTheBound | concurrentqueue.h:3063-3142 | a run within the bound leads to a check one beyond it, which passes and lets headIndex pass tailIndex |
| BlockIndex.ImplicitProducer.GetBlockIndexIndexForIndex | concurrentqueue.h:3567-3591 | looking up any element of a listed block finds the entry keyed by the block's base that holds the block, through the current ring or any replaced one the block was put into, from any slot of it that has a key |
| BlockIndex.LoadedNow | concurrentqueue.h:3570-3577 | the ring and the tail that a consumer loads meet the requirements of the lookup for every block listed at that time |
| BlockIndex.RoomMeans | concurrentqueue.h:3519-3526 | the next slot can be used exactly if the ring is not full or its oldest block is released |
| BlockIndex.PositionOf | concurrentqueue.h:3573-3585 | from any slot and any key found there, the signed, wrapped offset arithmetic yields the slot that is as many steps away as the keys are blocks apart |
| BlockIndex.FormerAligned | concurrentqueue.h:3520-3531 | when an entry that a replaced ring shares is given its next key, the keys of that smaller ring stay as many blocks apart as their slots |
| BlockIndex.RingInsert | concurrentqueue.h:3520-3531 | using the next slot appends the block, and overwrites at most a released oldest one |
| BlockIndex.RingRewind | concurrentqueue.h:3552-3558 | stepping the tail back undoes the insertion |
| BlockIndex.RingGrow | concurrentqueue.h:3593-3643 | the doubled ring stands for the same list |
| BlockIndex.AnchorGrow | concurrentqueue.h:3612-3634 | unrolling a full ring into one of twice its size keeps the keys in step with the slots |
| BlockIndex.ImplicitProducer.NewBlockIndex | concurrentqueue.h:3593-3643 | copies the ring in order, adds as many unused entries, leaves the next slot invalid, and keeps the replaced ring usable |
| BlockIndex.ImplicitProducer.InsertBlockIndexEntry | concurrentqueue.h:3510-3550 | succeeds exactly when there is a ring and the next slot is free or a larger ring can be had |
| BlockIndex.ImplicitProducer.StartBlock | concurrentqueue.h:3005-3046 | a block is added, or nothing is lost but a released oldest one; rings and keyed entries that a consumer has loaded stay good |
| BlockIndex.ImplicitProducer.ReleaseBlock | concurrentqueue.h:3082-3131 | a consumer that empties a block clears exactly its slot |
| DetockLog.RunInv | DetockService/DetockLogManager.cc:75-195 | the invariant holds in every run over a repeating, reordering network |
| DetockLog.LogsArePrefixes | DetockService/DetockLogManager.cc:75-132 | every replica's log is a prefix of the leader's, and it has committed no more than it has prepared nor than the leader |
| DetockLog.CommittedAgree | DetockService/DetockLogManager.cc:86-178 | any two replicas agree on what both have committed |
| DetockLog.CommitNeedsMajority | DetockService/DetockLogManager.cc:144-151 | when the leader has committed batch c a majority, not counting the leader, holds batches 1 to c |
| DetockLog.SmallGroupNeverCommits | DetockService/DetockLogManager.cc:180-195 | with one or two replicas nothing is ever committed |
| DetockLog.CommitsIffThree | DetockService/DetockLogManager.cc:134-195 | a group has a run in which its leader commits a batch exactly if it has three or more replicas |
| DetockLog.NeverShrinks | DetockService/DetockLogManager.cc:167-178 | logs and committed ids never shrink |
| DetockLogReplicas.FollowerSettles | DetockService/DetockLogManager.cc:75-132 | after any appends and commits of the leader, in any order and with repeats, a follower's log is the longest gap-free run of the batches sent, it keeps exactly the later ones, has replied for exactly those in the log, and has committed the log up to the largest commit |
| DetockLogReplicas.OrderDoesNotMatter | DetockService/DetockLogManager.cc:75-132 | two followers that have been sent the same messages are in the same state, whatever the order and the repeats |
| DetockLogReplicas.FollowerCommits | DetockService/DetockLogManager.cc:167-178 | a follower that has been sent the batches 1 to c and the commit of c has committed them |
| DetockLogReplicas.FollowerInRun | DetockService/DetockLogManager.cc:75-178 | every follower of every run is what it has received makes of it, and its replies are on the network |
| DetockLogReplicas.LeaderSettles | DetockService/DetockLogManager.cc:134-165 | after any replies the leader has committed the largest batch for which a majority of replicas has replied, each counted once, and has sent that commit and none without a majority |
| DetockLog.DetockLogManager.OnDetockPaxosAppend | DetockService/DetockLogManager.cc:75-109 | appends, keeps or ignores the batch, drains, and replies for exactly the batches prepared |
| DetockLog.DetockLogManager.ProcessPendingBatches | DetockService/DetockLogManager.cc:111-132 | the drain in place is the recursive one |
| DetockLog.DetockLogManager.OnDetockPaxosAppendReply | DetockService/DetockLogManager.cc:134-165 | counts a reply once per replica and commits at a quorum |
| DetockLog.DetockLogManager.OnDetockPaxosCommit | DetockService/DetockLogManager.cc:167-178 | raises the commit point, and what is committed as far as it is prepared |
| NezhaHoldRelease.HoldBuffer.Hold | NezhaService/NezhaReplica.cc:197-202 | the deadline is raised above all released for its keys, by no more than needed; the release order is kept exactly when the request fits, in particular when none of its keys was released at the largest deadline |
| NezhaHoldRelease.HoldBuffer.Release | NezhaService/NezhaReplica.cc:206-221 | at any clock reading, what is due, and nothing else, is released in rank order, and the order over all releases is kept; emptying the buffer keeps it only if what was held came after what had been released for its keys |
| NezhaHoldRelease.HoldBuffer.PassOrDrop | NezhaService/NezhaReplica.cc:335-351 | a follower lets a request through exactly when its deadline is above the last let through for each of its keys, so deadlines per key strictly increase |
| NezhaHoldRelease.BumpIsAbove | NezhaService/NezhaReplica.cc:198-201 | the raised deadline is above the last released ones exactly when none of those is the largest word |
| NezhaHoldRelease.BumpOrders | NezhaService/NezhaReplica.cc:198-201 | a request with the raised deadline comes after everything released for its keys exactly when it fits |
| NezhaHoldRelease.WrapBreaksOrder | NezhaService/NezhaReplica.cc:198-201 | in any released sequence, after a release at the largest deadline a request for the key that is raised to less spoils the order |
| NezhaHoldRelease.WrapIsReachable | NezhaService/NezhaReplica.cc:197-221 | holding and releasing requests with the deadlines 2^64 - 1 and 7 for one key releases them out of order |
| NezhaHashes.XorLaws | Common.h:148-154 | XOR of hashes is associative, commutative and its own inverse |
| NezhaHashes.FoldPermutation | Common.h:148-154 | the accumulated hash does not depend on the order of the entries |
| NezhaHashes.LeaderQueues.LeaderNormalExecute | NezhaService/NezhaReplica.cc:248-273 | the leader's hash for a key is that of all entries of the key so far |
| NezhaHashes.FollowerQueues.ProcessKey | NezhaService/NezhaReplica.cc:388-429 | the entry is queued, what is not above the sync point is popped, and the boundary asserted there exists |
| NezhaHashes.FollowerQueues.ProcessKeys | NezhaService/NezhaReplica.cc:384-430 | the loop stops at the first key whose sync point is not below the entry, after queueing it there |
| NezhaHashes.FollowerQueues.FollowerExecute | NezhaService/NezhaReplica.cc:381-456 | for each key with a boundary the hash is the synced one with those of exactly the entries still queued |
| NezhaHashes.AboveIsExact | NezhaService/NezhaReplica.cc:418-426 | what stays queued is exactly the entries above the sync point, in order |
| NezhaHashes.RefinedIsSyncedAndQueued | NezhaService/NezhaReplica.cc:444-455 | cutting at the boundary and adding the synced hash gives the hash of synced and queued entries |
| NezhaHashes.FastHashAgrees | NezhaService/NezhaReplica.cc:442-456 | a follower's hash for a key equals the leader's whenever both describe the same entries |
| NezhaHashes.ReplyHashAgrees | NezhaService/NezhaReplica.cc:289-293 | equal hashes per key give equal replies, in whatever order the keys are visited |
| NezhaHashRuns.LeaderHoldsAll | NezhaService/NezhaReplica.cc:248-273 | after any entries the leader's queue of a key holds the key's entries in order, and its last hash is that of all their own hashes |
| NezhaHashRuns.FollowerHoldsUnsynced | NezhaService/NezhaReplica.cc:384-430 | after any entries of a key a follower's queue holds, in order, exactly those that no sync point has overtaken |
| NezhaFollower.NextIsNew | NezhaService/NezhaReplica.cc:388-411 | the next entry of a follower's execution queue has a deadline above everything queued for each of its keys |
| NezhaFollower.Follower.Arrive | NezhaService/NezhaReplica.cc:335-351 | a request enters exactly if its deadline is above the last let through for each of its keys, and the next entry stays new, whatever has been processed |
| NezhaFollower.Follower.ProcessNext | NezhaService/NezhaReplica.cc:381-456 | the next entry can always be hashed: each key before the break gets the synced hash with those of the entries still queued |
| NezhaLogSync.LeaderLog.BroadcastInterReplicaSync | NezhaService/NezhaReplica.cc:490-518 | the messages sent are consecutive, non-empty slices of the log |
| NezhaLogSync.FollowerLog.ProcessInterReplicaSync | NezhaService/NezhaReplica.cc:568-624 | applies what follows on up to the first missing request, and keeps the log a prefix of the leader's |
| NezhaLogSync.FollowerLog.ProcessPendingInterReplicaSync | NezhaService/NezhaReplica.cc:551-566 | the drain ends, only when the first kept message is beyond a gap or names a missing request |
| NezhaLogSync.FollowerLog.OnInterReplicaSync | NezhaService/NezhaReplica.cc:529-549 | for any message in any order the log stays a prefix, and no message is lost while start positions identify messages |
| NezhaLogSync.SentAreUnique | NezhaService/NezhaReplica.cc:490-518 | start positions do identify the leader's messages |
| NezhaLogSync.CaughtUp | NezhaService/NezhaReplica.cc:529-624 | with all messages and all requests the follower has everything that was sent |
| TigaCoordinator.IsTxnCommitted | TigaEntity/TigaCoordinator.cc:800-886 | positive exactly when every target shard has its leader's reply and enough valid fast replies or synced replicas; the first shard that fails decides |
| TigaCoordinator.IsNonSerializable | TigaEntity/TigaCoordinator.cc:589-621 | true exactly when all leaders have answered with more than one deadline, of which it reports the largest |
| TigaCoordinator.IssueReconcliationRequest | TigaEntity/TigaCoordinator.cc:623-649 | erases exactly the replies of the leaders behind the agreed deadline, and asks those |
| TigaCoordinator.ReconciledKeeps | TigaEntity/TigaCoordinator.cc:642-647 | after reconciliation the leaders no longer contradict each other |
| TigaCoordinator.GlobalInfo.OnReply | TigaEntity/TigaCoordinator.cc:491-585 | a request finishes exactly when it has not, every shard has enough replies, and the leaders agree |
| TigaCoordinator.GlobalInfo.CheckQuorum | TigaEntity/TigaCoordinator.cc:687-743 | without a deadline check, finishes exactly the quorums with enough replies, and each of them has one deadline |
| TigaCoordinator.GlobalInfo.AddToQuorumSet | TigaEntity/TigaCoordinator.cc:746-798 | replies kept for a shard are always of the view recorded for it |
| TigaCoordinator.PassMayFinish | TigaEntity/TigaCoordinator.cc:540-575 | a quorum that is not contradictory and has enough replies has all leaders of the recorded views with one deadline |
| TigaCoordinator.FinishedMore | TigaEntity/TigaCoordinator.cc:735-743 | Finish is called exactly once per committed request |
| TigaQuorums.FastQuorumShows | TigaEntity/TigaCoordinator.cc:800-804 | in every slow quorum more than half of the replicas belong to a given fast quorum |
| TigaQuorums.FastQuorumIsSmall | TigaEntity/TigaCoordinator.cc:800-804 | a fast quorum of one replica less would do exactly in groups of an even number, from four on |
| TigaQuorums.SlowQuorumsMeet | TigaEntity/TigaCoordinator.cc:801 | any two slow quorums meet |
| TigaQuorums.SlowQuorumIsSmallest | TigaEntity/TigaCoordinator.cc:801 | which two sets of one replica less need not |
| TigaQuorums.PassedSurvives | TigaEntity/TigaCoordinator.cc:812-884 | of a shard that passes, in every majority of replicas more than half have replied what the leader did, or one is the leader or has synced the leader's entry |
| TigaQuorums.UnanimousPasses | TigaEntity/TigaCoordinator.cc:824-830 | a shard all of whose replicas have replied what the leader did passes |
| TigaQuorums.SyncedPasses | TigaEntity/TigaCoordinator.cc:856-878 | so does one without differing replies of which a majority, counting the leader, has synced the leader's entry |
| TigaQuorums.LeaderAloneIsShort | TigaEntity/TigaCoordinator.cc:875-878 | the leader's reply alone does not pass in a group of more than one |
| TigaQuorums.NewerViewStartsOver | TigaEntity/TigaCoordinator.cc:831-841 | a shard starts over exactly if its leader has replied and another hash has come from a replica known to be in a newer view |
| TigaQuorums.OnlyLaggardsErased | TigaEntity/TigaCoordinator.cc:623-649 | reconciliation erases exactly the replies of the target shards' leaders behind the agreed deadline |
| TigaQuorums.LatestAreKept | TigaEntity/TigaCoordinator.cc:746-798 | after any replies of one global view a quorum knows the newest view of each shard and keeps exactly the last reply of each replica in it |
| TigaQuorums.NewGlobalView | TigaEntity/TigaCoordinator.cc:776-784 | a reply of a newer global view leaves no other reply |
| YCSBRows.IncrementField | StateMachine/YCSBStateMachine.cc:27-58 | the parsing loop, the number check and the reprinting |
| YCSBRows.IncrementIsUpdate | StateMachine/YCSBStateMachine.cc:27-58 | the new row parses to the old fields with only this one replaced, exactly when its name has no separator |
| YCSBRows.IncrementsAdd | StateMachine/YCSBStateMachine.cc:27-58 | n increments add n to the field and change no other |
| YCSBRows.MissingBecomesOne | StateMachine/YCSBStateMachine.cc:41-52 | incrementing a missing field gives it the value 1 and changes no other |
| YCSBRows.FailsIffNoNumber | StateMachine/YCSBStateMachine.cc:43-51 | an increment fails exactly if the field is there and is no number |
| YCSBRows.NumberGrammar | StateMachine/YCSBStateMachine.cc:43-51 | a text is a number exactly if it is spaces, a sign or none, and digits, with a value that fits 64 bits |
| YCSBRows.ParsePrint | StateMachine/YCSBStateMachine.cc:30-56 | printing and parsing fields loses nothing |
| YCSBRows.RowReads | StateMachine/YCSBStateMachine.cc:30-39 | in any row a field has the value given in the last piece, ended by a bar, that gives it one |
| YCSBRows.NumberRoundTrip | StateMachine/YCSBStateMachine.cc:43-52 | a printed number reads back |
| YCSBRows.OwnerRoundTrip | StateMachine/YCSBStateMachine.cc:7-21 | an owner and a row sent by a client read back |
| YCSBRows.OwnerGrammar | StateMachine/YCSBStateMachine.cc:7-21 | the owner in a request is the number it starts with, negated modulo 2^64 after a minus sign, and none if it does not fit |
| YCSBRows.NoNumeralNoOwner | StateMachine/YCSBStateMachine.cc:16-20 | a request that starts with no number has no owner |
| YCSBStateMachine.MappedInjective | StateMachine/YCSBStateMachine.cc:74-77 | different keys of a shard have different records |
| YCSBStateMachine.MappedInTable | StateMachine/YCSBStateMachine.cc:74-77 | a key's record is in the table exactly when the key is below a bound |
| YCSBStateMachine.LocalKeysInTable | StateMachine/YCSBStateMachine.cc:74-77 | which every key of the shard below YCSB_MAX_KEY_NUM is |
| YCSBStateMachine.LocalKeysApart | StateMachine/YCSBStateMachine.cc:74-77 | disjoint sets of keys of a shard have disjoint sets of records, all in the table, as the speculation result needs |
| YCSBStateMachine.LocalKeysDistinct | StateMachine/YCSBStateMachine.cc:74-77 | distinct keys of a shard have distinct records, as the lock result needs |
| YCSBOperations.ReadReturns | StateMachine/YCSBStateMachine.cc:107-108 | a read puts out the row, locked or not, and changes nothing |
| YCSBOperations.WriteStores | StateMachine/YCSBStateMachine.cc:109-119 | an update or insert stores the text in a free record and puts it out; of a locked record it changes nothing and puts out nothing for the key |
| YCSBOperations.ReadAfterWrite | StateMachine/YCSBStateMachine.cc:107-119 | a read right after puts out the text written |
| YCSBOperations.ConflictIffLocked | StateMachine/YCSBStateMachine.cc:111-115 | a write or an increment reports a conflict exactly if one of its records is locked |
| YCSBOperations.LockGranted | StateMachine/YCSBStateMachine.cc:134-142 | a lock is granted exactly to a named owner who finds the record free or his own; the row stays, and is put out only if granted |
| YCSBOperations.WriteUnlockStores | StateMachine/YCSBStateMachine.cc:143-152 | the owner's unlocking write stores the row and frees the record; anyone else's is refused and changes nothing |
| YCSBOperations.UnlockFrees | StateMachine/YCSBStateMachine.cc:164-169 | the owner's unlock frees the record and keeps the row; anyone else's changes nothing |
| YCSBOperations.IncrementAddsOne | StateMachine/YCSBStateMachine.cc:153-163 | an increment of a free record raises the field by one, leaves the other fields, and puts out the new row |
| YCSBOperations.IncrementRefused | StateMachine/YCSBStateMachine.cc:154-161 | of a locked record, or of a field that is no number, it changes nothing |
| YCSBOperations.SwapMoves | StateMachine/YCSBStateMachine.cc:120-133 | a swap gives a key's record the text of the key before it, cyclically, locked or not |
| YCSBOperations.OthersKept | StateMachine/YCSBStateMachine.cc:98-171 | no transaction touches the record of a key it does not have |
| YCSBOperations.CommitIsExecution | StateMachine/YCSBStateMachine.cc:174-197 | speculation, anything on other keys, commit: rows, locks and output as after plain execution, and no undo entry for its keys |
| YCSBStateMachine.LockedThroughout | StateMachine/YCSBStateMachine.cc:98-170 | no transaction of others, YCSB_SWAP excepted, changes a locked record |
| YCSBStateMachine.DecomposedIsAtomic | StateMachine/YCSBStateMachine.cc:134-153 | between a granted LOCK_READ and its WRITE_UNLOCK the rows read stay, all writes succeed, nothing else is touched |
| YCSBStateMachine.DecomposedRotates | StateMachine/YCSBStateMachine.cc:134-153 | lock and read on any number of shards, any transactions of others, then write back rotated what was read: each record gets the row that the record of the key before it has at the write, is free again, and no other record is touched |
| YCSBStateMachine.DecomposedSwap | StateMachine/YCSBStateMachine.cc:121-153 | one YCSB_SWAP of the rows the records have at the write leaves the same rows on every shard |
| YCSBStateMachine.RollbackLeavesNoTrace | StateMachine/YCSBStateMachine.cc:174-216 | speculation, anything on other keys, rollback: rows and locks as without the transaction, and the undo table exactly when its keys had no entry |
| YCSBStateMachine.ExecuteApart | StateMachine/YCSBStateMachine.cc:98-171 | a transaction on other keys does the same and answers the same in both runs |
| YCSBStateMachine.YCSBStateMachine.ApplyOp | StateMachine/YCSBStateMachine.cc:109-169 | each operation on one record |
| YCSBStateMachine.YCSBStateMachine.Execute | StateMachine/YCSBStateMachine.cc:98-171 | the loop over the keys is the fold over them |
| YCSBStateMachine.YCSBStateMachine.SpecExecute | StateMachine/YCSBStateMachine.cc:174-185 | saves all records, then executes |
| YCSBStateMachine.YCSBStateMachine.CommitExecute | StateMachine/YCSBStateMachine.cc:187-197 | drops the undo entries |
| YCSBStateMachine.YCSBStateMachine.RollbackExecute | StateMachine/YCSBStateMachine.cc:199-216 | restores what is saved and drops it |
| CalvinScheduler.ExecutedInOrder | CalvinService/CalvinScheduler.cc:12-60 | whatever is delivered, the executed epochs are in canonical order without gaps |
| CalvinScheduler.DeliverSettles | CalvinService/CalvinScheduler.cc:12-60 | each epoch delivered once in any order: exactly the longest gap-free run is executed and exactly the rest is pending |
| CalvinScheduler.OrderDoesNotMatter | CalvinService/CalvinScheduler.cc:12-60 | two replicas given the same epochs in different orders reach the same state |
| CalvinScheduler.AdvanceIsNext | CalvinService/CalvinScheduler.cc:96-101 | the next key is the next in the order of sequence numbers and shards |
| CalvinScheduler.FreshIffNoneLate | CalvinService/CalvinScheduler.cc:12-60 | after any deliveries nothing due is left pending exactly if no epoch arrived after its turn |
| CalvinScheduler.StaleBlocks | CalvinService/CalvinScheduler.cc:49-60 | an epoch that arrives after its turn blocks the map: nothing that has to wait is ever executed again |
| CalvinScheduler.RepeatedEpochBlocks | CalvinService/CalvinScheduler.cc:27-46 | one epoch delivered twice is enough |
| CalvinScheduler.CalvinScheduler.OnEpochRequest | CalvinService/CalvinScheduler.cc:12-47 | the handler in place is the delivery of an epoch |
| CalvinScheduler.CalvinScheduler.ProcessEpoch | CalvinService/CalvinScheduler.cc:62-104 | executes an epoch and advances the next key |

## Left out

- Turns of Detock's threads are atomic steps: the threads share nothing but queues.
- Detock's sequence numbers, graph numbers and indices are unbounded; the 32-bit graph number wraps harmlessly because eight divides 2^32.
- Cross-shard serializability of Detock: every shard drops transactions that do not involve it, so only the order at one server is stated.
- Log ids, view numbers and sequence numbers of the replication and scheduling code are unbounded where the program has 32 bits.
- View changes, memory lifetime, RPC, logging, statistics, and the starting and stopping of threads.
- C++ memory orders: the lock-free parts are modelled under sequential consistency, and their indices keep true values of which only the comparisons see words.
- DequeueCounters.RunInv: for runs in which no value checked against tailIndex is more than 2^63 above it, as `NearWhileFew` shows for the first 2^63 tickets; `BeyondTheBound` shows that the program relies on the same.
- FreeList.RunInv: for fewer than 2^30 threads, so that the counts fit their 31 bits.
- The bulk operations and the explicit producer of the queue, its hash of producers, and exceptions thrown by element constructors.
- BlockIndex.ImplicitProducer.GetBlockIndexIndexForIndex: the ring and the tail may have been loaded in earlier states, but each of those lies between two operations of the producer.
- BlockIndex.ImplicitProducer.NewBlockIndex: an allocation of more than 2^59 entries, which exceeds the address space, is taken to fail.
- SHA-1 and clocks: an entry's own hash is an arbitrary value, a clock reading an arbitrary input; equal hashes are claimed of equal entries only, not the converse.
- NezhaHashes.FollowerQueues.FollowerExecute: the synced item is an arbitrary input, because the entry built at NezhaService/NezhaReplica.cc:585 never gets its keys and so does not update it.
- TigaQuorums.PassedSurvives: says which replicas have synced up to the leader's entry, as the coordinator has heard; what a synced replica holds is decided in code that is not part of this model.
- The assertion on views in the mismatched-hash branch of isTxnCommitted (TigaEntity/TigaCoordinator.cc:842); the branch itself is modelled.
- TigaCoordinator.GlobalInfo.OnReply: the target shards of a request are a value kept with its quorum, so a coordinator object that changes them while the request is open is not modelled; probes and counters are left out.
- YCSBRows.Incremented: the increment of the largest 64-bit number is undefined in C++ and wraps here.
- The assertions on transaction ids in CommitExecute and RollbackExecute of the YCSB state machine are the caller's obligation.
- PreRead and InitializeRelatedShards of the YCSB state machine, the micro-benchmark and TPC-C state machines, PaxosReplica, CalvinSequencer and the Nezha bridge: they repeat what is modelled here or rest on code that is not part of this model.
- What the state machine makes of an epoch's transactions: it is deterministic, so replicas that execute the same epochs in the same order agree.
