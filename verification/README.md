# pgmesh in Dafny

pgmesh routes logical shard keys through virtual shards to physical PostgreSQL replica sets. It coalesces asynchronous
COPY submissions, repeats writes on mirrors, and generates typed stores from annotated SQL. This project models its
stateful and algorithmic parts and proves what they promise.

`dafny verify dfyconfig.toml` verifies the whole project.

## How it is organised

**COPY batching.** `CopyProtocol` is the batcher as a state machine. Its steps are the critical sections of the Go code
and the moments at which a worker, a timer or a flush becomes visible: submission, timer, return of a COPY, finishing
one part, resolving one future, leaving, and the three steps of a flush. Every interleaving of them is a run.
`CopyInvariant` says what every reachable state satisfies; `CopyScheduling`, `CopyAdmission` and `CopySteps` prove that
every step keeps it, `CopyDispatch` which batches go out as one COPY, and `CopyReasons` that the reason each batch was
closed for survives every merge. `CopyTheorems`, `CopyOrder` and `CopyDrain` hold the results: conservation of rows,
exact results, flush barriers, the scheduler guarantee, admission order, late timers, and termination. `CopyBatcher` is
the mutable code itself, classes `Future`, `CopyRequest` and `Batcher`, each critical section a method proved equal to
its step.

**The store above it.** `StoreProtocol` and `StoreTheorems` put one batcher on each shard behind the store lock;
`StoreAdmission` says what a call adds to the shards, `StoreDrain` that the store comes to rest. `Grouping` and
`AsyncGrouping` split the rows of a call by replica set, `GroupedLookup` scatters keys and restores input order, and
`MeshLookup` puts it on a built mesh.

**The mesh below it.** `MeshConfig` is the validator, `Mesh` the builder and router, `OpenMesh` the composition of both,
`MeshRouting` where keys go on an opened mesh, `WriteMirrors` and `MirrorWiring` what a write on an opened mesh calls,
`ReadPath` where its reads go. `Hashing` and `RoundRobin` are the machine arithmetic.

**The generator.** `SqlScanner`, `SqlConcatenation`, `SqlInvisible` and `SqlRelations` are the SQL scanner,
`ShardWrapper` the rewriting of parameters into a routed wrapper, `GeneratedNames` the searches for free names and
`RouteAnnotation` the annotation parser. `Arithmetic`, `Basics` and `Text` are shared helpers.

## Findings

Four promises turned out to need a condition. In each case the code is modelled as it is and the condition is exact.

- An opened mesh honours the mirror list of every mapping if and only if all mappings of one main replica set that have
  virtual shards repeat its first list (`MirrorWiring.OwnMirrorsIffRepeated`). The validator compares lists joined with
  NUL, so a name that contains NUL can hide a different list: `MirrorWiring.NulInNameHidesMirrors` gives an accepted
  configuration no mesh honours. With NUL-free names there is none (`MirrorWiring.NulFreeNamesRepeat`).
- Round robin gives every target its share in every window, also across the wrap-around of the 64-bit counter, if and
  only if the number of targets divides 2^64 (`RoundRobin.FairIffDivides`, `RoundRobin.UnfairWindow`). Below the
  wrap-around it always does.
- Scanning two texts line after line gives the tokens of both, for every second text, if and only if the first leaves no
  comment, literal or quoted name open (`SqlConcatenation.ConcatIffClosed`); a lone quote is a text that does
  (`SqlConcatenation.OpenLiteralSwallows`).
- Every parameter record can be written as a value of the routed wrapper if and only if no routed column is a SQL
  parameter twice (`ShardWrapper.ExpressibleIffNoneShared`); `ShardWrapper.SharedColumnLosesAValue` is a query where one
  is. Repeated columns that are not routed do no harm. The wrapper's expressions have the types of their parameters if and
  only if the parameters of each routed column have one type (`ShardWrapper.TypedIffTypesAgree`);
  `ShardWrapper.SharedColumnMistypes` is an accepted query where they have two.

## Model

| member | source | states |
|---|---|---|
| `CopyProtocol.NormalizedConfig` | copy_batch_config.go:35-56 | A configuration is rejected exactly when a setting is negative; otherwise given limits are kept and a missing concurrency limit is 32. |
| `CopyScheduling.MergeKeepsCore` | copy_batch.go:254-266 | Merging the first two queued batches keeps every clause of the invariant. |
| `CopyScheduling.ScheduleKeepsCore` | copy_batch.go:277-290 | Filling the free slots keeps the invariant, never exceeds the limit, and leaves a batch waiting only when no slot is free. |
| `CopyDispatch.MergeHeadTakes` | copy_batch.go:248-268 | A COPY takes the first batch alone unless its timer closed it, and otherwise every timed-out batch that follows without a gap, up to the row limit if there is one. |
| `CopyDispatch.ScheduleIsGreedy` | copy_batch.go:277-290 | Scheduling starts workers on consecutive stretches from the head of the queue, each as long as it may be, until the queue is empty or every worker is busy. |
| `CopyAdmission.AppendChunkKeeps` | copy_batch.go:177-194 | One turn of the append loop moves a non-empty prefix of the rows into the active batch, counts one part, and leaves an active batch with room. |
| `CopyAdmission.AppendRowsKeeps` | copy_batch.go:172-195 | The whole append loop ends and leaves every row of the request in the batches, in order. |
| `CopyAdmission.SubmitKeepsCore` | copy_batch.go:136-150 | Admission of a request, coalesced or not, keeps the invariant. |
| `CopySteps.FinishPartKeepsCore` | copy_batch.go:39-51 | Losing one part keeps every request's counter equal to the batches it still waits for, and records exactly the failed ones. |
| `CopySteps.ResolveKeepsCore` | copy_batch.go:52-58 | Resolving a future after its last part keeps the invariant. |
| `CopySteps.LeaveKeepsCore` | copy_batch.go:331-337 | A worker that removes its requests from `pending`, frees its slot and schedules again keeps the invariant. |
| `CopySteps.TimerKeepsCore` | copy_batch.go:212-226 | A timer keeps the invariant whether its batch is still active or not. |
| `CopySteps.FlushStartsKeepsInv` | copy_batch.go:345-353 | Closing the active batch and capturing the pending requests keeps the invariant, with a flush that awaits only requests admitted before it. |
| `CopySteps.EventKeepsInv` | copy_batch.go:124-365 | Every step of every kind keeps the invariant, and never removes a request or changes a resolved one. |
| `CopyTheorems.RunKeepsInv` | copy_batch.go:124-365 | The same over every finite run. |
| `CopyReasons.EventKeepsReasons` | copy_batch.go:212-268 | Every step keeps the record of why each batch was closed, and every closed batch's reason is the recorded one of all batches merged into it. |
| `CopyReasons.RunKeepsReasons` | copy_batch.go:212-268 | The same over every finite run. |
| `CopyReasons.RecordsTheCause` | copy_batch.go:212-239 | A flush records the active batch as closed manually, its own timer as closed by linger, and neither records anything else. |
| `CopyReasons.ClosedOnlyForCause` | copy_batch.go:156-239 | A batch stops accepting rows only when a coalesced submission fills it, its own timer fires or a flush asks for it; an unbatched submission closes only its own batch. |
| `CopyTheorems.EveryRowInOnePlace` | copy_batch.go:124-340 | In every reachable state the dispatched, queued and active batches together hold exactly the rows each request submitted, in order; a batch sends exactly the rows of its parts. |
| `CopyTheorems.RowsConserved` | copy_batch.go:124-340 | The batches hold as many rows as were submitted. |
| `CopyTheorems.ResultIsExact` | copy_batch.go:39-58 | A resolved future holds the full row count and no error if and only if every COPY carrying rows of its request returned the exact count of its batch; otherwise zero and exactly the errors those COPYs reported: each failure cause as often as it was returned, and a mismatch for each wrong count. By then every such COPY has returned. |
| `CopyTheorems.PartsAreCounted` | copy_batch.go:33-58 | The part counter equals the number of unfinished batches that list the request, in every reachable state; an unresolved request is pending; a counter of zero means resolved, or being resolved by exactly one worker. |
| `CopyTheorems.ResolvedOnce` | copy_batch.go:52-57 | No worker resolves a future twice and no step changes a resolved one. |
| `CopyTheorems.FlushIsABarrier` | copy_batch.go:345-365 | A flush closes the active batch; when it returns, all requests admitted before it are resolved, it awaited no later one, and it reports exactly the errors of the requests pending at the barrier that failed, in the order it awaited them. |
| `CopyTheorems.NoLostWakeUp` | copy_batch.go:277-290 | The in-flight counter is the number of live workers and at most the limit; a non-empty queue means every slot is taken. |
| `CopyTheorems.BatchShape` | copy_batch.go:172-268 | Coalesced batches respect a positive row limit and full ones meet it exactly; every batch opened that went into a merge was closed by its timer, so one closed full, by a flush or unbatched goes out alone; an unbatched one carries exactly one whole request, and no batch lists a request twice. |
| `CopyOrder.CoalescedInAdmissionOrder` | copy_batch.go:172-268 | Across all batches the rows of coalesced submissions stand in admission order, however batches are split and merged. |
| `CopyOrder.LateTimerIsHarmless` | copy_batch.go:212-239 | Once a batch has left `active` it never returns, and its own timer changes nothing whenever it fires. |
| `CopyOrder.EveryBatchInOnePlace` | copy_batch.go:197-275 | Every batch ever opened is in exactly one of active, queue and dispatched, and an active one has a timer that closes it. |
| `CopyOrder.FirstClosedFirstServed` | copy_batch.go:241-290 | Over every run batches go out in the order in which they were closed; none overtakes another in the queue. |
| `CopyDrain.DrainingDecreases` | copy_batch.go:212-365 | Every step that needs no caller lowers a natural-number measure. |
| `CopyDrain.NeverStuck` | copy_batch.go:212-365 | Until nothing is pending, active, queued or in flight, a step is possible that needs no caller and no timer but that of the active batch. |
| `CopyDrain.EveryRunDrains` | copy_batch.go:212-365 | Left alone, every run is bounded by the measure, and one in which no worker, flush or armed timer can go on has resolved every future and returned every flush; stopped timers need not fire. |
| `CopyDrain.CanDrain` | copy_batch.go:212-365 | From every state such a run exists. |
| `CopyBatcher.Future.Resolve` | future.go:27-33 | The first resolution wins; later ones change nothing. |
| `CopyBatcher.Future.Await` | future.go:55-69 | A resolved future yields its value, also to a canceled waiter; an unresolved one yields an error only to a canceled waiter. |
| `CopyBatcher.CopyRequest.AddPart` | copy_batch.go:33-37 | Counts one part and changes nothing else. |
| `CopyBatcher.CopyRequest.LosePart` | copy_batch.go:39-51 | Records the error, uncounts the part and says whether it was the last one. |
| `CopyBatcher.Batcher.CloseActiveLocked` | copy_batch.go:228-246 | The in-place code equals the step of the state machine. |
| `CopyBatcher.Batcher.OpenBatchLocked` | copy_batch.go:197-210 | Likewise. |
| `CopyBatcher.Batcher.AppendRequestLocked` | copy_batch.go:172-195 | The loop over the active batch ends and equals the recursive definition. |
| `CopyBatcher.Batcher.DequeueLocked` | copy_batch.go:248-268 | Takes the longest stretch from the head of the queue that may go out as one COPY, with its rows and requests in order, and leaves the rest. |
| `CopyBatcher.Batcher.ScheduleLocked` | copy_batch.go:277-290 | The scheduling loop equals the definition. |
| `CopyBatcher.Batcher.EnqueueUnbatchedLocked` | copy_batch.go:156-170 | The in-place code equals the step. |
| `CopyBatcher.Batcher.SubmitRows` | copy_batch.go:124-154 | An empty or canceled submission changes nothing and is answered at once; any other is one submission step and keeps the invariant. |
| `CopyBatcher.Batcher.FlushExpiredBatch` | copy_batch.go:212-226 | One timer step, and the invariant holds after it. |
| `CopyBatcher.Batcher.CopyReturned` | copy_batch.go:298-308 | One step: the count is compared with the batch. |
| `CopyBatcher.Batcher.FinishNextPart` | copy_batch.go:325-329 | One step for one request of the batch. |
| `CopyBatcher.Batcher.ResolveNext` | copy_batch.go:52-58 | One step, the future's first resolution. |
| `CopyBatcher.Batcher.CompleteBatch` | copy_batch.go:331-339 | One step: the worker leaves. |
| `CopyBatcher.Batcher.FlushAsync` | copy_batch.go:345-355 | One step: the captured futures are exactly the pending ones, in any order. |
| `CopyBatcher.Batcher.FlushAwaitNext` | copy_batch.go:358-362 | One step: the next captured future. |
| `CopyBatcher.Batcher.FlushReturn` | copy_batch.go:363 | One step: the flush returns the errors it met. |
| `StoreTheorems.StoreEventKeepsInv` | examples/internal/sharded/zz_generated_store_accounts.go:319-394 | Every step of calls, flushes and shards keeps the store invariant. |
| `StoreTheorems.StoreRunKeepsInv` | examples/internal/sharded/zz_generated_store_accounts.go:319-394 | The same over every finite run. |
| `StoreTheorems.ShardsStay` | examples/internal/sharded/zz_generated_store.go:197-223 | A store keeps exactly the batchers it was made with. |
| `StoreAdmission.EveryRequestIsOnePart` | examples/internal/sharded/zz_generated_store_accounts.go:339-348 | In every reachable state each request of each shard is one group of one call, and of no other. |
| `StoreAdmission.RunGrows` | examples/internal/sharded/zz_generated_store_accounts.go:339-348 | While a call holds the lock, whatever else happens, each shard is given exactly the groups submitted so far. |
| `StoreAdmission.AdmissionIsAllOrNothing` | examples/internal/sharded/zz_generated_store_accounts.go:319-348 | A call that is not accepted changes nothing; when an accepted one releases the lock, each shard it names has been given its group, once, and every other shard nothing. |
| `StoreTheorems.AdmissionNeverFails` | examples/internal/sharded/zz_generated_store_accounts.go:339-348 | Once accepted, a call can always take its next admission step. |
| `StoreTheorems.CallYieldsAllRows` | examples/internal/sharded/zz_generated_store_accounts.go:350-365 | A resolved call has no error if and only if every shard's part succeeded, and then counts all its rows; otherwise it counts zero and its error names exactly the failed shards, in group order, each with its own errors. |
| `StoreTheorems.StoreFlushIsABarrier` | examples/internal/sharded/zz_generated_store_accounts.go:370-394 | When a store flush returns nil, or returns without having found its context canceled, every part of every call admitted before it is resolved; without cancellation it returns nil if and only if every shard's flush did; no part of a later call is ever waited for. |
| `StoreTheorems.StoreFlushNamesShards` | examples/internal/sharded/zz_generated_store_accounts.go:383-393 | A returned store flush names exactly the shards whose flush failed, in increasing order, each with its own errors; after a canceled wait that holds of the shards awaited, with one more error about the shard it gave up on. |
| `StoreTheorems.StoreFlushGivesUp` | examples/internal/sharded/zz_generated_store_accounts.go:384-391 | A wait ends the flush if and only if the context is canceled and the shard's flush failed or had not returned; the last error is a canceled wait exactly when it had not. |
| `StoreDrain.StoreDrainingDecreases` | examples/internal/sharded/zz_generated_store_accounts.go:339-394 | Every step that needs no new call or flush lowers a natural-number measure. |
| `StoreDrain.StoreNeverStuck` | examples/internal/sharded/zz_generated_store_accounts.go:339-394 | Until everything is done, such a step is possible, without stopped timers or cancellation. |
| `StoreDrain.EveryStoreRunDrains` | examples/internal/sharded/zz_generated_store_accounts.go:339-394 | Left alone, every run of the store is bounded, and one that cannot go on has resolved every admitted call and returned every flush. |
| `Grouping.CollectByName` | examples/internal/sharded/zz_generated_store_accounts.go:199-216 | Each collected group is the in-order subsequence routed to its replica set; an error names the first item without a route. |
| `Grouping.GroupItems` | examples/internal/sharded/zz_generated_store_accounts.go:199-223 | The groups are those of the replica sets that get something, in replica-set order. |
| `Grouping.RoutesToAReplicaSet` | mesh.go:16-36 | What a built mesh routes goes to a replica set it lists, under a name no other has. |
| `Grouping.TotalIsCovered` | examples/internal/sharded/zz_generated_store_accounts.go:218-223 | Rebuilding groups from a list of different names keeps exactly the items routed to listed names. |
| `Grouping.GroupsPartition` | examples/internal/sharded/zz_generated_store_accounts.go:199-223 | On a built mesh the groups partition the input: in-order subsequences, no two for one replica set, every item in one, sizes adding up, in the order of the replica sets. |
| `Grouping.RoutedInOrder` | examples/internal/sharded/zz_generated_store_accounts.go:199-216 | A group holds exactly the items with its route, each once, in input order. |
| `Grouping.CopyGroups` | examples/internal/sharded/zz_generated_store_accounts.go:190-273 | For every order of completion: the first unroutable item, else a transaction over several shards, else exactly the failing shards, else the sum of the counts. |
| `Grouping.CountsAdd` | examples/internal/sharded/zz_generated_store_accounts.go:269-271 | The reported count is the sum of the counts. |
| `Grouping.CopiesEverything` | examples/internal/sharded/zz_generated_store_accounts.go:257-273 | On a built mesh, if every COPY stores what it is given, a grouped COPY reports the number of items, unless it is a transaction over several shards. |
| `AsyncGrouping.CallCanArrive` | examples/internal/sharded/zz_generated_store_accounts.go:291-318 | On a built mesh every non-empty routable call arrives with non-empty groups for different shards that hold all its rows, each at the batcher of the replica set its rows are routed to. |
| `AsyncGrouping.CallIsAccepted` | examples/internal/sharded/zz_generated_store_accounts.go:319-332 | On a store made for a built mesh every routable call with a live context is accepted. |
| `AsyncGrouping.CallCountsItsInput` | examples/internal/sharded/zz_generated_store_accounts.go:276-367 | In every run a resolved call without errors reports as many rows as it was given. |
| `GroupedLookup.CollectKeys` | examples/internal/sharded/zz_generated_store_accounts.go:458-491 | The pairs to look up are the distinct (replica set, key) pairs in first-occurrence order, grouped by replica set; nil items and routing errors stop at the first. |
| `GroupedLookup.KeysInOrder` | examples/internal/sharded/zz_generated_store_accounts.go:458-498 | A replica set is asked for the keys of exactly its own pairs, in order. |
| `GroupedLookup.SortRows` | examples/internal/sharded/zz_generated_store_accounts.go:558-578 | Rows are sorted by key in their order; success means no row is nil and every row was asked for. |
| `GroupedLookup.RowsInOrder` | examples/internal/sharded/zz_generated_store_accounts.go:555-579 | The rows kept for a key are exactly those with that key, each once, in the order they came back. |
| `GroupedLookup.AskShards` | examples/internal/sharded/zz_generated_store_accounts.go:493-587 | Outcome of the queries for given pairs, whatever the order of completion. |
| `GroupedLookup.Lookup` | examples/internal/sharded/zz_generated_store_accounts.go:444-588 | Exactly one outcome for every request: which failure, with the replica sets it names in order and no rows, or the rows restored to pair order. |
| `GroupedLookup.RefinesOneByOne` | examples/internal/sharded/zz_generated_store_accounts.go:458-588 | If the physical query filters by key, the grouped lookup equals one query for each distinct pair, concatenated in first-occurrence order. |
| `GroupedLookup.NoRowLostOrDuplicated` | examples/internal/sharded/zz_generated_store_accounts.go:558-587 | On success every row comes out exactly as often as the shards returned it. |
| `MeshLookup.LookupOnMesh` | examples/internal/sharded/zz_generated_store_accounts.go:444-588 | On a built mesh all of this holds for every request: an item error exactly when an item is nil or its key hashes out of range, every returned row as often as it came back, and one-key lookups in first-occurrence order when queries filter by key. |
| `MeshConfig.ValidateSpecs` | topology.go:202-219 | Accepts exactly the well-formed lists of replica sets; an error names a fault of the whole configuration. |
| `MeshConfig.ValidateMirrors` | topology.go:227-239 | Accepts exactly mirror lists of known, other, different replica sets. |
| `MeshConfig.MarkIndexes` | topology.go:246-254 | Accepts exactly indexes in range that no mapping listed before, and marks those. |
| `MeshConfig.ValidateMapping` | topology.go:223-255 | Accepts the next mapping exactly when the mappings so far are consistent. |
| `MeshConfig.ValidateMeshConfig` | topology.go:184-262 | Accepts exactly the valid configurations; every error names a fault that is there. |
| `WriteMirrors.WithMirrors` | examples/internal/sharded/zz_generated_store_write.go:28-39 | The copy writes to its own targets and then to all targets of the given writers, in order; missing writers are skipped. |
| `WriteMirrors.ReachedConcat` | examples/internal/sharded/zz_generated_store_write.go:28-39 | Attached writers reach what each of them reaches, its own database and then its mirrors, in order. |
| `WriteMirrors.WithTx` | examples/internal/sharded/zz_generated_store_write.go:23-25 | In a transaction only the transaction is written to. |
| `WriteMirrors.Mirror` | examples/internal/sharded/zz_generated_store_write.go:41-51 | Mirrors are called in order up to the first error that is not no-rows. |
| `WriteMirrors.Write` | examples/internal/sharded/zz_generated_store_write.go:54-65 | The call trace is a prefix of primary and mirrors, cut only where the primary does not succeed or at the first mirror error other than no-rows, which is reported; the result is kept if and only if the primary succeeded. |
| `Mesh.NewReadTargets` | replica_set.go:29-44 | The read targets are the replicas in order, or the primary if there are none. |
| `Mesh.ReplicaSet.SelectRead` | replica_set.go:98-100 | The next read target in turn; only the counter changes. |
| `Mesh.ReplicaSet.WithWriteMirrors` | replica_set.go:122-131 | A new replica set with the mirrors appended that shares the read counter; the receiver is unchanged. |
| `Mesh.ReplicaSet.SelectWrite` | replica_set.go:102-108 | The target writes to the primary and then wherever the configured mirrors write. |
| `Mesh.Resolve` | mesh.go:16-30 | Routing yields the virtual shard of the hash with its replica set, and fails exactly when the hash is out of range. |
| `Mesh.NamesAreUnique` | mesh.go:32-36 | The replica sets of a built mesh have pairwise different names and are exactly the mapped ones. |
| `Mesh.MeshBuilder.MapVirtualShard` | builder.go:65-86 | The first failure sticks and freezes the builder; otherwise exactly one slot is filled. |
| `Mesh.CollectShards` | builder.go:102-122 | Accepts exactly complete and consistently named slots, and lists each replica set once, where it first occurs. |
| `Mesh.MeshBuilder.Build` | builder.go:91-130 | Succeeds exactly when no step failed and the topology is complete and consistently named; the replica sets are the stable first-occurrence list of the virtual shards. An error names the first failed step or a fault of the topology. |
| `OpenMesh.OpenReplicas` | topology.go:147-154 | Opens nodes in order and stops at the first that fails. |
| `OpenMesh.OpenNodes` | topology.go:141-156 | Opens every primary and replica once, in option order, and registers each replica set with its own nodes. |
| `OpenMesh.NodesHaveTheirDSNs` | topology.go:141-156 | A replica set's primary and replicas are the nodes opened with its own primary and replica connection strings. |
| `OpenMesh.Configure` | topology.go:158-169 | Every main replica set keeps its own primary and replicas and is wired with the primary writers of the mirrors its first mapping lists. |
| `OpenMesh.MapAll` | topology.go:176-180 | Every index of every mapping is placed; no builder step fails. |
| `OpenMesh.PlacedIsBuildable` | builder.go:102-122 | A completely placed valid configuration passes every check of the builder. |
| `OpenMesh.OpenMesh` | topology.go:116-182 | Nothing is opened for an invalid configuration, and the error names its fault; a valid one whose nodes and telemetry open always builds, and each virtual shard routes to the main replica set of the one mapping that lists it, with that set's own primary and replicas. |
| `MeshRouting.ResolvesToMain` | mesh.go:16-30 | On an opened mesh a hash resolves to the virtual shard of that number and to the main replica set of the mapping that lists it, with its own nodes. |
| `MeshRouting.RouteIffMapped` | mesh.go:16-30 | A key is routed to a replica set if and only if a mapping of that set lists its hash, and nowhere if and only if its hash is out of range. |
| `MeshRouting.ModuloReachesMain` | hasher.go:34-43 | With the modulo hasher a key of any integer type reaches the main replica set of the mapping that lists its remainder. |
| `MirrorWiring.WriteOnShard` | replica_set.go:102-131 | On an opened mesh a write calls the main primary and then the listed mirrors' primaries in order, never a mirror's mirrors, and in a transaction only the transaction. |
| `ReadPath.ReadOnShard` | replica_set.go:98-100 | Each read on a wired replica set goes to the next of its own read nodes, across the wrap-around too, and to the primary exactly when it has no replicas. |
| `ReadPath.ReadsRotate` | replica_set.go:24-51 | On an opened mesh, any run of reads of a virtual shard below the wrap-around stays on the replicas of its own main replica set, or on its primary if it has none, and each of these nodes serves the floor or ceiling of its share. |
| `ReadPath.ReadNodesAreOwn` | topology.go:141-156 | No node serves the reads of two replica sets, and a primary serves reads exactly for its own set when that has no replicas. |
| `MirrorWiring.OwnMirrorsIffRepeated` | topology.go:158-169 | Every mapping's own mirror list is honoured if and only if each main replica set's mappings repeat its first list. |
| `MirrorWiring.JoinInjective` | topology.go:240 | Joining with NUL is injective on lists of non-empty NUL-free names. |
| `MirrorWiring.NulFreeNamesRepeat` | topology.go:240-244 | With NUL-free names every opened mesh honours every list. |
| `MirrorWiring.NulInNameHidesMirrors` | topology.go:240-244 | A valid configuration with a NUL in a name whose second mapping asks for other mirrors than the first; no mesh opened with it honours both lists. |
| `Hashing.Magnitude` | hasher.go:36 | The magnitude of every negative key of every width, the minimum included, with wrapping arithmetic written out. |
| `Hashing.ModuloHash` | hasher.go:34-43 | Euclidean modulo for every key of every signed and unsigned width. |
| `Hashing.ModuloAlwaysRoutes` | mesh.go:16-30 | With as many slots as virtual shards routing never fails, and equal residues go to one replica set. |
| `RoundRobin.Balancer.NextItem` | load_balancer.go:17-20 | Takes the target of the old counter and advances the counter modulo 2^64. |
| `RoundRobin.FairBelowTheWrap` | load_balancer.go:17-20 | A window that does not cross 2^64 serves every target the floor or ceiling of its share. |
| `RoundRobin.UnfairWindow` | load_balancer.go:17-20 | If the number of targets does not divide 2^64, the window across the wrap-around serves the first target twice. |
| `RoundRobin.FairIffDivides` | load_balancer.go:17-20 | Every window is fair if and only if the number of targets divides 2^64. |
| `SqlScanner.SkipLineComment` | sqlcplugin/sql_relations.go:122-127 | Stops exactly at the end of the line. |
| `SqlScanner.SkipBlockComment` | sqlcplugin/sql_relations.go:129-144 | Covers exactly the rest of the comment at its nesting depth. |
| `SqlScanner.SkipSingleQuoted` | sqlcplugin/sql_relations.go:146-159 | Covers exactly the rest of the literal, doubled quotes included. |
| `SqlScanner.ReadQuotedIdentifier` | sqlcplugin/sql_relations.go:161-177 | Returns the name with doubled quotes undone and where it ends. |
| `SqlScanner.SkipDollarQuoted` | sqlcplugin/sql_relations.go:179-192 | Finds the first closing delimiter, or the end of the text, or that there is no delimiter. |
| `SqlScanner.Tokenize` | sqlcplugin/sql_relations.go:71-120 | Ends on every text with exactly its tokens. |
| `SqlConcatenation.StepExtends` | sqlcplugin/sql_relations.go:71-192 | A finished construct is read the same whatever follows on the next line. |
| `SqlConcatenation.ConcatIffClosed` | sqlcplugin/sql_relations.go:71-192 | Tokens of two texts joined by a newline are the tokens of both, for every second text, if and only if the first leaves nothing open. |
| `SqlConcatenation.OpenLiteralSwallows` | sqlcplugin/sql_relations.go:146-159 | A lone quote leaves a literal open, and the next line is lost. |
| `SqlInvisible.NestedComment` | sqlcplugin/sql_relations.go:129-144 | Inside a comment a whole comment is skipped and the depth is what it was. |
| `SqlInvisible.NestedText` | sqlcplugin/sql_relations.go:129-144 | A comment put into a comment is again the text of a comment. |
| `SqlInvisible.BodyCloses` | sqlcplugin/sql_relations.go:129-144 | Plain runs and nested comments, printed to any depth, with a closing marker close exactly one level. |
| `SqlInvisible.CommentTextIffBody` | sqlcplugin/sql_relations.go:129-144 | The texts the scanner takes for a block comment are exactly those of the grammar of plain runs and nested comments. |
| `SqlInvisible.CommentIsInvisible` | sqlcplugin/sql_relations.go:79-80 | A block comment leaves no token, whatever is nested in it. |
| `SqlInvisible.LineCommentIsInvisible` | sqlcplugin/sql_relations.go:77-78 | A line comment leaves no token. |
| `SqlInvisible.DollarIsInvisible` | sqlcplugin/sql_relations.go:179-192 | A dollar-quoted literal leaves no token. |
| `SqlRelations.LiteralIsInvisible` | sqlcplugin/sql_relations.go:146-159 | A string literal of any text, its quotes doubled, leaves no token. |
| `SqlRelations.QuotedNameReadsBack` | sqlcplugin/sql_relations.go:161-177 | A quoted name of any text, its quotes doubled, is one token with exactly that text. |
| `SqlRelations.QueryRelationIdentifiers` | sqlcplugin/sql_relations.go:15-69 | The relations found are those each keyword introduces, in order. |
| `SqlRelations.NameReadsBack` | sqlcplugin/sql_relations.go:15-69 | A keyword in any case, any number of modifiers, and a name of one to three parts read back as exactly those parts: quoted ones with every character, doubled quotes included, unquoted ones in lower case. The last part is the name, the one before it the schema, the first of three the catalog. |
| `SqlRelations.NameReadsBackAfter` | sqlcplugin/sql_relations.go:15-69 | The same after any text that leaves nothing open. |
| `SqlRelations.SubqueryIntroducesNothing` | sqlcplugin/sql_relations.go:15-69 | A keyword in front of a parenthesis introduces nothing; the relations are those of the rest. |
| `ShardWrapper.ResolveOperands` | sqlcplugin/query.go:1257-1289 | Succeeds exactly when every annotated column resolves and the Go names differ; each operand is its column's first SQL parameter, for the column of a grouped lookup the parameter with the keys, else the model field. |
| `ShardWrapper.OperandSources` | sqlcplugin/query.go:1257-1279 | Field by field, what a column resolves to: its first SQL parameter, else for the column a grouped lookup asks by the parameter with the keys, else the model field. |
| `ShardWrapper.FieldNamesDiffer` | sqlcplugin/query.go:1280-1287 | The fields of the shard key have different names. |
| `ShardWrapper.WrapParams` | sqlcplugin/query.go:1607-1673 | Succeeds exactly when the wrapper's fields have different names; unrouted parameters become fields and every parameter gets its expression. |
| `ShardWrapper.WrapShardParameters` | sqlcplugin/query.go:1576-1694 | The wrapper for each of the four shapes of query argument. |
| `ShardWrapper.RoundTrip` | sqlcplugin/emission.go:501-527 | Packing any parameter and routing values and unpacking them for the query gives all parameters back; routing-only values stay in the shard key. |
| `ShardWrapper.ExpressibleIffNoneShared` | sqlcplugin/query.go:1611-1629 | Every parameter record is expressible if and only if no routed column is a parameter twice. |
| `ShardWrapper.SharedColumnLosesAValue` | sqlcplugin/query.go:1611-1629 | An accepted query with two parameters of one routed column, and two values it can never receive. |
| `ShardWrapper.SharedColumnMistypes` | sqlcplugin/query.go:1611-1629 | An accepted query with two parameters of one routed column and different types: the expression of the second has the type of the first. |
| `ShardWrapper.TypedIffTypesAgree` | sqlcplugin/query.go:1611-1673 | Every expression names an existing field with the type of its parameter, if and only if the parameters of each routed column have one type. |
| `GeneratedNames.UniqueGeneratedName` | sqlcplugin/query.go:459-469 | The search ends, by pigeonhole on injective suffixes, with the preferred name or the first free numbered one. |
| `GeneratedNames.NamedResultsSignature` | sqlcplugin/query.go:416-457 | Result names are pairwise different and fresh; each is `err` for a final error, else `result`, numbered if there are more than two results, unless that is taken; the error name is that of a final error result. |
| `GeneratedNames.GroupFileName` | sqlcplugin/emission.go:159-168 | The prefixing loop ends with the shortest prefixed name whose lower-case key is free. |
| `GeneratedNames.DerivedKeepsExtension` | sqlcplugin/emission.go:138-142 | The section goes before the last dot of the last path element, or at the end if there is none. |
| `GeneratedNames.StoreGroupOutputFileNames` | sqlcplugin/emission.go:144-171 | File names differ from each other, from the output file and from the interfaces, read, write and sharded files even when case is ignored, each with the fewest prefixes that allow it. |
| `RouteAnnotation.ValidRouteIdentifier` | sqlcplugin/query.go:1149-1160 | True exactly for identifiers. |
| `RouteAnnotation.ParseOperands` | sqlcplugin/query.go:1118-1131 | Accepts exactly lists of valid, different operands; an error names one that is not. |
| `RouteAnnotation.ParseRoute` | sqlcplugin/query.go:1103-1133 | Accepts exactly the texts that denote a route and returns what they denote; an error names the fault. |
| `RouteAnnotation.ParseShardAnnotation` | sqlcplugin/query.go:1100-1133 | The same for a whole comment. |
| `RouteAnnotation.NormalizedText` | sqlcplugin/query.go:1183-1193 | Whatever the style of a comment and the white space in it, its text is what stands between the markers. |
| `RouteAnnotation.DenotesOne` | sqlcplugin/query.go:1100-1133 | A text denotes at most one route. |
| `RouteAnnotation.PrintedReadsBack` | sqlcplugin/query.go:1100-1133 | A printed route in a comment of any of the three styles, with any white space around it, parses to exactly that route. |

## Left out

- Telemetry, spans, observers, logging and durations: they do not affect protocol state.
- Real time and Go contexts: a timer is an event that may fire at any moment, cancellation a boolean at the points where the code looks at it.
- Database pools, SQL execution and generated query code: a query or COPY is a function or an arbitrary answer.
- The contents of error messages: joined errors are sequences of causes.
- Batches are values in the model of the batcher, so identity of a batch is its ticket number; the records of tickets, parts, COPY reports, closing reasons and canceled waits exist only to state properties and, apart from a timer looking for its own ticket, no step reads them to decide anything.
- The moment between the lock release and the start of a worker goroutine: a dispatched batch counts as running at once.
- CopyTheorems.ResultIsExact: says which errors a result holds and how often, not their order, which is that in which workers happen to finish.
- CopyBatcher.Future.Await: one look at the future; blocking until it is resolved is the repetition of that look.
- Grouping.CopyGroups: counts are unbounded integers, the source adds 64-bit ones.
- GroupedLookup.Lookup: keys are of a type with equality, so the checks for non-comparable keys have no counterpart; read, primary and transaction routes differ only in where the query runs; bad rows are reported by replica set, not one by one.
- Grouping.GroupItems: items of a COPY are not nil.
- ListAllAccounts and the single-shard queries: one call for each replica set without any regrouping.
- ShardWrapper.ResolveOperands: which model field a column resolves to is a parameter.
- The wrapper of a grouped lookup, which has its own field for the key: the theorems about wrappers are about the other queries.
- ShardWrapper.WrapShardParameters: expressions are values of a datatype, not printed text.
- RouteAnnotation.ParseShardAnnotation: letters and digits are parameters, of which only that they are neither white space nor punctuation is used.
- GeneratedNames.StoreGroupOutputFileNames: the conversion of a group name to snake case is a parameter, lower case is any character-wise mapping.
- SqlScanner.Tokenize: text is a sequence of characters, each standing for one byte.
- VirtualShardRange and the constant hasher: one loop and one constant.
- The text-emitting functions of the generator, type lookup tables and option decoding.
