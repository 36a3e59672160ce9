# Sink: verified models of the data layer's hard core

Sink is a batching data layer: it coalesces calls, folds many writes on one record
into one conditional commit, retries on revision conflicts, runs Lua merges, and
forwards batches from a Gateway to Engines. This project models the parts of it whose
correctness is not local to one function, in Dafny, and proves what they promise.

`dafny verify dfyconfig.toml` checks the whole project. The files:

- **Memory pool** (`Pool.dfy`, `PoolOperations.dfy`, `PoolLedger.dfy`, `PoolObject.dfy`,
  `Scope.dfy`): the allocator with its normal region, its completion reserve and its
  waiter queue, as functions on the pool's state; what every operation conserves; the
  object whose methods compute those functions; and reference-counted scopes. The main
  theorems speak about every run of a pool with any number of scopes.
- **Write folding and execution** (`WriteFold.dfy`, `ConditionalWrites.dfy`,
  `WriteTries.dfy`, `WriteReports.dfy`, `WriteReturns.dfy`, `WriteExecution.dfy`,
  `WriteRounds.dfy`, `WriteRequest.dfy`): one record's puts and merges folded into a
  candidate; a backend shared with unseen writers, and the writes a record has seen; the
  whole execution of a wave of groups with attempts, chunks, budgets and retries; the
  splitting of groups into rounds; and the execution of all rounds of a request. The reference for all of it is `Replay`, which runs operations
  one after another on one record.
- **Batching** (`BatchSelection.dfy`, `Batcher.dfy`, `BatcherLoop.dfy`,
  `WriteCompletion.dfy`, `WriteBatch.dfy`, `MutationWaves.dfy`): the choice of the next
  batch, the run loop as a step system, the loop's own code and the execution of a write
  batch against those steps, early completion, and the wave planner.
- **Admission** (`Admission.dfy`): the wake-one admission queue, one method per critical
  section, and every interleaving of them.
- **Lua patterns and sort** (`LuaPattern.dfy`, `LuaMatch.dfy`, `LuaMatcher.dfy`,
  `LuaSort.dfy`): the backtracking matcher with its capture stack against a declarative
  match relation, and the in-place quicksort under any comparator.
- **Documents and numbers** (`JsonBridge.dfy`, `ResultBudget.dfy`, `JsonNumbers.dfy`):
  the BSON-to-Lua bridge, the budget walk over table graphs, and exact decimal reading.
- **Gateway** (`Rendezvous.dfy`, `Gateway.dfy`): affinity routing, splitting a batch and
  merging arbitrary Engine replies.
- `Options.dfy`: values that may be absent.

Conventions. Integers are unbounded except where a width matters (32-bit exponents,
64-bit integers). Records, addresses, endpoints and documents' origins are numbers.
What the environment decides (other writers, timeouts, cancelled contexts, memory that
runs out, lost replies, a dishonest comparator) is a nondeterministic choice in a method
or an arbitrary step of a run, so the theorems hold for every behaviour of it. A Lua
program is an arbitrary function of the operation and the current document, possibly a
different one at every attempt. One fact about the backend is assumed by the way it is
modelled: a revision determines the document it was given to.

## Model

| member | source | states |
|---|---|---|
| Capacity.GrantValid | internal/capacity/pool.go:200-235 | granting a queued waiter that fits keeps all accounting and queue invariants |
| Capacity.PassMaximal | internal/capacity/pool.go:200-235 | one pass over a phase is enough: no waiter of the phase that it leaves fits in the state it ends with |
| Capacity.PassFlag | internal/capacity/pool.go:200-235 | a pass reports a pending waiter exactly when one of its phase is left |
| Capacity.DispatchKeeps | internal/capacity/pool.go:200-235 | dispatch keeps the invariants, every waiter's request and every lease's owner, and only takes granted waiters from the queue |
| Capacity.DispatchMaximal | internal/capacity/pool.go:200-235 | after dispatch no response that is still queued fits |
| Capacity.DispatchPriority | internal/capacity/pool.go:200-235 | a request is granted only when no response is left waiting, and one that is left then does not fit |
| CapacityOperations.ReleaseAccounted | internal/capacity/pool.go:237-248 | releasing keeps the accounting; the reserve's borrower is cleared exactly when usage is back in the normal region, so the second test never decides alone |
| CapacityOperations.DispatchQuiescent | internal/capacity/pool.go:200-235 | dispatch restores the lock-free condition: no queued waiter could be granted |
| CapacityOperations.GrowBeginQuiescent | internal/capacity/pool.go:108-153 | the first section of Grow keeps the lock-free condition |
| CapacityOperations.DispatchNewest | internal/capacity/pool.go:136-153 | on a quiescent pool a Grow decides only about its own waiter and leaves all others as they were |
| CapacityOperations.GrowBeginExact | internal/capacity/pool.go:108-153 | the whole decision: rejected, unneeded, granted, parked or busy, each exactly when its condition holds, taking all the bytes or none |
| CapacityOperations.GrowResumeQuiescent | internal/capacity/pool.go:154-187 | after its wait a waiter leaves the pool quiescent, is never told that it lost its place, and is admitted only if it was granted |
| CapacityOperations.ShrinkQuiescent | internal/capacity/pool.go:250-259 | shrinking a lease loses no release: the pool is quiescent again |
| CapacityOperations.DroppedAll | internal/capacity/pool.go:261-280 | closing a lease closes the channel of each of its queued waiters once and changes no other waiter |
| CapacityOperations.CloseQuiescent | internal/capacity/pool.go:261-280 | closing a lease leaves the pool quiescent |
| CapacityOperations.NewOwnerQuiescent | internal/capacity/pool.go:86-89 | a new owner keeps the lock-free condition |
| CapacityOperations.NewLeaseQuiescent | internal/capacity/pool.go:91-94 | a new lease keeps the lock-free condition |
| CapacityOperations.MarkOpaqueQuiescent | internal/capacity/pool.go:286-297 | marking changes the mark of that lease only and keeps the lock-free condition, with the opaque bytes the sum over marked leases |
| CapacityLedger.DispatchConserves | internal/capacity/pool.go:200-235 | every lease gains exactly the bytes that were granted to its waiters |
| CapacityLedger.GrowConserves | internal/capacity/pool.go:108-153 | a Grow takes no byte from any lease and adds only granted bytes |
| CapacityLedger.ReleaseConserves | internal/capacity/pool.go:237-248 | a release takes exactly its amount from its own lease and nothing from another |
| CapacityLedger.ShrinkConserves | internal/capacity/pool.go:250-259 | Shrink returns what was asked for or all that the lease holds, and every lease then gains what its waiters are granted |
| CapacityLedger.CloseConserves | internal/capacity/pool.go:261-280 | Close returns all that the lease holds and nothing of another, and leaves it closed and empty |
| CapacityLedger.ResumeConserves | internal/capacity/pool.go:154-187 | a Grow whose wait ended gives back exactly a grant it still holds, and otherwise nothing |
| CapacityPool.Pool.constructor | internal/capacity/pool.go:70-84 | accepted options give two non-empty regions and a quiescent empty pool |
| CapacityPool.Pool.Without | internal/capacity/pool.go:189-198 | the search loop removes the first occurrence of the waiter |
| CapacityPool.Pool.DispatchPhase | internal/capacity/pool.go:200-235 | the inner loop computes one pass and its flag |
| CapacityPool.Pool.Dispatch | internal/capacity/pool.go:200-235 | the method computes the dispatch function of the state |
| CapacityPool.Pool.DropWaiters | internal/capacity/pool.go:261-280 | the loop drops exactly the lease's waiters, keeps the order of the others and closes each dropped channel once |
| CapacityPool.Pool.Shrink | internal/capacity/pool.go:250-259 | the method computes Shrink and leaves the pool quiescent |
| CapacityPool.Pool.CloseLease | internal/capacity/pool.go:261-280 | the method computes Close and leaves the pool quiescent |
| CapacityPool.Pool.GrowBegin | internal/capacity/pool.go:108-153 | the method computes the first section of Grow and leaves the pool quiescent |
| CapacityPool.Pool.GrowResume | internal/capacity/pool.go:154-187 | the method computes the rest of Grow, leaves the pool quiescent and never reports a lost place |
| CapacityPool.Pool.MarkOpaque | internal/capacity/pool.go:286-297 | the method computes MarkOpaque and leaves the pool quiescent |
| CapacityPool.Pool.NewLease | internal/capacity/pool.go:91-94 | the method computes NewLease and leaves the pool quiescent |
| CapacityScope.Scope.constructor | internal/capacity/scope.go:22-27 | a new scope has one reference and two leases of a new owner |
| CapacityScope.Scope.NewLease | internal/capacity/scope.go:38-51 | a lease is listed while the scope has references and closed at once otherwise |
| CapacityScope.Scope.Retain | internal/capacity/scope.go:54-66 | a reference is added only to a live scope |
| CapacityScope.Scope.Release | internal/capacity/scope.go:68-84 | the last release closes every listed lease, an earlier one only counts |
| CapacityScope.CloseAllCloses | internal/capacity/scope.go:68-84 | closing a list of leases leaves every one of them closed |
| CapacityScope.Scope.OutputFrom | internal/capacity/scope.go:101-124 | output of a producer asks, as a response, for twice its bytes on one lease per producer, of that producer's owner, which is closed at once when the scope has no reference left |
| CapacityScope.EveryRun | internal/capacity/pool.go:108-280 | in every state of every run: used is the sum of the leases and at most the total; a borrower exists exactly when used exceeds normal and all others stay within normal; a closed lease is empty and has no waiter; at most the allowed number of waiters, all responses, none grantable, each resolved at most once |
| CapacityScope.DrainedRun | internal/capacity/scope.go:38-124 | in every run, once every scope has released its last reference, nothing is used, nobody borrows and nobody waits |
| WriteFolding.FoldDelivers | internal/service/write_group.go:17-82 | for any snapshot and operations, the candidate is the sequential run of exactly the operations left without a failure, and its precondition describes the original snapshot |
| WriteFolding.FoldVerdict | internal/service/write_group.go:17-82 | each operation gets the verdict it meets on the record its kept predecessors leave behind |
| WriteFolding.PrepareWriteGroup | internal/service/write_group.go:17-49 | the loop computes the fold and writes each verdict to its own result |
| WriteFolding.ReportedAt | internal/service/write_group.go:17-49 | every verdict is shown at the index of its own operation and results of others stay |
| WriteFolding.BatchedFoldIsSequential | internal/service/write_group.go:105-145 | the same for parts of several callers with budgets: the candidate is the sequential run of what is left |
| WriteFolding.PartsFair | internal/service/write_group.go:105-145 | with several callers each operation still gets the verdict that it meets on the record its kept predecessors leave behind, unless its caller's budget refuses it |
| WriteFolding.RolledBackWhole | internal/service/write_group.go:105-145 | a caller's part that exceeds its budget is refused as a whole, never in pieces |
| WriteFolding.PreparePart | internal/service/write_group.go:105-145 | one caller's part is folded onto what the earlier parts left, charged to the caller's budgets and reported, or refused as a whole with nothing of it folded; input it already charged stays charged, as in the code |
| WriteFolding.PrepareBatchedWriteGroup | internal/service/write_group.go:105-145 | the loops over parts compute that fold, the budgets left and the results |
| WriteFolding.ApplyWriteGroupResult | internal/service/write_group.go:84-103 | the loop applies the storage outcome to every result of the group |
| WriteFolding.FinishAt | internal/service/write_group.go:84-103 | a speculative failure becomes final when its chain commits, any other outcome replaces it, and results of other groups stay |
| ConditionalWrites.Unchanged | internal/service/write.go:472-548 | a record that satisfies a snapshot's precondition has the snapshot's document |
| ConditionalWrites.Backend.Read | internal/service/write.go:442-470 | a snapshot shows a document and revision that the record had together; of a chunk that shares a working set at least one read is not put off, and without a shared working set none is |
| ConditionalWrites.Backend.Advance | internal/storage/read_budget.go:80-116 | a snapshot is put off only when the working set is shared and others hold a part of it, so the first one that asks is never put off |
| ConditionalWrites.Backend.WriteOne | internal/service/write.go:550-608 | a conditional write on a record that others may have changed: applied only if its precondition holds at that instant, and logged with the record it met |
| WriteReports.AppliedIsFinal | internal/service/write.go:550-608 | after an applied commit exactly the kept operations report APPLIED, the document is their sequential run on the record at the commit instant, and every other operation reports what that run refuses it with, or its caller's budget |
| WriteReports.FailureIsFinal | internal/service/write.go:550-608 | after a commit that failed in storage every operation of the group reports that storage failure |
| WriteReports.GivenUpIsFinal | internal/service/write.go:327-364 | a group that is given up without a write reports the failure for every operation, and that its retries are used up exactly when they are |
| WriteReports.RefusedIsFinal | internal/service/write.go:472-548 | a group without a candidate wrote nothing and reports each operation's own failure |
| WriteReports.ReturnedIsOwn | internal/service/write_return.go:75-83 | a returned document of an operation that is alone in its commit is what that operation makes of the record at the commit instant (`WriteRequests.ExecuteWriteGroups` shows that every returned document comes from such a commit) |
| WriteReports.DirectIsFinal | internal/service/write.go:275-325 | a direct put reports APPLIED exactly when its only write was applied |
| WriteReports.RetriesTold | internal/service/write.go:327-364 | a completed group says that its retries are used up exactly when every attempt wrote once to its record and met a conflict; then all its operations say so and nothing was written; a direct put never says so |
| WriteTries.TryOf | internal/service/write.go:327-364 | attempts that are numbered in order wrote once each, and none after them wrote |
| WriteExecution.Executor.constructor | internal/service/write.go:252-273 | an execution starts in the invariant on a backend that others, and earlier rounds, have already written to |
| WriteExecution.Executor.Partition | internal/service/write.go:204-214 | the groups are split exactly into those that need no snapshot, a single put or a chain of unconditional puts, and all others |
| WriteExecution.Executor.ExecutePuts | internal/service/write.go:275-325 | every direct put is written once and reported |
| WriteExecution.Executor.Propose | internal/service/write.go:472-548 | a snapshot becomes a candidate that is ready to commit and funded, or the group is completed without a write |
| WriteExecution.Executor.ApplySnapshots | internal/service/write.go:472-548 | every group of a chunk is completed or returned as a conflict, exactly once |
| WriteExecution.Executor.Commit | internal/service/write.go:550-608 | each candidate is written once and completed, or returned as a conflict exactly when its write was refused |
| WriteExecution.Executor.ExecuteAttempt | internal/service/write.go:366-440 | an attempt ends, with every pending group completed or returned exactly once; a returned group wrote exactly once in this attempt, and that write was refused by its precondition |
| WriteExecution.Executor.ExecuteConditionalWrites | internal/service/write.go:327-364 | after the attempts every group is completed once, and reports that its retries are used up exactly when it met a conflict in every one of them; then nothing was written for it |
| WriteExecution.Executor.ExecuteWriteWave | internal/service/write.go:252-273 | under any interference, when it returns without an error: every group is completed exactly once, has at most one write of this wave that is not a precondition failure, all its reports, refusals included, are the sequential run on the record at that commit or a refusal for a caller's budget, used up retries are reported exactly after a conflict in every attempt and mean that nothing was written, no other result is touched, and the callers' return allowances balance with the documents in the results |
| WriteReturns.SettledConserved | internal/service/write_return.go:87-103 | settling keeps allowance equal to unspent plus reserved plus retained exactly when the retained document fits its reservation or, with no reservation left, is what was already kept; settling twice changes nothing |
| WriteReturns.RaisedConserved | internal/service/write_return.go:51-73 | raising a reservation conserves the caller's allowance |
| WriteReturns.LedgerSum | internal/service/write_return.go:87-103 | the ledger of kept sizes adds up, for each caller, to the documents in the results |
| WriteReturns.ReturnsBounded | internal/service/write_return.go:51-103 | the documents that the results return to a caller are together at most its allowance |
| WriteReturns.Returns.constructor | internal/service/write_return.go:21-31 | every caller starts with its whole allowance unspent |
| WriteReturns.Returns.Reserve | internal/service/write_return.go:51-73 | succeeds exactly when there is memory for every returning operation and no caller's operations together need more than the caller has left; then each reservation is raised to the document; every allowance is conserved either way |
| WriteReturns.Returns.Settle | internal/service/write_return.go:87-103 | clears the reservations of the operations, keeps exactly what their final results retain, gives the rest back, and conserves every allowance |
| WriteRounds.BuildWriteGroups | internal/service/write.go:184-201 | one group per record, with the record's operations in request order, and each result in as many groups as in the request |
| WriteRounds.SplitWave | internal/service/write.go:216-250 | a wave and a rest that together have every record's operations in order and every result as often as before, with each returning operation alone in its group |
| WriteRequests.ExecuteWriteGroups | internal/service/write.go:216-250 | runs every round and stops at an error; without one every operation ran in exactly one round, on each record in request order; the rounds wrote one after another, on the given Lua engines and number of attempts; each report is explained by its own round's write; each returned document is what its own operation makes of the record at its own commit; an operation that is told that its retries are used up met a conflict in every attempt of its round, which wrote nothing to its record; and no caller's returned documents exceed its allowance |
| WriteRequests.ExecuteRequest | internal/service/server.go:126-140 | the same from the parsed request: grouping and running all rounds executes each record's operations exactly once in request order |
| WriteRequests.RunRound | internal/service/write.go:216-250 | one round on what earlier rounds left: all its groups are explained by its own part of the log, and results of other rounds stay |
| WriteRequests.DoneKept | internal/service/write.go:216-250 | what a round reported stays explained when later rounds write |
| WriteRequests.ReturnedInRound | internal/service/write_return.go:75-83 | a returned document is its own operation's result on the record at a commit of that round |
| WriteRequests.ToldInRound | internal/service/write.go:353-363 | an operation that is told that its retries are used up is in a round that met a conflict in every attempt on its record and wrote nothing to it |
| WriteRequests.RoundHolds | internal/service/write.go:216-250 | the i-th operation on a record is found in the round that it is counted in |
| WriteRequests.CommitsInOrder | internal/service/write.go:216-250 | of two operations on a record the earlier one was written in the same round, or in an earlier one that had stopped writing before |
| BatchSelection.SelectReady | internal/service/batcher.go:330-382 | the choice is the greedy one: a call is taken exactly when none of its records is in use or wanted by an earlier call left behind and the batch has room and a matching partition; the rest keeps its order; the batch counts as full exactly when a ready call was left out for size or a limit is reached |
| BatchSelection.IsDependent | internal/service/batcher.go:337-343 | a call depends exactly on a record in use or wanted by an earlier call left behind |
| BatchSelection.Block | internal/service/batcher.go:350-354 | a call left behind blocks exactly those of its records that are not in use |
| BatchSelection.GreedyUnique | internal/service/batcher.go:330-382 | the greedy choice is unique, so the contract of the selection determines its result |
| BatcherSteps.StartKeeps | internal/service/batcher.go:277-300 | starting what the greedy choice selected keeps use counts, exclusion, order and holds |
| BatcherSteps.SweepKeeps | internal/service/batcher.go:261-271 | dropping cancelled calls keeps the invariant |
| BatcherSteps.FinishKeeps | internal/service/write_completion.go:56-80 | a final result of a call whose write has begun gives the record back when it was the caller's last one on it, and keeps the invariant |
| BatcherSteps.CompleteKeeps | internal/service/batcher.go:504-517 | a call may be answered before its write begins, when all is final, or after its write has returned; it then holds nothing, and the invariant is kept |
| BatcherSteps.BeginKeeps | internal/service/batching_server.go:439-450 | a write begins only for calls that are not answered, and keeps the invariant |
| BatcherSteps.ReturnKeeps | internal/service/batching_server.go:450-453 | the return of a write keeps the invariant |
| BatcherSteps.LeaveKeeps | internal/service/batcher.go:407 | an execution is over when none of its writes is under way, and that keeps the invariant |
| BatcherSteps.ClearKeeps | internal/service/batcher.go:408-410 | after its execution a call gives up all its records, and the invariant is kept |
| BatcherSteps.ReceiveKeeps | internal/service/batcher.go:311-317 | receiving a release keeps the use count of each record equal to its holders plus the releases under way |
| BatcherSteps.EndKeeps | internal/service/batcher.go:384-429 | an execution that ends with nothing held keeps the invariant |
| BatcherSteps.EveryRun | internal/service/batcher.go:232-326 | in every interleaving of submit, cancel, select, begin, finish, return, answer, release and end: the use count covers all holders; two calls that hold a record are in one batch; calls on a record start in submission order; a later batch on it starts only when the earlier call no longer holds it; a call that holds a record is not answered and has an operation on it that is not final; and it gives the record up only when all its operations on it are final, when its write has returned, or when its write never began and never will |
| BatcherSteps.GivenUp | internal/service/batcher.go:504-541 | a started call without its record has final results for all operations on it, or its execution of them is over for good |
| BatcherSteps.NothingLate | internal/service/batcher.go:519-541 | once a later batch on a record has started, no operation of the earlier call on it gets a result in any continuation of the run |
| BatcherSteps.RunReaches | internal/service/batcher.go:232-326 | what is reached by steps from a run is the end of a run, so the theorems on runs hold after the methods below |
| BatcherSteps.ReleasedIsFree | internal/service/batcher.go:311-317 | with no release under way a record is in use exactly when a call holds it |
| BatcherSteps.IdleStartsOldest | internal/service/batcher.go:232-326 | no release is lost: with nothing running the next choice takes the oldest waiting call |
| BatcherLoop.Batcher.Drop | internal/service/batcher.go:261-271 | the sweep removes exactly the cancelled calls |
| BatcherLoop.Batcher.Occupy | internal/service/batcher.go:279-290 | a started call counts once on each distinct record and holds exactly its records |
| BatcherLoop.Batcher.TryStart | internal/service/batcher.go:273-302 | with a free slot starts the unique greedy choice as a whole exactly when it is not empty and is ripe or has waited long enough, and otherwise changes nothing |
| BatcherLoop.Batcher.FinishRecords | internal/service/batcher.go:521-541 | gives up those of the keys that are still held and sends them in one release |
| BatcherLoop.Batcher.CompleteCall | internal/service/batcher.go:504-517 | an answered call gives up all its records |
| BatcherLoop.Batcher.ReceiveDone | internal/service/batcher.go:311-317 | the loop lowers each use count by one and deletes it at zero |
| WriteCompletion.TrackedNext | internal/service/write_completion.go:56-80 | the counters always equal the operations without a final result, in all and on each record |
| WriteCompletion.ZeroMeansDone | internal/service/write_completion.go:68-79 | a counter is zero exactly when the operations it counts are final |
| WriteCompletion.Track | internal/service/write_completion.go:30-54 | position x of the batch belongs to the operation at that place of the callers' lists one after another, and the counters start full |
| WriteCompletion.Completion.constructor | internal/service/write_completion.go:30-54 | the counters start at the number of operations, in all and on each record, and every operation has one owner |
| WriteCompletion.Completion.Operation | internal/service/write_completion.go:56-80 | the first result of an operation is published at its own index, later ones are ignored, and records and caller are released exactly when their operations are final |
| WriteCompletion.Completion.FinishAll | internal/service/write_completion.go:91-106 | at the end every caller with operations is answered; without an error each position's result goes to its own operation unless one was published before, and with an error exactly the callers that still wait get it |
| WriteCompletion.ResultComes | internal/service/write_completion.go:56-80 | a result that comes while its write is under way is an allowed step, and its call is not answered |
| WriteBatches.LiveCalls | internal/service/mutation_batches.go:101-111 | takes only steps of the batcher: exactly the cancelled calls are answered before they begin, and the others are left pending in order |
| WriteBatches.ExecuteGroup | internal/service/batching_server.go:439-454 | takes only steps of the batcher: every call of the group begins, its write brings results in any order and returns, and it is answered; every operation is told the first result for its position and otherwise what the write returned for it, and when the write fails exactly the callers that still wait get the error |
| WriteBatches.ExecuteWriteBatch | internal/service/batching_server.go:412-456 | takes only steps of the batcher, for any split into requests: the write of every call that was not cancelled is called and has returned, every call with operations is answered, and no other call is touched |
| WriteBatches.ExecuteBatch | internal/service/batcher.go:384-410 | takes only steps of the batcher: the write of every call that was not cancelled is called and has returned, and the execution ends with none of its calls holding a record |
| WriteBatches.StartedPending | internal/service/batcher.go:277-300 | the calls that the loop has just started are what an execution may be run on |
| MutationWaves.TightIsLeast | internal/service/mutation_batches.go:59-99 | the plan is optimal: no plan that obeys the rule puts any call in an earlier wave |
| MutationWaves.SameWaveDisjoint | internal/service/mutation_batches.go:59-99 | calls of different modes in one wave touch different records |
| MutationWaves.MembersExact | internal/service/mutation_batches.go:59-99 | a group of a wave lists exactly its calls, once each, in submission order |
| MutationWaves.WaveFor | internal/service/mutation_batches.go:64-83 | the wave of a call from the last position on each record is the least that obeys the rule |
| MutationWaves.LastIsStrictest | internal/service/mutation_batches.go:76-96 | the last call on a record is the one that matters for the next |
| MutationWaves.PlanMutationWaves | internal/service/mutation_batches.go:59-99 | an earlier call that shares a record is in an earlier or the same wave, strictly earlier if the modes differ, each call is as early as that allows, and no wave is empty |
| Admission.Pool.Arrive | internal/service/admission.go:117-184 | a new request is admitted exactly when it has a slot, fits, and no waiter has a slot; otherwise it waits at the end of the queue exactly when it may wait, could ever fit and the queue has room; else it is rejected |
| Admission.Pool.Full | internal/service/admission.go:118-137 | the admission test: no slot, no room, or an older waiter that has a slot |
| Admission.Pool.WaitQueueFull | internal/service/admission_queue.go:5-10 | the bounds of the direct queue and, with admission.go:241-251, of waiting scans |
| Admission.Pool.Recheck | internal/service/admission.go:107-193 | an awake waiter is admitted exactly when it has a slot, fits, and no older waiter has a slot, and otherwise sleeps again without a wakeup being lost; nothing else changes but tokens |
| Admission.Pool.Leave | internal/service/admission.go:94-99 | a waiter that gives up is gone, the next one is woken and nothing else changes |
| Admission.Pool.Wake | internal/service/admission.go:301-315 | changes nothing but tokens of waiters, and afterwards the oldest waiter that has a slot has a token if it fits |
| Admission.Pool.Release | internal/service/admission.go:204-223 | a finished request is gone and frees what it still reserves, the next waiter is woken and nothing else changes |
| Admission.Pool.Resize | internal/service/reservation.go:37-66 | a reservation changes exactly when the size is allowed and, to grow, the bytes are free and no waiter has a slot |
| Admission.EveryRun | internal/service/admission.go:77-225 | in every interleaving the oldest waiter that has a slot and fits has a token or is awake, and the slots, bytes and queue places counted are those of the live and waiting requests and within all limits |
| LuaMatch.MatchExact | internal/merge/lua_pattern_matcher.go:97-264 | without an error the search reports a match at a position exactly when the match relation has one, and it is the first in priority order: longest first for `*` and `+`, shortest first for `-`, take first for `?` |
| LuaMatch.DerivesUnique | internal/merge/lua_pattern_matcher.go:97-215 | the repetition counts of a match determine its end and its captures |
| LuaMatch.PreferredAntisymmetric | internal/merge/lua_pattern_matcher.go:360-390 | priority is an order, so the first match is unique |
| LuaMatch.BalanceExact | internal/merge/lua_pattern_matcher.go:270-304 | `%bxy` ends at the first position where nothing is left open, `%bxx` behind the next x, and each fails exactly when there is none |
| LuaPattern.Search | internal/merge/lua_pattern_matcher.go:97-215 | a match ends inside the subject at or after its start, and every closed capture lies inside the subject |
| LuaMatcher.ParseCharSetAt | internal/merge/lua_pattern_matcher.go:568-594 | the loop finds the set's end and members, with a first `]` and escapes taken literally |
| LuaMatcher.ParseCharSetElems | internal/merge/lua_pattern_matcher.go:596-626 | the loop reads classes, ranges and literals of a set |
| LuaMatcher.MatchBalance | internal/merge/lua_pattern_matcher.go:270-304 | both loops find the end of the balanced run |
| LuaMatcher.MatchState.CaptureToClose | internal/merge/lua_pattern_matcher.go:257-264 | finds the last open capture |
| LuaMatcher.MatchState.MatchBackRef | internal/merge/lua_pattern_matcher.go:334-357 | compares the captured text, with its error and position cases |
| LuaMatcher.MatchState.Match | internal/merge/lua_pattern_matcher.go:97-215 | the matcher over the mutable stack gives the outcome of the search, restores the depth, and a failing match leaves the level and every slot below it unchanged |
| LuaMatcher.MatchState.MatchOpenCapture | internal/merge/lua_pattern_matcher.go:217-245 | a failing match behind an opened capture takes the capture back |
| LuaMatcher.MatchState.MatchCloseCapture | internal/merge/lua_pattern_matcher.go:247-255 | a failing match behind a closed capture opens it again |
| LuaMatcher.MatchState.MatchGreedy | internal/merge/lua_pattern_matcher.go:360-375 | tries the longest repetition first and restores the captures between tries |
| LuaMatcher.MatchState.MatchLazy | internal/merge/lua_pattern_matcher.go:378-390 | tries the shortest repetition first and restores the captures between tries |
| LuaMatcher.MatchState.GetCaptures | internal/merge/lua_pattern_matcher.go:51-67 | gives each capture's text, one-based position or open mark |
| LuaMatcher.LuaMatchAt | internal/merge/lua_pattern_matcher.go:394-401 | reports the first match at a position with its captures, that there is none, or the error of the search |
| LuaMatcher.LuaMatchFrom | internal/merge/lua_pattern_matcher.go:406-445 | returns the leftmost match at or after the start for any positive or negative start, and only at the start for an anchored pattern; an error comes from the first position that is not simply a mismatch |
| LuaSort.Sorter.Partition | internal/merge/lua_sort.go:101-133 | stays in range under any comparator, permutes the range, and for a strict weak order raises no error and splits the range at the pivot |
| LuaSort.Sorter.OrderThree | internal/merge/lua_sort.go:84-100 | orders the first, middle and last elements |
| LuaSort.Sorter.Rise | internal/merge/lua_sort.go:105-114 | the upward scan stays in range under any comparator and stops at the first element that is not less than the pivot |
| LuaSort.Sorter.Fall | internal/merge/lua_sort.go:115-123 | the downward scan stays in range under any comparator and stops at the last element that is not greater than the pivot |
| LuaSort.Sorter.Sort | internal/merge/lua_sort.go:75-142 | for any comparator stays in range, terminates and permutes the range even when it fails; for a strict weak order never fails and sorts; and nests at most logarithmically deep |
| JsonBridge.HoldsKept | internal/merge/json_bridge.go:152-215 | what a Lua value stands for does not change when other values are converted |
| JsonBridge.Bridge.GoToLua | internal/merge/json_bridge.go:152-215 | the Lua value stands for the given value and nothing that existed before changes |
| JsonBridge.PutSelf | internal/merge/json_bridge.go:284-295 | the field that is set stands for its value, an integer with its width |
| JsonBridge.PutOther | internal/merge/json_bridge.go:284-295 | setting a field leaves what every other field of the table stands for |
| JsonBridge.Bridge.LuaFieldToGo | internal/merge/json_bridge.go:331-338 | an integer field keeps the width remembered for it |
| JsonBridge.Bridge.LuaArrayToGo | internal/merge/json_bridge.go:443-457 | a table that stands for an array converts to it |
| JsonBridge.Bridge.LuaObjectToGo | internal/merge/json_bridge.go:459-483 | a table that stands for an object converts to it, in any iteration order |
| JsonBridge.Bridge.LuaToGo | internal/merge/json_bridge.go:340-411 | what stands for a decoded value converts back to it, and no cycle is reported for a value whose expansion is finite |
| JsonBridge.RoundTrip | internal/merge/json_bridge.go:152-483 | a decoded document converted to Lua and back is the same document, also when one integer occurs with both widths |
| JsonBridge.RoundTripTwo | internal/merge/json_bridge.go:152-483 | two documents converted on one bridge both come back unchanged |
| ResultBudget.CycleIsEndless | internal/merge/result_budget.go:47-49 | a table met below itself has no finite expansion |
| ResultBudget.Budget.Visit | internal/merge/result_budget.go:29-64 | succeeds exactly when the expansion is finite, not too deep and within what is left, and then charges exactly its nodes and bytes |
| ResultBudget.ValidateResultBudget | internal/merge/result_budget.go:19-27 | accepts a value exactly when its full expansion, with aliases counted at each occurrence, is acyclic, at most 256 deep and within the node and byte limits |
| ResultBudget.VerdictReordered | internal/merge/result_budget.go:55-63 | the verdict does not depend on the iteration order of any table |
| ResultBudget.SafeUnvisited | internal/merge/result_budget.go:47-49 | a walk below a value with a finite expansion never comes back to a table under visit |
| JsonBridge.ConvertResult | internal/merge/lua_engine.go:254-257 | a script's result that the budget walk accepts, whatever tables it is made of, is converted without meeting a cycle, and to the value that it stands for |
| JsonNumbers.SplitText | internal/merge/json_bridge.go:244-263 | the text of a literal of the grammar splits into its sign, digits, fraction length and exponent |
| JsonNumbers.ExactIntegerRight | internal/merge/json_bridge.go:243-282 | for every JSON number: the integer it denotes if that fits 64 bits, non-integral exactly when it denotes none, out of range exactly when it does not fit, and unsupported exactly when the exponent exceeds 32 bits |
| JsonNumbers.NormalFormRight | cmd/sink/lua_compare.go:32-63 | the normal forms of two JSON numbers are equal exactly when their values are |
| Rendezvous.OwnerUnique | internal/gateway/discovery.go:210-230 | a set of endpoints has at most one owner for any score function, ties included |
| Rendezvous.OwnerExists | internal/gateway/discovery.go:210-230 | every non-empty set of endpoints has an owner |
| Rendezvous.RemovalMovesOwnOnly | internal/gateway/discovery.go:207-230 | removing an endpoint moves only the records it owned |
| Rendezvous.AdditionMovesToNew | internal/gateway/discovery.go:207-230 | adding an endpoint moves records only to it |
| Rendezvous.AffinityRoute | internal/gateway/discovery.go:210-230 | the loop finds the owner among the set of the given endpoints |
| Rendezvous.OrderDoesNotMatter | internal/gateway/discovery.go:207-230 | the same endpoints in another order or with repetitions have the same owner |
| Gateway.RouteAll | internal/gateway/batch.go:40-75 | every Store is resolved once, at its first address; every record is routed to its affinity owner among the endpoints that this gave, has no route exactly when its address or Store fails, and has the same route at every position |
| Gateway.GroupByRoute | internal/gateway/batch.go:76-84 | one group per route, holding exactly its positions in request order |
| Gateway.SameRouteInOrder | internal/gateway/batch.go:76-84 | operations with one route are in one group in request order |
| Gateway.FailRecords | internal/gateway/batch.go:252-274 | each given position gets a failure with its own index, safe to retry only for reads or when nothing was started |
| Gateway.CheckResults | internal/gateway/batch.go:292-302 | accepts exactly the replies with one valid result for every position |
| Gateway.MergeResults | internal/gateway/batch.go:292-317 | takes over a complete reply renumbered to the request and leaves the response alone on any other |
| Gateway.RunGroup | internal/gateway/batch.go:86-107 | a group gets the results of a checked complete reply without an error, or all failures, and costs its settlement or the whole grant |
| Gateway.RunInTurn | internal/gateway/batch.go:124-130 | groups one after another, each granted what the earlier ones left, deliver every position and conserve the four budgets |
| Gateway.RunSideBySide | internal/gateway/batch.go:107-123 | groups in any order, each with the whole grant, deliver every position |
| Gateway.BudgetsConserved | internal/gateway/server.go:162-170 | for any replies the four budgets never underflow, and what was spent and what is granted next add up to the limit |
| Gateway.Records | internal/gateway/batch.go:23-133 | from addresses, for any resolution and any replies, one group after another or side by side: every position is routed to its affinity owner and is in the one group of its route, in request order; it holds exactly one result with its own index, a safe failure without a route and otherwise what the reply to its group gives it; operations on one address share a group; and, one after another, spent and remaining budgets add up to the limit |

## Left out

- Storage adapters: replaced by the backend of `ConditionalWrites.dfy`; of the read budgets only the shared working set is modelled.
- The Lua virtual machine, parser and compiler; metatables and other side effects of scripts on tables.
- Kafka publishing and workers, DNS refresh, connections, codecs, health probes, metrics, logging, configuration and commands.
- Native execute, query, count and scan paths, and ordering between the write and the delete batcher.
- Wall-clock time: a deadline is a nondeterministic end of a wait, so batching latency is not modelled.
- Capacity: Grow's per-lease lock is not modelled, which allows more interleavings than the code has; `Admit`, `Output` and `EnsureOutput` only combine the modelled steps, and `ReleaseOutputFrom` is a Shrink of the producer's output lease.
- Write folding: which error a storage or Lua failure message carries; only its code, whether it may be retried and what it is about.
- WriteRequests.ExecuteWriteGroups: after an error nothing is promised about the results; the code drops the response.
- WriteExecution.Executor.ExecuteAttempt: a context error of the whole execution is one failure flag, after which nothing is promised about the results.
- Batcher: the admission counters of queued operations and bytes, and shutdown.
- WriteBatches.ExecuteBatch: runs the groups of a wave one after another, while the applied and the visible group of a wave may run side by side and batches interleave; the theorems on runs cover every interleaving of the steps, but that the code takes only enabled steps is shown without others in between.
- BatcherLoop.Batcher.TryStart: whether the waiting time has passed is an argument.
- WriteCompletion.Completion.Operation: a result is an opaque number; the shortening of failure messages is not modelled.
- Admission: store labels and per-store gauges; a scan's reservation is taken as not resizable for its scan share, as in the code.
- LuaMatcher.MatchState.Match: the VM checkpoints inside the loops are not modelled, and after an error nothing is promised about the capture stack, which the callers discard.
- LuaSort.Sorter.Sort: the table is an array; a comparator that itself changes the table is not modelled.
- JsonBridge.Bridge.LuaToGo: BSON output only, with floats as reals; BSON scalars kept as tagged tables, invalid UTF-8 and non-finite numbers are not modelled, and parsing a datetime text that the decoder wrote is taken to give back that datetime. About tables that a script built only the absence of cycle errors is stated.
- JsonBridge.RoundTrip: with the same limits as `JsonBridge.Bridge.LuaToGo`, the datetime text included.
- JsonBridge.RoundTripTwo: with the same limits.
- ResultBudget.Budget.Visit: deadlines and virtual tables are not modelled.
- JsonNumbers.ExactIntegerRight: literals only; text outside the grammar of section 6 of RFC 8259 never reaches the code.
- Gateway: shortening of failure messages, request validation, admission and per-Store limits.
