# HyperSDK execution engine, modelled in Dafny

This project models the block execution engine of HyperSDK and proves what it promises over whole runs.
It covers the parallel executor and the transactional state views it runs tasks against, transaction
execution and fee deduction, the agreement of block building and block verification, replay protection
with its expiry index and its syncing, the fee manager, the handover at the end of state sync, the
mempool with its list and expiry heap, what a build takes from it and puts back, and the state prefetcher.

Concurrent parts are step systems: a step is what the code does under one lock or with one atomic
operation, a run is any sequence of enabled steps, and the main results hold in every reachable state.
Code that mutates objects is modelled by classes whose methods are proved against functions on values;
the results about those functions are lemmas. `dafny verify dfyconfig.toml` checks everything.

| file | contents |
|---|---|
| `Keys.dfy` | byte strings, big-endian words, state keys and permissions |
| `Views.dfy`, `ViewRefinement.dfy`, `TState.dfy` | the revertible state view, as functions and as the classes that implement it |
| `Units.dfy` | fee dimensions and all-or-nothing consumption, one by one and in order |
| `Executor.dfy`, `ExecutorOrder.dfy`, `ExecutorWaits.dfy`, `ExecutorErrors.dfy`, `ExecutorSentinel.dfy` | the executor as a step system; ordering, dispatch, absence of deadlock, what a task waits for, which error a run reports, and where the sentinel fails |
| `Serializability.dfy`, `QueueOrder.dfy`, `BlockAgreement.dfy`, `BlockContext.dfy` | serializability, and builder/processor agreement |
| `Transaction.dfy`, `TransactionEffect.dfy` | the transaction body: checks, fee, actions, rollback; and how it ends, said by its actions alone |
| `Heap.dfy`, `EMap.dfy`, `ExpiryHeap.dfy`, `LinkedList.dfy` | the expiry structures and the linked list |
| `BlockTree.dfy`, `ValidityWindow.dfy`, `ReplaySafety.dfy`, `Syncer.dfy` | replay protection |
| `Fees.dfy`, `FeePrice.dfy`, `FeeManager.dfy` | the sliding window, the price law and the packed fee state |
| `Snow.dfy`, `Lifecycle.dfy`, `VM.dfy` | state-sync handover, the block lifecycle over whole runs, and the VM whose operations are its steps |
| `Mempool.dfy` | the mempool |
| `Building.dfy` | where the builder leaves what it streams: per batch, per round and over a whole build |
| `Fetcher.dfy` | the prefetcher |

## Results that differ from what the code or its comments suggest

- The executor's comment allows a task as many dependencies as `maxDependencies`; with exactly that many
  a task can be put on the channel twice (`ExecutorSentinel.SentTwice`). Dispatch is exactly-once if and
  only if fewer than that many notify a task before its `Run` returns
  (`ExecutorOrder.DispatchedOnceIffTimely`); having no more jobs than that is enough.
- A task can be made to wait for one it shares no key with: taking over a key waits for every reader of its
  last owner, whatever they read; and the first reader of a key holds later readers up
  (`ExecutorWaits.WaitsHaveReasons` gives all the reasons there are).
- A view is a plain map over its parent unless a key it re-created over the parent's value is removed:
  then the parent's value shows again (`ViewRefinement.ReexposedValue`, exact condition in
  `ViewRefinement.OverlayRefinesPlainMap`).
- `Rollback` restores pending changes and writes exactly, but can lose an allocation mark
  (`ViewRefinement.LostMark`, exact condition in `ViewRefinement.RollbackRestoresAllocates`).
- `KeyOperations` is documented to report the largest write of a key; the tally is that of the value pending
  now (`ViewRefinement.TalliesExact`).
- The balance check accepts a zero fee on a missing account and the deduction then fails, which fails the
  whole block (`Transaction.AbortsExactlyWhenUnfunded`).
- Replay protection needs a validity window that does not shrink faster than time passes, and timestamps
  above 0 (`ReplaySafety.SafeExactlyIfCloses`, `ReplaySafety.ZeroTimeReplays`). A node that rebuilds its
  window needs slightly more when the window can be shorter than a second, because rebuilding forgets what
  a later block may still hold (`ReplaySafety.RebuiltSafeExactlyIfClosesAhead`, `BlockTree.SpanningCloses`).
- Fetching history does not end by itself on a chain that is younger than its window: the fetcher reaches
  genesis and goes on asking, until a new target completes the window
  (`Syncer.FetchingCompletesExactlyIf`, `Syncer.DoneExactlyIfCompleted`).
- The builder drops a metadata write that it takes for unchanged. It takes the parent's time from the
  parent's block, which for the genesis block is not what the state holds (`BlockContext.GenesisTimeMisread`).
  A block later than its parent is never affected (`BlockContext.BlockReadRight`), so that it verifies to
  the builder's state (`BlockContext.BuiltBlockVerifies`).
- `WithoutPermissions` makes its slice at full length and then appends to it, so the prefetcher is asked for
  the empty key as well; no view can tell (`StateKeys.WithoutPermissions`, `Prefetching.FetchedIsPrefetched`).
- The unchecked products in the price law wrap; the law's bounds hold all the same, monotonicity does not
  (`FeePrice.WrapBreaksMonotone`; the exact law, wrapped or not, is `FeePrice.PriceMove`).
- A processing block that enters the handover verified stays verified on its old output when verifying it
  again fails, and its descendants are then verified on that output (`Handover.StaleOutputSpreads`, exact
  condition in `Handover.DiffersFromRootFold`). In runs of the whole lifecycle this cannot happen, because
  every verified output is the true one (`Lifecycle.ReadyMeansVerified`). A failing subscriber leaves a
  verified block unresolved (`Handover.UnresolvedIsTheRest`).
- Prefetching a stream twice without consuming the first loses its items
  (`PoolConservation.StreamingConserves` says exactly when).

## Model

| member | source | states |
|---|---|---|
| Bytes.DecodeEncode | internal/window/window.go:60-78 | writing a word big-endian and reading it back gives the word |
| Bytes.EncodeDecode | internal/window/window.go:60-78 | every byte string is the encoding of the word it denotes |
| StateKeys.AddUnions | state/keys.go:53-67 | adding a key never takes a permission away, grants exactly what was asked on top, and leaves other keys alone |
| StateKeys.WriterIsExclusive | state/keys.go:25-67 | whoever may write or allocate may read and does not hold exactly Read |
| StateKeys.WithoutPermissions | state/keys.go:83-89 | every key of the set once, after as many empty strings as there are keys |
| StateKeys.FitsExactly | keys/keys.go:18-63 | a value fits a key if and only if it is empty or shorter than 64 bytes per chunk that the key's last two bytes reserve |
| Views.UndoInsert | state/tstate/tstate_view.go:198-252 | undoing an insertion restores pending changes, write tally and log |
| Views.UndoRemove | state/tstate/tstate_view.go:256-299 | undoing a removal restores pending changes, write tally and log |
| Views.RollbackTwice | state/tstate/tstate_view.go:69-125 | rolling back in two stages equals rolling back at once |
| Views.RollbackExact | state/tstate/tstate_view.go:69-125 | after any history with inner rollbacks, rolling back to a saved position restores pending changes, writes and log exactly |
| Views.OverlayCompose | state/tstate/tstate_view.go:307-315 | committing changes on top of changes is one merged change set |
| Views.PermissionsDecide | state/tstate/tstate_view.go:146-299 | bit by bit, which permission each of reading, writing, creating and removing needs, and every status they return |
| TState.TState.GetChangedValue | state/tstate/tstate.go:28-38 | tells a changed value from a recorded deletion and from no change |
| TState.TStateView.GetValue | state/tstate/tstate_view.go:153-159 | the scoped read is the read of the value-level view |
| TState.TStateView.Find | state/tstate/tstate_view.go:162-178 | pending changes shadow shared changes, which shadow prefetched storage |
| TState.TStateView.IsUnchanged | state/tstate/tstate_view.go:181-195 | holds exactly when the parent already has that value, or no value |
| TState.TStateView.Insert | state/tstate/tstate_view.go:198-252 | the new view and status are those of the value-level insertion |
| TState.TStateView.Remove | state/tstate/tstate_view.go:256-299 | the new view and status are those of the value-level removal |
| TState.TStateView.Rollback | state/tstate/tstate_view.go:69-125 | the loop over the log computes the recursive rollback |
| TState.TStateView.Commit | state/tstate/tstate_view.go:307-315 | afterwards every parent read shows what the view showed, and the operation count grows by the log |
| ViewRefinement.RefineStep | state/tstate/tstate_view.go:198-299 | one command keeps view and plain map equal, now and at every restore point, exactly when it does not re-expose a key |
| ViewRefinement.OverlayRefinesPlainMap | state/tstate/tstate_view.go:162-299 | over whole histories the view reads as a plain map if and only if no command removes a key re-created over the parent's |
| ViewRefinement.ReexposedValue | state/tstate/tstate_view.go:256-299 | remove, re-create, remove brings the parent's value back |
| ViewRefinement.FreshAllocationsSuffice | state/tstate/tstate_view.go:198-299 | never re-creating a key of the parent rules re-exposure out |
| ViewRefinement.OnlyRealChanges | state/tstate/tstate_view.go:181-252 | whatever the history, every pending entry differs from the parent's value |
| ViewRefinement.TalliesExact | state/tstate/tstate_view.go:132-143 | over every history with rollbacks, a key's write tally is the chunks of its pending value and its allocation tally the chunks the key reserves, at every point that can be rolled back to |
| ViewRefinement.RollbackAllocates | state/tstate/tstate_view.go:69-125 | which allocation marks a rollback leaves, after any history with inner rollbacks |
| ViewRefinement.RollbackRestoresAllocates | state/tstate/tstate_view.go:69-125 | after any history with inner rollbacks, a rollback restores the allocation tally if and only if no insertion returned a marked key to the parent's value while no removal of it stood in the log above the saved position |
| ViewRefinement.ReachableMarksVisible | state/tstate/tstate_view.go:198-299 | in every view a fresh one can become, allocation marks are on visible keys only |
| ViewRefinement.LostMark | state/tstate/tstate_view.go:69-125 | a history after which a rollback has lost a mark |
| Units.FirstOver | internal/fees/manager.go:129-142 | the first dimension without room, all earlier ones having room |
| Units.ConsumedTotal | internal/fees/manager.go:129-153 | consuming units in order ends with their sum, within the limits |
| Units.ConsumesExactlyIfSumFits | internal/fees/manager.go:129-153 | units are consumed in turn if and only if their sum fits in every dimension |
| ExecutorOrder.RegisterKeeps | internal/executor/executor.go:139-207 | registering a key keeps links, counters, ownership and ordering |
| ExecutorOrder.NotifyDispatch | internal/executor/executor.go:103-116 | a notification keeps the dispatch invariant if and only if it is not the one that uses up the sentinel of a task still being registered |
| ExecutorOrder.StepKeeps | internal/executor/executor.go:58-237 | every step of every thread, but for such a notification, keeps the scheduler's invariant |
| ExecutorOrder.ConflictsRunInOrder | internal/executor/executor.go:91-207 | in every interleaving, of two tasks that share a key and do not both hold exactly Read, the later starts only after the earlier body is over |
| ExecutorOrder.SentExactlyOnce | internal/executor/executor.go:103-223 | after `Run`, a counter is the number of dependencies still to notify, and its task is sent once when there is none and never twice |
| ExecutorOrder.DispatchedOnceIffTimely | internal/executor/executor.go:40-56 | exactly-once dispatch holds in every state of a run if and only if no task being registered is notified by `maxDependencies` of its dependencies |
| ExecutorOrder.FewJobsDispatchedOnce | chain/builder.go:158-158 | no more jobs than `maxDependencies` is enough, in every run; this discharges the hypothesis of every theorem about runs |
| ExecutorOrder.NoDeadlock | internal/executor/executor.go:91-237 | while something is outstanding some thread can step, after errors and `Stop` too |
| ExecutorWaits.WaitsHaveReasons | internal/executor/executor.go:159-207 | in every interleaving a task depends on another only if they share a key that one of them holds with more than Read or that the other was the first to declare, or if it takes a key of a third task that the other reads something of |
| ExecutorWaits.ReadersRunTogether | internal/executor/executor.go:159-196 | a task that only reads waits for nobody but a writer of one of its keys or the first to declare one |
| ExecutorErrors.ReportsFirstError | internal/executor/executor.go:118-131 | in every run the error reported is the first one met: stopping, an aborted body, one refused in verification, or a block whose first exceeded dimension has reached its target |
| ExecutorErrors.EndBodyCommits | chain/builder.go:294-327 | a body is committed if and only if it finished and, in building, fits in every dimension; then others see what its view showed and exactly its units are consumed |
| ExecutorErrors.ErrorSkipsTheRest | internal/executor/executor.go:118-131 | after an error, in every run, no further body starts and nothing is committed but by the bodies then running |
| ExecutorErrors.StopAnyTime | internal/executor/executor.go:225-227 | stopping is possible at any time, and is the error if there was none |
| ExecutorSentinel.SentTwice | internal/executor/executor.go:40-56 | a run in which a task with `maxDependencies` dependencies is sent twice |
| Serializability.AloneLocal | state/tstate/tstate_view.go:146-178 | a body depends on the shared changes only at its declared keys |
| Serializability.AloneConfined | state/tstate/tstate_view.go:198-299 | a body changes only keys it holds with more than Read |
| Serializability.SerialInCommitOrder | internal/executor/executor.go:91-223 | in every interleaving, whatever failed, the shared changes and results are those of running the committed tasks alone in commit order |
| QueueOrder.SeesSequential | chain/processor.go:249-317 | a running task sees, at its keys, what running the earlier tasks one by one leaves |
| QueueOrder.SerialInQueueOrder | chain/processor.go:249-317 | in every error-free interleaving the results and the final changes are those of running the jobs one by one in queue order |
| BlockAgreement.BuildAllSound | chain/builder.go:203-328 | whatever batches and interleavings built it, a block's transactions replay and its consumption is that of its units |
| BlockAgreement.RecordedIsDeclared | chain/processor.go:259-270 | what the builder consumed as it committed is, transaction by transaction, what the transactions declare |
| BlockAgreement.VerifiesWithoutError | chain/processor.go:249-310 | verifying a replayable block raises no error in any interleaving |
| BlockAgreement.BuilderProcessorAgree | chain/builder.go:203-328 | the units a built block's transactions declare, consumed up front, end within the limits at the builder's consumption; it verifies without error in every interleaving, with the recorded results and the builder's changes |
| BlockContext.ContextWritten | chain/processor.go:428-448 | the metadata writes that go through leave exactly the written entries over the state |
| BlockContext.ContextWritesAgree | chain/builder.go:379-408 | when the builder's metadata writes go through so do the processor's, which set every entry, and both leave the same state if and only if the builder takes no changed entry for unchanged |
| BlockContext.GenesisTimeMisread | chain/builder.go:391-399 | a first block at exactly the time of the genesis block is such a case |
| BlockContext.EntriesFit | chain/consts.go:20-39 | height, timestamp and packed fee state fit the chunks their keys reserve |
| BlockContext.BuilderNeverRefused | chain/builder.go:386-408 | the builder's metadata writes go through |
| BlockContext.FinalStatesAgree | chain/processor.go:151-168 | for any entries that are a function of the consumption, a built block that verifies to the end leaves the builder's state, metadata included, if and only if the builder takes no changed entry for unchanged |
| BlockContext.BlockReadRight | chain/builder.go:379-399 | the height, time and fee entries of a block later than its parent have distinct keys, and the builder takes none for unchanged unless it is |
| BlockContext.BlockWritesGoThrough | chain/builder.go:386-408 | the builder's three metadata writes go through unless a transaction removed one of the entries |
| BlockContext.BuiltBlockVerifies | chain/processor.go:151-168 | a block built in any batches and interleavings, later than its parent, verifies in any interleaving: its declared units fit, its height, time and fee state are written, and the final state is the builder's |
| BlockContext.MetadataReadBack | chain/processor.go:428-448 | what the next block reads back: the height one above the parent's, the time and the fee state, each under its key, and every other key as the transactions left it |
| Transaction.CheckedDeduction | state/balance/balance.go:49-91 | a checked deduction goes through exactly when the account exists, and takes exactly the amount |
| Transaction.BalanceFits | state/balance/balance.go:35-41 | a packed balance always fits the one chunk its key reserves |
| Transaction.BalanceKeysApart | state/balance/balance.go:35-41 | every address has a balance key of its own |
| Transaction.TxInvAlone | chain/transaction.go:244-346 | what the view holds at every stage of a transaction body |
| Transaction.FailedTxPaysOnlyItsFee | chain/transaction.go:289-346 | a transaction whose action failed leaves only the sponsor's balance changed, lower by exactly the fee of its result |
| Transaction.AbortsExactlyWhenUnfunded | chain/transaction.go:244-312 | a body that passed its checks aborts if and only if the fee is zero and the sponsor has no account |
| TransactionEffect.SucceedsExactlyIfAllDone | chain/transaction.go:289-346 | a transaction ends in success with a given result and view if and only if its fee can be taken and its actions, each run in turn on the view, are all done and lead there, with one output each in order |
| TransactionEffect.FailsExactlyIfOneFails | chain/transaction.go:314-335 | it ends in failure with a given error and outputs if and only if its fee can be taken and the action after exactly those outputs fails with that error |
| TransactionEffect.RefusedExactlyIfUnchecked | chain/transaction.go:244-287 | it is refused if and only if a check, the fee or the sponsor's balance does not pass |
| HeapOrder.RootFirst | internal/heap/inner_heap.go:46-51 | nothing in an ordered heap comes before its root |
| Heaps.Heap.Swap | internal/heap/inner_heap.go:57-61 | two entries change places and every entry still knows its position |
| Heaps.Heap.Up | internal/heap/heap.go:48-50 | lifting an entry restores the heap order and keeps the entries |
| Heaps.Heap.Down | internal/heap/heap.go:55-70 | sinking an entry restores the order below it, and says whether it moved |
| Heaps.Heap.Push | internal/heap/inner_heap.go:68-78 | adds an entry unless its ID is known; positions, lookup and order stay consistent |
| Heaps.Heap.First | internal/heap/heap.go:76-81 | an entry that none comes before, null exactly for the empty heap |
| Heaps.Heap.Remove | internal/heap/heap.go:65-70 | takes out the entry at an index, null past the end; all else stays |
| Heaps.Heap.Pop | internal/heap/heap.go:55-60 | takes out the root, null exactly for the empty heap |
| EMaps.EMap.AddOne | internal/emap/emap.go:60-90 | remembers the ID under its expiry unless it is known or expires at 0; buckets, heap and seen set stay one map |
| EMaps.EMap.Add | internal/emap/emap.go:47-54 | adds a list, in order |
| EMaps.AddedAllExactly | internal/emap/emap.go:47-90 | which IDs a list leaves remembered, each under its first expiry that is not 0 |
| EMaps.EMap.SetMin | internal/emap/emap.go:94-113 | an ID stays if and only if it expires at or after `t`, and every other one is returned exactly once |
| EMaps.EMap.Any | internal/emap/emap.go:116-126 | holds exactly when some item's ID is remembered |
| EMaps.EMap.Contains | internal/emap/emap.go:128-144 | marks exactly the remembered items, or only the first one when told to stop |
| ExpiryHeaps.ExpiryHeap.Add | internal/eheap/eheap.go:37-46 | adds an element under the ID of its value unless the ID is known |
| ExpiryHeaps.ExpiryHeap.Remove | internal/eheap/eheap.go:49-58 | takes out the element under an ID, if any, and returns it |
| ExpiryHeaps.ExpiryHeap.PeekMin | internal/eheap/eheap.go:80-86 | an element that no other expires before |
| ExpiryHeaps.ExpiryHeap.PopMin | internal/eheap/eheap.go:89-97 | takes that element out |
| ExpiryHeaps.ExpiryHeap.SetMin | internal/eheap/eheap.go:62-77 | takes out exactly the elements that expire before the bound and returns each once |
| LinkedList.List.InsertAfter | internal/list/list.go:112-120 | splices an element into the ring at its place; the ring stays linked both ways |
| LinkedList.List.RemoveAt | internal/list/list.go:127-134 | splices an element out and detaches it |
| LinkedList.List.PushFront | internal/list/list.go:81-86 | a new element becomes the first, also on a list never used |
| LinkedList.List.PushBack | internal/list/list.go:88-93 | a new element becomes the last, also on a list never used |
| LinkedList.List.Remove | internal/list/list.go:95-100 | takes an element of this list out in its place, leaves one of no list alone, and returns its value |
| LinkedList.List.First | internal/list/list.go:67-72 | the first element, or null |
| LinkedList.List.Last | internal/list/list.go:74-79 | the last element, or null |
| BlockTree.VerifyTimestamp | internal/validitywindow/validitywindow.go:282-293 | accepts exactly aligned timestamps that are not past and at most one window ahead |
| BlockTree.OldestAllowed | internal/validitywindow/validitywindow.go:278-280 | the larger of 0 and the start of the window |
| BlockTree.NeverShrinksCloses | genesis/rules.go:97-99 | a window that never shrinks, as the default constant one, satisfies both conditions replay safety needs |
| BlockTree.SpanningCloses | chain/base.go:21-48 | expiries being whole seconds, a window of at least 999 ms that satisfies the condition for running nodes satisfies the one for rebuilt nodes |
| BlockTree.BeyondWindow | internal/validitywindow/validitywindow.go:207-210 | from the first block older than the window down, no container can make a difference to a block at this time |
| Coverage.AcceptCovers | internal/validitywindow/validitywindow.go:114-127 | accepting a block carries the coverage of its parent over to it |
| Coverage.HistoricalCovers | internal/validitywindow/validitywindow.go:129-139 | adding a historical block extends the coverage down by one |
| Coverage.FullWindow | internal/validitywindow/validitywindow.go:244-267 | coverage down to a block that has left the window is coverage of the whole chain, for a window that closes ahead |
| Coverage.AcceptBlockExactly | internal/validitywindow/validitywindow.go:114-127 | after a block an ID is remembered if and only if it was and has not expired, or the block brought it |
| ValidityWindow.TimeValidityWindow.Accept | internal/validitywindow/validitywindow.go:114-127 | evicts what expired, adds the block's containers, moves the last accepted height |
| ValidityWindow.TimeValidityWindow.AcceptHistorical | internal/validitywindow/validitywindow.go:129-139 | adds containers without evicting or moving the height |
| ValidityWindow.TimeValidityWindow.WalkBack | internal/validitywindow/validitywindow.go:235-270 | the fetched blocks are the chain's last stretch, and full means genesis or a block older than the window |
| ValidityWindow.TimeValidityWindow.Populate | internal/validitywindow/validitywindow.go:235-276 | with a window that closes ahead, what it reports full remembers every unexpired container of the whole chain, and nothing off the chain |
| ValidityWindow.TimeValidityWindow.FindRepeats | internal/validitywindow/validitywindow.go:194-233 | finds what a scan of the whole ancestry finds, though it stops at the window's edge and asks the index below the last accepted block; fails only if a block is missing |
| ValidityWindow.TimeValidityWindow.IsRepeat | internal/validitywindow/validitywindow.go:182-192 | marks a container that the block may hold exactly when it occurs in an ancestor, and with a window that closes ahead every unexpired one |
| ValidityWindow.TimeValidityWindow.VerifyExpiryReplayProtection | internal/validitywindow/validitywindow.go:141-180 | a block passes exactly when its containers are distinct and none is on the chain it extends |
| ReplaySafety.SearchExact | internal/validitywindow/validitywindow.go:194-233 | the search answers exactly whether some container is on the chain |
| ReplaySafety.VerifyKeeps | internal/validitywindow/validitywindow.go:141-180 | verifying a block keeps the node's invariant |
| ReplaySafety.AcceptKeeps | internal/validitywindow/validitywindow.go:114-127 | accepting a block keeps the node's invariant |
| ReplaySafety.NeverIncludedTwice | internal/validitywindow/validitywindow.go:58-74 | with a window that closes and blocks at positive times, in every run of verifying, accepting and losing or gaining stored blocks from genesis, no container is in a block twice or in two blocks of one chain |
| ReplaySafety.ResumedNeverIncludesTwice | internal/validitywindow/validitywindow.go:107-112 | the same from any state whose window covers its last accepted block, as rebuilding and syncing leave it, whatever part of the history the node still holds |
| ReplaySafety.PassesExactlyFresh | internal/validitywindow/validitywindow.go:141-180 | in every reachable state a block that passes repeats nothing, and one whose unaccepted ancestors can be fetched passes exactly when it repeats nothing |
| ReplaySafety.SafeExactlyIfCloses | internal/validitywindow/validitywindow.go:278-280 | for every window, all runs from genesis with blocks at positive times are free of replays if and only if the window closes on the expiries that a block may hold |
| ReplaySafety.UnclosedReplays | internal/validitywindow/validitywindow.go:207-210 | a run that includes twice a container that expires at a whole second, for every window that does not close |
| ReplaySafety.PartVerify | internal/validitywindow/validitywindow.go:141-233 | verifying on any part of the existing blocks either misses a block or gives the verdict of verifying on all |
| ReplaySafety.RebuiltSafeExactlyIfClosesAhead | internal/validitywindow/validitywindow.go:235-276 | for every non-negative window, all runs of all nodes that rebuilt their window are free of replays if and only if the window closes ahead |
| ReplaySafety.UnclosedAheadReplays | internal/validitywindow/validitywindow.go:256-264 | a rebuilt node that includes a container again, for every window that does not close ahead |
| ReplaySafety.ZeroTimeReplays | internal/emap/emap.go:60-64 | a run with blocks at time 0 that includes a container twice |
| Syncer.ProcessAnswer | internal/validitywindow/client.go:91-116 | of any answer, only the longest prefix that continues the chain is kept, cut after the first block older than the minimum |
| Syncer.UpdateKeeps | internal/validitywindow/syncer.go:129-151 | a new target keeps what syncing has covered, and completes it when the window is seen |
| Syncer.ReceiveKeeps | internal/validitywindow/client.go:91-116 | any block a peer sends keeps the fetched blocks one stretch of the chain |
| Syncer.ConsumeKeeps | internal/validitywindow/syncer.go:92-102 | adding the next fetched block keeps the coverage contiguous |
| Syncer.SyncedWindowCovers | internal/validitywindow/syncer.go:74-151 | however fetching and new targets interleave, a finished sync covers the whole chain of the latest target |
| Syncer.DoneExactlyIfCompleted | internal/validitywindow/syncer.go:87-151 | over every run a sync is done if and only if it was at the start, some target left the oldest block at hand behind by more than the window, or the fetched history was drained |
| Syncer.FailedEndsByTarget | internal/validitywindow/syncer.go:91-101 | once saving a block has failed, no history is added and only a new target can end the sync |
| Syncer.FetchingCompletesExactlyIf | internal/validitywindow/client.go:59-116 | a sync under way can be completed by fetching alone if and only if the target's chain has a block older than the window |
| Syncer.WindowSyncer.BackfillFromExisting | internal/validitywindow/syncer.go:155-163 | rebuilding from the blocks at hand leaves a state that syncing may start from |
| Syncer.WindowSyncer.Start | internal/validitywindow/syncer.go:74-85 | starting establishes that state, done exactly if the window is full |
| Syncer.SoundDescends | internal/validitywindow/syncer.go:155-163 | what a window remembers of a block's chain is on the chain of every descendant, so syncing may start towards any of them |
| Syncer.WindowSyncer.UpdateSyncTarget | internal/validitywindow/syncer.go:129-151 | does to the window, the oldest block, the minimum time and completion what the step system does; it is done if and only if it was or the target has left the oldest block behind by more than the window |
| Syncer.SyncedNeverIncludesTwice | internal/validitywindow/syncer.go:26-47 | from starting, through any interleaving of targets and peers, to any run of verifying and accepting with any part of the target's chain at hand: nothing is included twice |
| Window.RollShifts | internal/window/window.go:37-47 | rolling shifts words out on the left and zeros in on the right, at byte level |
| Window.PutWordSets | internal/window/window.go:71-79 | writing one word leaves the others as they are |
| Window.PackedWords | internal/window/window.go:60-79 | packing the words of a byte string gives it back |
| Window.Sum | internal/window/window.go:52-66 | the total of the ten words, saturated |
| Window.Update | internal/window/window.go:71-79 | adds units to one word in place, saturated, and changes no other |
| FeePrice.PriceLaw | internal/fees/manager.go:203-268 | never below the minimum; above target strictly up or saturated; at target unchanged; below target never up; wrapped products included |
| FeePrice.PriceMove | internal/fees/manager.go:203-268 | the size of the move, for all inputs: the step is the word `price * distance` over target times denominator, at least 1; up it saturates; down it applies once per ten seconds, as a word, to zero; then the minimum |
| FeePrice.StepUnique | internal/fees/manager.go:223-250 | there is one such step only |
| FeePrice.PriceMonotone | internal/fees/manager.go:223-266 | more usage never means a lower price, across the target always, and on one side of it while the product at the farther usage does not wrap |
| FeePrice.WrapBreaksMonotone | internal/fees/manager.go:223-238 | with a wrapped product, more usage gives a lower price |
| FeeHistory.SlotsHoldSeconds | internal/fees/manager.go:212-220 | slot `j` of the window at second `T` is the saturated usage of second `T-9+j` in the full history |
| FeeHistory.WindowRefinesHistory | internal/fees/manager.go:212-221 | the saturated sum of the window is the saturated usage of the last ten seconds |
| FeeManager.ComputeNextPriceWindow | internal/fees/manager.go:203-268 | the byte-level roll, update and sum give the next window and the price law's price |
| FeeManager.Manager.ComputeNext | internal/fees/manager.go:75-103 | a fresh buffer whose every dimension has the next price and window and no consumption, and the new second |
| FeeManager.Manager.Consume | internal/fees/manager.go:129-153 | consumes in every dimension if all have room, else changes nothing and names the first without; prices, windows and timestamp stay |
| FeeManager.Manager.Fee | internal/fees/manager.go:162-179 | the sum of price times units over the five dimensions, if and only if a word can hold it |
| FeeManager.Manager.UnitPrice | internal/fees/manager.go:46-49 | reads the price word of a dimension |
| FeeManager.Manager.GetWindow | internal/fees/manager.go:58-61 | reads the ten window words of a dimension |
| FeeManager.Manager.LastConsumed | internal/fees/manager.go:70-73 | reads the consumption word of a dimension |
| FeeManager.Manager.SetUnitPrice | internal/fees/manager.go:112-115 | writes the price word of a dimension and nothing else |
| FeeManager.Manager.SetLastConsumed | internal/fees/manager.go:124-127 | writes the consumption word of a dimension and nothing else |
| FeeManager.Layout | internal/fees/manager.go:46-73 | where the second, and each dimension's price, window slots and consumption, stand in the bytes |
| FeeRuns.PriceFollowsHistory | internal/fees/manager.go:75-103 | over every run of blocks with non-decreasing times from a genesis state with any prices, each slot follows from the full history of usage, and the price from the last ten seconds of it and the time since the last block |
| FeeRuns.GenesisFees | chain/genesis.go:50-57 | the genesis fee state has the minimum prices and nothing used |
| FeeRuns.ProcessBlock | chain/processor.go:259-270 | computing the next state and consuming a block's units makes one step of such a run, leaving exactly the bytes that parent state, time, rules and consumption determine, or refuses exactly when they do not fit |
| FeeRuns.StepIsFeeWords | internal/fees/manager.go:75-103 | a step of such a run leaves one state only, given by parent state, time, rules and consumption |
| Snow.StatefulBlock.Verify | snow/block.go:153-162 | sets output and verified when the chain verifies, and reports failing subscribers afterwards |
| Snow.ReprocessFolds | snow/chain_index.go:101-130 | reprocessing yields the same output as verifying block by block |
| Snow.ReprocessAccepts | snow/chain_index.go:101-130 | reprocessing ends with a given output and accepted form if and only if verification folds to the output and there are accepted forms along the path, each block accepted on the one before with the output up to it, that end there |
| Handover.VerifiedIffPathFolds | snow/statesync.go:101-124 | a block whose own path entered unverified ends verified if and only if the path starts on a verified block and verification succeeds on all of it, and its output is that fold |
| Handover.UnresolvedIsTheRest | snow/statesync.go:104-124 | for every block, unresolved means left unverified, stale, or refused by a subscriber |
| Handover.FinalFromNearestStale | snow/statesync.go:101-124 | for every frontier, a block ends with the fold from the old output of the nearest stale block on its path, or from the block the path starts on |
| Handover.AnchorIsNearest | snow/statesync.go:101-124 | that block is the highest stale one of the path |
| Handover.DiffersFromRootFold | snow/statesync.go:101-124 | it ends with anything but the fold from the start of its path if and only if that fold fails and the one from a stale block does not |
| Handover.StaleOutputSpreads | snow/statesync.go:120-123 | a frontier in which a stale block makes an invalid descendant verified |
| Handover.SortByHeight | snow/statesync.go:85-99 | lists every processing block once, lowest first |
| VMs.VM.GetBlock | snow/vm.go:412-437 | processing blocks first, then accepted ones, then stored ones as unverified inputs |
| VMs.VM.VerifyProcessingBlocks | snow/statesync.go:81-138 | every processing block ends with its final status and the unresolved set is exact; it fails exactly when a parent cannot be fetched |
| VMs.VM.ReprocessFromOutputToInput | snow/chain_index.go:101-130 | ends by height difference with the folded output and the last of the accepted forms along the stored blocks, or null exactly when a block is missing or a step refuses |
| VMs.VM.SetLastAccepted | snow/vm.go:390-397 | makes any block, processing no more, the last accepted one, also where parents are looked up |
| VMs.VM.StartStateSync | snow/statesync.go:30-37 | the target becomes the last accepted block as an input only, and the node is not ready; one step of the lifecycle |
| VMs.VM.Verify | snow/block.go:193-283 | a block joins the processing ones vacuously while not ready, else verified on its parent or not at all; one step of the lifecycle |
| VMs.VM.Accept | snow/block.go:311-356 | a processing block becomes the last accepted one; a ready node refuses one that is not verified and changes nothing; one step of the lifecycle |
| VMs.VM.Reject | snow/block.go:404-418 | a block leaves the processing ones; one step of the lifecycle |
| VMs.VM.FinishStateSync | snow/statesync.go:41-79 | succeeds if and only if the node was not ready, every parent can be fetched and reprocessing goes through; the last accepted block gets the synced state and accepted form, reprocessed to the tip; every processing block gets its final status; the node is ready; one step of the lifecycle |
| VMs.VM.FormAlong | snow/statesync.go:52-75 | the accepted form that the last accepted block gets is the last of those that accepting the stored blocks one by one gives |
| Lifecycle.FinalIsRight | snow/statesync.go:81-124 | re-verification gives every processing block on the last accepted one the status that verifying from genesis gives |
| Lifecycle.StepKeeps | snow/block.go:193-418 | verifying, accepting, rejecting, evicting, starting and finishing state sync keep every verified output true |
| Lifecycle.ReadyMeansVerified | snow/block.go:62-70 | in every run, through any number of state syncs, a ready node has a verified last accepted block with its true output, and accepts a processing block if and only if it and everything below it is valid |
| Lifecycle.TakesExactlyValidChildren | snow/block.go:193-356 | a ready node can issue any new child of its last accepted block, takes it in if and only if it is valid and its subscribers agree, and can then accept it with its true output |
| Lifecycle.RejectsAndEvicts | snow/block.go:404-418 | any processing block can be rejected and is then gone, and any accepted block but the last can leave the cache, with nothing else changed |
| Pools.AddedAllWithin | internal/mempool/mempool.go:114-149 | adding any items keeps the pool within its size and sponsor limits, without repeats or streamed items |
| Pools.AddedInOrder | internal/mempool/mempool.go:114-149 | exactly the items are queued that there is room for on top of those kept before them: at the back in their order, at the front each before the last |
| Pools.AllAdded | internal/mempool/mempool.go:114-149 | distinct new items that fit together are all queued as they come |
| PoolConservation.TopConserves | internal/mempool/mempool.go:250-283 | iterating ends with exactly the initial items minus those dropped on purpose; no restored item is lost to a limit |
| PoolConservation.Popped | internal/mempool/mempool.go:250-283 | iteration goes on while the callback says so and no further |
| PoolConservation.ChosenPicks | internal/mempool/mempool.go:250-283 | what is restored is what the callback asks for, item by item, in order |
| PoolConservation.StreamingConserves | internal/mempool/mempool.go:285-342 | in every streaming session each streamed item is in exactly one of handed out, prefetched or lost, and none is lost if and only if every prefetch is consumed before the next |
| PoolConservation.StreamsInOrder | internal/mempool/mempool.go:302-342 | first in, first out: over every session in which nothing is removed or overwritten, handed out, prefetched and queued items are in this order the queue at the start and what came in since |
| PoolConservation.NextHandsOut | internal/mempool/mempool.go:315-342 | a request gets the prefetch, or as many items as asked for if there are |
| PoolConservation.SessionStarts | internal/mempool/mempool.go:292-298 | a session starts with nothing streamed |
| Mempools.Mempool.AddItems | internal/mempool/mempool.go:114-149 | ring, heap, sponsor counts and size stay consistent, the heap holds exactly the ring's elements, and exactly the items there is room for are queued, in order |
| Mempools.Mempool.PopNext | internal/mempool/mempool.go:179-189 | splices the first element out of the ring and takes it out of heap and counts |
| Mempools.Mempool.Remove | internal/mempool/mempool.go:192-208 | splices the elements the heap knows the given items by out of the ring and skips unknown ones |
| Mempools.WithoutAllPicks | internal/mempool/mempool.go:192-208 | what is left are the items whose ID is none of the given ones', in order |
| Mempools.Mempool.SetMinTimestamp | internal/mempool/mempool.go:230-247 | splices the elements the heap gives up out of the ring and returns exactly the items that expire before `t` |
| Mempools.Mempool.Top | internal/mempool/mempool.go:250-283 | pops while the callback goes on and restores what it asks for |
| Mempools.Mempool.StartStreaming | internal/mempool/mempool.go:292-298 | clears the streamed set |
| Mempools.Mempool.StreamItems | internal/mempool/mempool.go:331-342 | pops up to `count` items and records their IDs as streamed |
| Mempools.Mempool.PrepareStream | internal/mempool/mempool.go:302-311 | prefetches, overwriting an earlier prefetch |
| Mempools.Mempool.Stream | internal/mempool/mempool.go:315-329 | hands out the prefetch if there is one, else the next items |
| Mempools.Mempool.FinishStreaming | internal/mempool/mempool.go:346-368 | restores the given items and an unconsumed prefetch, as far as limits allow, and ends the session |
| BuildLedger.BatchSettles | chain/builder.go:198-338 | when the executor is done with a batch, in any interleaving and after any error, every transaction is in the block, restorable or dropped by its checks, exactly one of them, and none is pending without an error |
| BuildLedger.LedgerReasons | chain/builder.go:203-321 | in every run a transaction is dropped if and only if its checks refused it, and restored if and only if it failed or did not fit what was left of the block |
| BuildConservation.SortOut | chain/builder.go:159-186 | what is run, what is put back from the size target on and what is dropped as a repeat or malformed make up the batch |
| BuildConservation.AmongPicks | chain/builder.go:162-186 | those are picked by their positions, in order |
| BuildConservation.BatchConserves | chain/builder.go:198-338 | the items of a batch are, with repetitions, those in the block, those put back and those dropped |
| BuildRounds.BuildBalanced | chain/builder.go:137-351 | over every build, whatever others do to the pool meanwhile, each streamed item is in exactly one of block, restorable, dropped or still prefetched, and no prefetch is ever overwritten |
| BuildRounds.BuildTxs | chain/builder.go:323-327 | the items counted as in the block are the transactions of the built block, in its order |
| BuildRounds.DroppedExactlyIfGivenUp | chain/builder.go:162-270 | over every build an item is dropped if and only if some round met it before the size target as a repeat or malformed, or ran it and its checks refused it |
| BuildRounds.FinishRestores | internal/mempool/mempool.go:346-368 | items that all come from a pool within its limits are all accepted back, an unconsumed prefetch too |
| BuildRounds.BuildConserves | chain/builder.go:332-360 | over every build with no insertion meanwhile, pool, block and dropped items afterwards are together what the pool held before, less what others removed; a failed build returns its block to the pool |
| Fetcher.Registers | internal/fetcher/fetcher.go:154-174 | what a fetch does to each key, repetitions included |
| Fetcher.Releases | internal/fetcher/fetcher.go:109-124 | each blocked transaction counts down by its occurrences and is closed on reaching zero |
| Fetcher.StepKeeps | internal/fetcher/fetcher.go:79-191 | every step keeps keys read at most once, blocked lists exact and waiters closed once |
| Fetcher.ReleasedReadsParent | internal/fetcher/fetcher.go:197-230 | in every run no key is read twice, no waiter closes twice, and a released transaction gets exactly the parent state at its keys |
| Fetcher.FailedExactlyIf | internal/fetcher/fetcher.go:79-107 | in every run the prefetcher has failed if and only if it was stopped, a read failed or a value was too large; a missing key is no failure |
| Fetcher.AllReleased | internal/fetcher/fetcher.go:109-124 | in every run without a failure, once no read is left every transaction is released |
| Fetcher.BlockersAreOccurrences | internal/fetcher/fetcher.go:143-181 | in every run the blockers of a transaction are its occurrences in the blocked lists, with repetitions |
| Prefetching.FetchedIsPrefetched | internal/fetcher/fetcher.go:197-230 | in every run a released transaction gets the storage that the execution results take for prefetched: equal at its declared keys, and no operation on its view can tell them apart |

## Left out

- API servers, gossip, CLI, metrics, tracing, pubsub, indexers, load testing: input and output around the engine.
- Signatures, codecs and the trie: cryptography and encoding; IDs are modelled as determining contents.
- Clocks, disks, networks and worker counts: times, fetched blocks, read failures and scheduling are arbitrary inputs or steps.
- 64-bit overflow of timestamps, heights and counters: unbounded integers, except for balances, units and fees, whose checks, saturation and wrap-around are modelled.
- Storage errors inside a view or while the builder reads keys: a read of the parent state always answers, with a value of valid size. The code fails the build on such an error and drops the transaction that met it.
- The queue in which accepted blocks are processed asynchronously, parsed-block caching and the P-Chain context check.
- Lifecycle.StepKeeps: a `FinishStateSync` that fails is no step; it leaves the node not ready.
- VMs.VM.Accept: the class keeps accepted blocks; their eviction from the cache is a step in `Lifecycle.dfy` only.
- The bucket pointer shared by the expiry map and its heap: a heap entry refers to its bucket by time.
- Go's `container/heap` and `slices` are part of the model as loops of their own, cited at the methods that call them.
- fees/set.go and MaxFee: they make no promise that execution relies on.
- TState.TStateView.Rollback: requires a position inside the log, as every caller passes one.
- FeePrice.PriceMonotone: one direction only; where a product wraps, the divisions after it can hide the wrap and the price stay monotone.
- Syncer.SyncedWindowCovers: says nothing of a sync ended from outside by `Close`, which promises nothing.
- BuildRounds.BuildConserves: with insertions meanwhile, items put back may no longer fit; `BuildRounds.BuildBalanced` still says where each one is when the build ends.
- Mempools.Mempool.FinishStreaming: items that no longer fit because others came in meanwhile are dropped, as in the code.
