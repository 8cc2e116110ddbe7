# Verified models of the desktop and backend cores

MiniCode is a coding assistant with a Python backend and an Electron shell. This
project models the parts of it whose correctness is hardest to see from any one
function: two protocols that serialize file mutations, the updater's record and
handshake, the code cells that run scripts beside the agent, layered
configuration and requirements, and a few buffers and lists. What the program
changes step by step is a state machine with one function for each event, a class
whose methods have the effect of these events, and theorems over every run.

| file | models |
|---|---|
| `FileMutationQueues.dfy` | the promise-chain queues of `desktop/utils.js` |
| `MutationLocks.dfy`, `LockTables.dfy`, `LockGuarantees.dfy`, `LockDraining.dfy` | the reference-counted, two-phase locks of `backend/atomic_io.py`, over threads and processes |
| `NestedLocks.dfy` | which nestings of these locks can deadlock |
| `UpdateHealth.dfy` | the persisted health record of `desktop/updater.js`, over restarts, lost writes and crashes |
| `UpdateInstall.dfy`, `InstallRuns.dfy` | its activity handshake, preflight and install transaction |
| `CodeStore.dfy`, `CodeCells.dfy`, `CodeVerdicts.dfy`, `CodeProgress.dfy`, `CodeCellHost.dfy`, `CodeOutputs.dfy` | code cells: script VM, host loop, key/value store, output lists shared by cells and receipts |
| `Json.dfy`, `ConfigLayers.dfy`, `ConfigPaths.dfy`, `ConfigDictionary.dfy` | layered merging and provenance |
| `ShellPolicy.dfy` | acceptance of shell environment policies, and that merging keeps it |
| `Requirements.dfy`, `RequirementPaths.dfy`, `RequirementNormalization.dfy`, `RequirementAcceptance.dfy`, `RequirementComposition.dfy`, `RequirementTables.dfy` | requirement composition |
| `Pty.dfy`, `PtyOperations.dfy`, `PtyHost.dfy` | terminal sessions |
| `Search.dfy`, `BoundedStream.dfy`, `Newlines.dfy`, `History.dfy` | search scoring, bounded reads, newline rewriting, provider history |
| `Wrappers.dfy`, `SortedKeys.dfy`, `StableSort.dfy` | shared vocabulary |

Canonical paths, identifiers and version order are abstract keys. Case folding,
trimming, `str()`, path resolution and provider normalization are parameters: the
theorems hold for every function in their place, or say what they need of it
(`ResolvesOnce`, `Lawful`). Clocks, windows, process exits, write failures and
what a script does are inputs of the events.

## Where the code falls short of what it promises

Each of these is a concrete run or input, next to the exact condition under which
the promise holds.

- `markHealthy` does not look at the version, and a boot whose record was not
  saved leaves no trace. So the previous version, started by hand, can record an
  update as healthy after its only boot died, and a second boot of the update can
  (`UpdateRecordedHealthyWithoutHealthyBoot`, `UpdateRecordedHealthyBySecondBoot`).
  A process for which it takes effect is the update's first boot exactly if it runs
  the pending version and no earlier boot of that version lost its write
  (`HealthyFromFirstBootIff`), and after a boot died, further boots can turn the
  update healthy exactly if its write was lost
  (`DeadBootTurnsHealthyIffItsWriteWasLost`).
- Sorted acquisition alone does not exclude deadlock. Blocks on some keys may be
  nested in blocks on others, whatever else runs unnested, exactly if the outer
  block has no keys or has all the keys of the inner one
  (`DeadlockIffNestingOnOtherKeys`); one nested block is enough
  (`NestingOnOtherKeysDeadlocks`).
- Clearing one timer while a tool is awaited can end the whole cell as cancelled,
  although nobody stopped it (`ClearTimeoutCanCancelTheCell`). The wait that follows
  a packet can do so exactly if the packet makes the host wait while a timer is
  being cancelled, that is, a `clearTimeout` hit it while it slept in the host and
  it has not come to an end since (`PacketCancelsIff`).
- Origins are keyed by dotted names, so a quoted key with a dot can be given the
  origin of another path (`DottedKeyGetsWrongOrigin`, `OriginIsLastLayerIff`).
- An explicit null in a requirement layer passes validation and drops what lower
  layers denied (`NullDropsLowerDenials`, `DiscardsOnlyByNull`); hooks are dropped
  by a null too, and by anything but an array for the event (`DiscardsEventIff`).
- Data events reproduce a terminal's output exactly if there always was a window
  to send them to (`EventsTileIffAlwaysSent`).
- A saved provider profile comes first exactly if nothing stored claims a later
  time (`SavedComesFirstIff`).

## Model

| member | source | states |
|---|---|---|
| `FileMutationQueues.MutualExclusion` | desktop/utils.js:106-131 | In every run, two calls made with a common key are never both inside `operation()`, whatever order and repetition their paths come in. |
| `FileMutationQueues.ReservesWhatWasAsked` | desktop/utils.js:106-117 | In every run, the registered operations are the calls whose registration ran, in that order, each with its own ticket and exactly the keys it was called with; read off the events alone. |
| `FileMutationQueues.RegisterReservesEveryKey` | desktop/utils.js:107-117 | A registration reserves exactly the given keys for the oldest waiting call and leaves every earlier reservation alone. |
| `FileMutationQueues.EntryFollowsCallOrder` | desktop/utils.js:106-123 | In every run, operations that were called with a common key start in the order of their calls, across every deletion and re-creation of the key's tail. |
| `FileMutationQueues.StartsExactlyBehindItsPredecessors` | desktop/utils.js:120-123 | A waiting operation may start if and only if every earlier one that was called with a common key has finished; nothing else delays it. |
| `FileMutationQueues.ResolvedIffPredecessorsFinished` | desktop/utils.js:110-121 | The promise awaited for a key has settled exactly when every earlier operation on the key is finished, although it was found through a map whose entries come and go. |
| `FileMutationQueues.MapHoldsExactlyUnfinishedKeys` | desktop/utils.js:114-130 | A key is in the map if and only if an unfinished operation was called with it. |
| `FileMutationQueues.OldestCanProceed` | desktop/utils.js:120-131 | The oldest unfinished operation is inside or free to start. |
| `FileMutationQueues.EveryRunCanDrain` | desktop/utils.js:106-131 | Every run can be continued by starts and finishes alone to a state where all operations are finished and the map is empty. |
| `FileMutationQueues.StepKeeps` | desktop/utils.js:106-131 | Every event keeps the chain, order and ticket invariants behind these results. |
| `FileMutationQueues.MutationQueues.Register` | desktop/utils.js:107-117 | The registration callback, a loop over the sorted keys, adds one operation on exactly the given keys, and has the effect of the registration event on map, chains and ticket queue. |
| `FileMutationQueues.MutationQueues.Enter` | desktop/utils.js:120-123 | Awaiting the found queues one by one starts the operation, under the invariant, if and only if every earlier operation that shares a key with it has finished. |
| `FileMutationQueues.MutationQueues.Finish` | desktop/utils.js:124-130 | The two loops of the `finally` block, in their order, release all reservations and delete exactly the tails that are still this operation's own. |
| `LockGuarantees.UsersCountContexts` | backend/atomic_io.py:103-138 | In every interleaving an entry's `users` is the number of contexts in flight naming it, and is positive if and only if the entry is the registered one. |
| `LockGuarantees.ContextsShareEntries` | backend/atomic_io.py:105-117 | Concurrent contexts of one process that have registered the same key hold the same entry, hence the same lock object. |
| `LockGuarantees.ThreadLocksExclude` | backend/atomic_io.py:122-124 | A thread lock is only ever held by contexts of one thread. |
| `LockGuarantees.MutualExclusion` | backend/atomic_io.py:94-128 | Over all threads and processes, two blocks opened on paths with a common key run their bodies together only when one thread nests them. |
| `LockGuarantees.StaysOn` | backend/atomic_io.py:97-104 | In every run, a block in flight is of the thread, and on exactly the keys, that it was opened with. |
| `LockGuarantees.WasOpened` | backend/atomic_io.py:97-104 | In every run, every block in flight was opened by one event, for the keys it holds. |
| `LockGuarantees.RestIsClean` | backend/atomic_io.py:129-138 | With no context in flight the registry is empty and no lock of either kind is held, after aborted acquisitions too. |
| `LockGuarantees.AsksAboveWhatItHolds` | backend/atomic_io.py:119-128 | What a context waits for is above everything it holds, by phase first and key second. |
| `LockGuarantees.WaitsForHigher` | backend/atomic_io.py:119-128 | A waiting context waits for a thread whose running context can move, or itself waits for a higher lock. |
| `LockGuarantees.NoDeadlock` | backend/atomic_io.py:94-128 | While any context is in flight and every block nested in one with keys names only keys its thread already holds, some context in some process can take its next step. |
| `LockDraining.EveryRunCanDrain` | backend/atomic_io.py:94-138 | From every reachable state with disciplined nesting, the blocks in flight can all be run to their end by their own steps, after which the registry is empty and no lock of either kind is held. |
| `LockDraining.AbortedBlockGoes` | backend/atomic_io.py:119-138 | A block whose acquisition raises can always be cleaned up by its own steps, whatever it had acquired and whatever others hold, and no other block is touched. |
| `LockGuarantees.NestedNeverWaits` | backend/atomic_io.py:97-98 | A block nested in a block of its own thread on the same keys never waits. |
| `NestedLocks.DeadlockIffNestingOnOtherKeys` | backend/atomic_io.py:94-128 | For all sets of outer and inner keys: some run whose only nesting is of a block on the inner in one on the outer keys ends in deadlock if and only if the outer block has keys and lacks one of the inner ones. |
| `NestedLocks.NestingOnOtherKeysDeadlocks` | backend/atomic_io.py:103-128 | For any threads and keys, one nested block on a key that its thread does not hold, together with two unnested blocks, reaches a state in which nothing can move. |
| `MutationLocks.StepKeeps` | backend/atomic_io.py:103-138 | Every micro-step of every context keeps the registry, lock, file and nesting invariants. |
| `LockTables.LockTable.RegisterKeys` | backend/atomic_io.py:105-117 | The registration loop is one step for each key and registers them all. |
| `LockTables.LockTable.Acquire` | backend/atomic_io.py:122-127 | One acquisition of either kind succeeds exactly when the lock is free for the thread. |
| `LockTables.LockTable.Release` | backend/atomic_io.py:129-138 | The `finally` block, from whatever was acquired, is a run of release and cleanup steps after which the context is gone and every other one untouched. |
| `UpdateHealth.RecordsStayConsistent` | desktop/updater.js:382-476 | In every run of boots, downloads, installs, lost writes, crashes and rollbacks, on disk and in memory, `boot_attempts` is the one its status stands for, and whatever is installing, booting, healthy or to be recovered has a pending version and a recorded backup. |
| `UpdateHealth.HealthyFromFirstBootIff` | desktop/updater.js:718-726 | In every run, a process for which `markHealthy` takes effect is the first boot of the update since its installation was recorded if and only if it runs the pending version and no earlier boot of that version lost its write. |
| `UpdateHealth.UpdateRecordedHealthyWithoutHealthyBoot` | desktop/updater.js:718-734 | A concrete run that records version 2 healthy from a process of version 1, after the only boot of version 2 died. |
| `UpdateHealth.UpdateRecordedHealthyBySecondBoot` | desktop/updater.js:386-401 | A concrete run that records version 2 healthy from its second boot, the first having died before its record was saved. |
| `UpdateHealth.DeadBootTurnsHealthyIffItsWriteWasLost` | desktop/updater.js:386-401 | In every run, when a boot of the pending version dies, some further boots of that version record it healthy if and only if what the dead boot wrote was lost. |
| `UpdateHealth.RolledBackExactlyByThePreviousVersion` | desktop/updater.js:402-413 | The record turns `rolled_back` if and only if the previous version boots on a recovery record and its write succeeds. |
| `UpdateHealth.InstallIsRecorded` | desktop/updater.js:681-693 | An installation that was saved and launched is on disk and in memory, from the running version to the downloaded one, with its backup. |
| `UpdateHealth.FailedInstallIsUndone` | desktop/updater.js:696-712 | If saving or launching fails, the update stays ready in memory, and on disk is what was there unless one of the two writes was saved. |
| `UpdateHealth.RetryInstallsTheSame` | desktop/updater.js:681-712 | A failed attempt makes no difference to what a later one does. |
| `UpdateHealth.RollbackEndsTheProcessIff` | desktop/updater.js:332-380 | A rollback ends the process if and only if there is something to recover, the record was saved and the backup was started. |
| `UpdateHealth.RollbackSettles` | desktop/updater.js:332-413 | The previous version, booted by a rollback, records it as rolled back. |
| `UpdateHealth.Updater.BeginBootHealthCheck` | desktop/updater.js:382-415 | The branches of the boot check are the boot event. |
| `UpdateHealth.Updater.CommitInstall` | desktop/updater.js:681-712 | Committing, and the catch block when the write or the launch raises, leave record and disk as the event says; installed only if both succeed. |
| `UpdateHealth.Updater.LaunchRollback` | desktop/updater.js:332-380 | A rollback saves the record, and quits only if the previous version was started. |
| `InstallRuns.QuitsIffTwoQuietMoments` | desktop/updater.js:638-716 | In every run there is at most one `quitAndInstall`, and there has been one if and only if two preflights of one transaction, before and after its backup, found the same update ready, the activity valid, fresh and empty, the runtime ready and no terminal running, and the installation was asked for with the fingerprint of such a moment; all said of the process's own variables at those two events. |
| `InstallRuns.FirstPreflightPassesIff` | desktop/updater.js:638-648 | Once its activity request is answered, the preflight before the backup lets it begin if and only if the moment is quiet and fingerprinted; otherwise the transaction ends and the lock is free. |
| `InstallRuns.SecondPreflightQuitsIff` | desktop/updater.js:644-716 | The preflight after the backup leads to the quit under the same condition, if the launch works; otherwise the transaction ends and the lock is free. |
| `UpdateInstall.ReportAcceptedIff` | desktop/updater.js:564-600 | A report replaces the snapshot and makes the activity valid if and only if it is well-formed, of no retired renderer, and newer than what its renderer reported before; a replaced renderer is retired. |
| `UpdateInstall.AnswersTruly` | desktop/updater.js:544-600 | A pending request that a report names is answered with whether the report counted, and no other request is answered. |
| `UpdateInstall.RefusalsAreFalse` | desktop/updater.js:554-562 | Invalidating refuses every pending request, a timeout its own, and both leave the activity invalid. |
| `UpdateInstall.NormalizeMeaning` | desktop/updater.js:40-82 | A report is a snapshot if and only if it has a revision, a renderer, a readiness and six lists of at most 1000 usable identifiers; the snapshot has the same, sorted and without repetitions. |
| `UpdateInstall.AllowedExactlyWhenQuiet` | desktop/updater.js:122-206 | A preflight allows the installation if and only if everything it looks at is quiet. |
| `UpdateInstall.NormalizeIsStable` | desktop/updater.js:40-82 | Normalizing an accepted snapshot again returns it, so a preflight never finds an accepted snapshot malformed. |
| `UpdateInstall.ValidActivityHasSnapshot` | desktop/updater.js:554-600 | In every run an empty invalid reason implies an accepted snapshot, the snapshot is never one of a retired renderer, and at most 32 renderers are remembered. |
| `UpdateInstall.RequestsAnsweredOnce` | desktop/updater.js:544-620 | In every run an activity request has no answer while it is pending and exactly one afterwards, through reports, invalidation or timeout. |
| `UpdateInstall.RevisionsIncrease` | desktop/updater.js:84-94 | A report that replaces the snapshot of the same renderer has a higher revision. |
| `UpdateInstall.BuildUpdatePreflight` | desktop/updater.js:122-206 | The check list built step by step is the specified preflight. |
| `UpdateInstall.CheckActivity` | desktop/updater.js:146-171 | The checks of a valid snapshot are readiness, freshness and one for each field, in order. |
| `UpdateInstall.StepKeeps` | desktop/updater.js:544-716 | Every event keeps the activity and install invariants. |
| `UpdateInstall.ActivityMonitor.UpdateActivity` | desktop/updater.js:564-600 | All outcomes of a report (malformed, retired renderer, stale revision, accepted from the same or a new renderer) leave exactly the specified state and answers. |
| `UpdateInstall.ActivityMonitor.SettleActivityRequests` | desktop/updater.js:544-552 | Answers exactly the listed requests that are pending, once each even if listed twice. |
| `UpdateInstall.ActivityMonitor.RejectPendingRequests` | desktop/updater.js:557-561 | Refuses every pending request and leaves none. |
| `UpdateInstall.ActivityMonitor.RetireRenderer` | desktop/updater.js:578-581 | Remembers the replaced renderer and forgets the oldest ones beyond the limit. |
| `CodeCells.RequestsRunAndAnswerAtMostOnce` | backend/agent/code_execution.py:142-184 | In every interleaving each tool request enters at most one batch, batches hold at most ten, only issued requests are submitted, and each is answered at most once. |
| `CodeCells.DiscardedCallsAreExact` | backend/agent/code_execution.py:203-207 | The VM's table is always what was issued and not delivered, so `discarded_calls` of a finished cell is exact. |
| `CodeVerdicts.VerdictIff` | backend/agent/code_execution.py:186-261 | In every run and for every verdict: the cell has it if and only if some event ended the running cell under that verdict's own condition, and no later event changes it. |
| `CodeVerdicts.VerdictsAreTrue` | backend/agent/code_execution.py:203-207 | In every run a completed cell's script came to its end and never with an error, and a failed one's came to an end with an error. |
| `CodeVerdicts.StepEndsIff` | backend/agent/code_execution.py:186-261 | One event ends a running cell with a verdict exactly under that verdict's condition on packet, marks, tasks and timers. |
| `CodeVerdicts.MarkedIffFinished` | backend/agent/code_execution_vm.js:83-92 | The VM's two marks say exactly whether the script came to an end in the run, and whether with an error. |
| `CodeCells.UnresolvedOnlyWhenNothingCanSettle` | backend/agent/code_execution.py:223-226 | The unresolved-promise verdict is reached only with every call answered and delivered, no reply queued and no timer of the VM left. |
| `CodeProgress.EveryWaitCanEnd` | backend/agent/code_execution.py:223-240 | In every run a waiting host loop can go on by its own tasks alone: it never waits for something that cannot come. |
| `CodeProgress.ResumeIs` | backend/agent/code_execution.py:226-240 | A wait that no failure ends delivers every queued reply, each out of its table, once a reply or the end of an awaited task is there, and stays otherwise. |
| `CodeProgress.PacketGoesOn` | backend/agent/code_execution.py:197-240 | A packet that does not end the cell is taken over, and then the VM runs on, gets every queued reply, is waited for with exactly the active timers, or is unresolved. |
| `CodeProgress.FailedTaskEndsTheCell` | backend/agent/code_execution.py:216-239 | A tool batch that fails ends the cell at the next look of the waiting loop. |
| `CodeProgress.TextWithinLimit` | backend/agent/code_execution_vm.js:10-17 | In every run the texts that a script gets out come to at most 1048576 characters. |
| `CodeCells.OutputReturnedOnceInOrder` | backend/agent/code_execution.py:97-137 | What the waits returned, the buffer and the VM's own list make up the emitted output once and in order, overall and for each kind of entry. |
| `CodeCells.StoreMirrorsStorage` | backend/agent/code_execution.py:196-202 | With one running cell the host store equals the VM's storage between packets, and its byte total is exact and within the limit. |
| `CodeCells.PacketCancelsIff` | backend/agent/code_execution.py:211-237 | For every executing cell: the wait that follows its packet can end the cell as cancelled if and only if the packet makes the host wait (store fits, script not done, no reply queued, no task failed) while a timer is being cancelled, which a `clearTimeout` hit while it slept. |
| `CodeCells.WaitEndsCancelledIff` | backend/agent/code_execution.py:224-233 | A wait can end that way, after any steps of its tasks, if and only if it awaits a timer that is being or has been cancelled and no task has failed. |
| `CodeCells.EndsCancelledIff` | backend/agent/code_execution.py:229-233 | The one step that ends a cell so is a wait without a reply that finds a cancelled timer among the awaited ones and no failed task. |
| `CodeCells.CancellingIff` | backend/agent/code_execution.py:211-215 | After a packet's requests a timer is being cancelled if and only if it was before, or a request cleared it while it slept, and no later request starts it again. |
| `CodeCells.OnlyClearTimeoutCancels` | backend/agent/code_execution.py:211-215 | A script that never clears a timer is never ended by a cancelled one, in any run. |
| `CodeCells.ClearTimeoutCanCancelTheCell` | backend/agent/code_execution.py:229-233 | A concrete run: clearing a timer while a tool is awaited ends the cell as cancelled, although nobody stopped it. |
| `CodeCells.StepKeeps` | backend/agent/code_execution.py:186-261 | Every event of script, host tasks and host loop keeps the ledger, timer, book, output, storage and verdict invariants. |
| `CodeCellHost.CodeVM.Emit` | backend/agent/code_execution_vm.js:10-17 | Raises exactly when the text limit is passed, having counted the text already. |
| `CodeCellHost.CodeVM.Request` | backend/agent/code_execution_vm.js:18-27 | Numbers, records and queues a tool request. |
| `CodeCellHost.CodeVM.Deliver` | backend/agent/code_execution_vm.js:95-104 | The delivery loop takes each reply out of its table, whether or not the script is done. |
| `CodeCellHost.CodeVM.Drain` | backend/agent/code_execution_vm.js:108-112 | Hands over the lists and leaves empty ones, pending calls untouched. |
| `CodeCellHost.RunningCell.OnPacket` | backend/agent/code_execution.py:197-240 | One turn of the host loop: it ends the cell with a verdict exactly under that verdict's condition, and otherwise takes the packet over, delivers or waits. |
| `CodeCellHost.RunningCell.StartTimers` | backend/agent/code_execution.py:211-215 | The request loop starts and cancels timer tasks in request order. |
| `CodeCellHost.RunningCell.ReapJobs` | backend/agent/code_execution.py:216-219 | Removes the finished dispatch tasks and notices a failed one. |
| `CodeCellHost.RunningCell.SubmitBatch` | backend/agent/code_execution.py:145-155 | The next ten requests of a dispatch task become one batch. |
| `CodeOutputs.ReturnedOnceInOrder` | backend/agent/code_execution.py:97-126 | In every run of executions, output, completions, turns and waits, what the waits for a cell return, put together in their order and followed by what is left, is what that cell put out; and a cell that was started stays known. |
| `CodeOutputs.NothingLost` | backend/agent/code_execution.py:97-126 | The same from any state of the cells' outputs, for each cell. |
| `CodeOutputs.RunningStep` | backend/agent/code_execution.py:70-90 | A cell runs from its execution, which needs fewer than four running ones, until it finishes or the turn ends. |
| `CodeOutputs.AtMostFourRun` | backend/agent/code_execution.py:70-90 | In every run at most four cells run at a time, and every other known one has its receipt. |
| `CodeOutputs.AccountsAreHistories` | backend/agent/code_execution.py:97-126 | The accounts say what the run put out and what its waits returned. |
| `CodeOutputs.CodeExecutionRuntime.Execute` | backend/agent/code_execution.py:70-90 | A new cell gets a list that no other cell has, unless four cells are running; seen from outside, its output is empty and all others are as before. |
| `CodeOutputs.CodeExecutionRuntime.Append` | backend/agent/code_execution.py:198 | Output of a running cell goes to that cell alone. |
| `CodeOutputs.CodeExecutionRuntime.Finish` | backend/agent/code_execution.py:257-261 | The receipt shares the cell's own list, and nobody's output changes. |
| `CodeOutputs.CodeExecutionRuntime.NextTurn` | backend/agent/code_execution.py:263-270 | A new turn has no live cells, while the receipts keep every cell's output. |
| `CodeOutputs.CodeExecutionRuntime.Wait` | backend/agent/code_execution.py:97-126 | Through the live cell or its receipt, a wait returns what is left of that cell's output, and no other cell's output changes. |
| `CodeStore.PutKeeps` | backend/agent/code_execution_store.py:26-33 | A put that fits keeps the byte total equal to the sum of the entry sizes and within 8 MiB. |
| `CodeStore.PutAllKeeps` | backend/agent/code_execution_store.py:26-33 | A packet's updates keep the accounting even when one is refused; if all fit, the values are those of the plain map. |
| `CodeStore.PutAllSucceedsIff` | backend/agent/code_execution_store.py:26-33 | A packet's puts all succeed if and only if no prefix of them takes the encoded pairs past 8 MiB. |
| `CodeStore.FitsIff` | backend/agent/code_execution_store.py:26-33 | A put succeeds if and only if the pairs there would be then come to at most 8 MiB. |
| `CodeStore.TotalUpdated` | backend/agent/code_execution_store.py:26-33 | The incremental total is the sum, for new and for replaced keys. |
| `CodeStore.CodeExecutionStore.PutOne` | backend/agent/code_execution_store.py:26-33 | Succeeds if and only if the pairs there would be then are within 8 MiB; all three fields change together or none does. |
| `CodeStore.CodeExecutionStore.PutUpdates` | backend/agent/code_execution.py:201-202 | The loop stops at the first put that raises. |
| `ConfigLayers.EveryLeafHasItsTrueOrigin` | backend/config_layers.py:206-304 | For any list of ordinary layers whose keys have no dot, every leaf of the effective configuration has an origin, it is the last layer containing the path, and that layer's value is the effective one. |
| `ConfigPaths.EffectiveLeafIff` | backend/config_layers.py:206-218 | For any layers and any path with at most the top-level shell policy on it: a value is a leaf of the effective configuration if and only if some layer provides it there and every later layer leaves it alone, that is, has nothing there or across it and does not displace or respell it. |
| `ConfigPaths.MergeLeafIff` | backend/config_layers.py:587-659 | One merge: every leaf is the incoming layer's, or the lower one where the incoming layer leaves it alone; nothing is lost and nothing else appears. |
| `ConfigPaths.MergeOverlays` | backend/config_layers.py:587-597 | Where no shell policy is on the way, the merged value is the incoming leaf, nothing if something other than a table cuts the path off, and otherwise the lower value; tables stay tables. |
| `ConfigPaths.ShellOverlays` | backend/config_layers.py:622-659 | Inside a shell policy the same, less what a filter table or a legacy array displaces. |
| `ConfigPaths.FiltersOverlay` | backend/config_layers.py:640-652 | The last incoming spelling of a pattern wins and evicts all others; without one the lower filter stays. |
| `ConfigLayers.OriginIsLastLayerIff` | backend/config_layers.py:695-705 | The reported origin of a path is the last layer containing it if and only if no later layer has another path with the same dotted spelling. |
| `ConfigLayers.OriginsAt` | backend/config_layers.py:301-304 | The origin of a dotted name is the last layer with any path so spelled; without one there is none. |
| `ConfigLayers.DottedKeyGetsWrongOrigin` | backend/config_layers.py:702-703 | A concrete pair of layers whose quoted key gets the wrong origin. |
| `ConfigLayers.JoinInjective` | backend/config_layers.py:702-703 | Dotted spelling is injective on paths whose keys have no dot. |
| `ConfigDictionary.Dictionary.Merge` | backend/config_layers.py:588-597 | The merge loop with its recursion into nested tables is the merge. |
| `ConfigDictionary.Dictionary.MergeShellPolicy` | backend/config_layers.py:622-659 | Displacement and then the loop over the incoming fields are the policy merge. |
| `ConfigDictionary.Dictionary.MergeFilterTable` | backend/config_layers.py:645-651 | Every pattern evicts all spellings of itself, then enters. |
| `ConfigDictionary.EffectiveConfig` | backend/config_layers.py:206-218 | The loop over the layers is the effective configuration. |
| `ConfigDictionary.OriginTable.Record` | backend/config_layers.py:695-705 | The recursive recording loop is the specified table. |
| `ConfigDictionary.LayerOrigins` | backend/config_layers.py:301-304 | The loop over the layers is the origin table. |
| `ShellPolicy.EffectivePolicyAccepted` | backend/runtime_env.py:193-299 | For any number of layers, if `from_mapping` accepts every layer's policy it accepts the effective one. |
| `ShellPolicy.MergeKeepsAccepted` | backend/config_layers.py:622-659 | Merging an accepted policy over an accepted one gives an accepted one. |
| `ShellPolicy.EffectiveFiltersAreExclusive` | backend/config_layers.py:626-638 | In the effective policy live filters never coexist with the legacy arrays, and their patterns are unique under case folding. |
| `ShellPolicy.MergedFilterIff` | backend/config_layers.py:645-651 | A lower pattern survives if and only if no incoming pattern is a spelling of it; an incoming pattern has the incoming action. |
| `ShellPolicy.FilterTablesMerge` | backend/config_layers.py:642-652 | Well-formed filter tables merge into a well-formed one. |
| `ShellPolicy.EnvironmentsMerge` | backend/config_layers.py:654-658 | Valid environment tables merge into a valid one. |
| `ShellPolicy.FromMapping` | backend/runtime_env.py:193-299 | Succeeds if and only if the policy is accepted, and then yields what the table means: from a filter table exactly the patterns of each action in table order, otherwise the texts of the two arrays, the table under `set`, and each flag at its own key or its default. |
| `ShellPolicy.WrittenMeansItself` | backend/runtime_env.py:193-299 | Every valid policy, written out with its arrays, is accepted, and means itself and nothing else. |
| `ShellPolicy.WrittenFiltersMeanThemselves` | backend/runtime_env.py:241-272 | Any patterns that differ beyond case can be written as a filter table, which is accepted and means just them. |
| `ShellPolicy.EntryOkIff` | backend/runtime_env.py:497-524 | An override is valid if and only if its name is one of a variable, by code points, of at most 128 characters, and its text has at most 32768 characters and none of them null. |
| `ShellPolicy.ReadFilters` | backend/runtime_env.py:249-272 | The loop with its set of seen folded patterns accepts exactly the well-formed filter tables and splits them by action. |
| `ShellPolicy.ReadEnvironment` | backend/runtime_env.py:497-524 | Accepts exactly the tables whose names and values are all valid. |
| `Requirements.ComposedDenyRead` | backend/config_requirements.py:865-893 | For any layers, nulls included, the composed `deny_read` is the order-preserving dedup of the lists of all layers since the last one that discarded it, from last to first. |
| `Requirements.ComposedEventList` | backend/config_requirements.py:865-906 | For any layers, a hook event's lists concatenate in that same order, since the last layer that discarded them. |
| `Requirements.AllDenyListsComposed` | backend/config_requirements.py:865-893 | Without explicit nulls every validated layer's list is in the composition, each entry once, last layer first. |
| `RequirementPaths.ComposedLeafIff` | backend/config_requirements.py:856-882 | For any layers, outside `deny_read` and hook events: a value is a leaf of the composition if and only if it is that of the last layer with anything there, and no later layer cuts the path off. |
| `RequirementPaths.LayerOverlays` | backend/config_requirements.py:856-906 | One layer overlays what is below it there, arrays replacing arrays. |
| `Requirements.DiscardsOnlyByNull` | backend/config_requirements.py:563-577 | A validated layer discards `deny_read` if and only if it has an explicit null at the list or at a table above it. |
| `Requirements.AllEventListsComposed` | backend/config_requirements.py:896-906 | A hook event that no validated layer drops has every layer's list in the composition, last layer first. |
| `Requirements.DiscardsEventIff` | backend/config_requirements.py:896-906 | A validated layer discards a hook event if and only if its hooks are null or it has anything but an array for the event. |
| `RequirementComposition.ComposedLayersDenyRead` | backend/config_requirements.py:345-372 | End to end: layers that all load compose, and the resulting `deny_read` is the dedup of their lists, each resolved in its own layer, from last to first since the last layer that discarded it. |
| `RequirementComposition.ComposedLayersEventList` | backend/config_requirements.py:345-372 | End to end: for layers that all load, a hook event's list is the concatenation of the raw layers' lists in the same order. |
| `RequirementComposition.NormalizeKeepsWellFormed` | backend/config_requirements.py:390-418 | Normalizing a well-formed layer gives a well-formed one. |
| `Requirements.NullDropsLowerDenials` | backend/config_requirements.py:563-577 | A concrete layer that passes validation and drops what a lower layer denied. |
| `Requirements.AccumulatedIsConcatenation` | backend/config_requirements.py:865-906 | Accumulating layer by layer is concatenating from last to first since the last discarding layer. |
| `Requirements.DedupKeepsFirstOccurrences` | backend/config_requirements.py:877 | Deduplicated entries stand in the order of their first occurrences, once each. |
| `Requirements.DedupOfDedup` | backend/config_requirements.py:877 | Deduplicating at every layer is deduplicating once at the end. |
| `RequirementNormalization.NormalizeIsIdempotent` | backend/config_requirements.py:390-418 | Normalizing a normalized layer gives it back, for every payload that is accepted and every resolver of paths that leaves absolute ones alone. |
| `RequirementNormalization.LoadingDoesNotChangeComposition` | backend/config_requirements.py:337-372 | Composing layers that were normalized when loaded, which normalizes them again, gives what composing the raw ones gives. |
| `RequirementNormalization.ComposesIffLoadable` | backend/config_requirements.py:345-372 | Composition fails exactly if some layer is rejected. |
| `RequirementNormalization.ComposeLayersMerges` | backend/config_requirements.py:345-372 | Composition merges the normalized layers in order. |
| `RequirementNormalization.DeniedPatternsWin` | backend/config_requirements.py:662-677 | A pattern of the legacy denied list is denied even if it is also allowed, and a pattern in neither list has no decision. |
| `RequirementNormalization.LegacySocketsAreAllowed` | backend/config_requirements.py:678-690 | Exactly what the legacy socket list names is allowed, and the list is gone. |
| `RequirementAcceptance.AcceptedIff` | backend/config_requirements.py:390-418 | As far as networks, hooks and `deny_read` go, a layer is accepted if and only if it has one network table at most, whose two spellings are not mixed and whose legacy lists can be iterated over, and hooks and permissions of the right shape. |
| `RequirementAcceptance.NormalizedKeyByKey` | backend/config_requirements.py:390-418 | An accepted layer keeps every key but the renamed ones, the network, the permissions and two lists, in which exactly the legacy value is replaced. |
| `RequirementAcceptance.ItemsMeaning` | backend/config_requirements.py:665-677 | What iterating over a legacy list visits, for every kind of value, and which kinds raise. |
| `RequirementTables.RequirementTable.DeepMerge` | backend/config_requirements.py:856-862 | The merge loop is the merge. |
| `RequirementTables.RequirementTable.Add` | backend/config_requirements.py:865-882 | Merging a layer in place, with both lists taken before the merge overwrites them, is the specified layer merge. |
| `RequirementTables.RequirementTable.CompileLegacyDomains` | backend/config_requirements.py:659-677 | The domain half of network normalization, with its errors, changing nothing when it fails. |
| `RequirementTables.CollectEventLists` | backend/config_requirements.py:896-906 | Each incoming event's list followed by the lower one. |
| `RequirementTables.UniqueInOrder` | backend/config_requirements.py:877 | `list(dict.fromkeys(...))` keeps first occurrences. |
| `RequirementTables.ComposeRequirements` | backend/config_requirements.py:345-355 | The loop over the layers composes them, or fails with the first rejected one. |
| `Pty.SnapshotsAreSlices` | desktop/pty-manager.js:396-419 | In every run, every snapshot is the slice of the session's whole output between its cursors, within the requested and the scrollback limit. |
| `Pty.SnapshotPlusEvents` | desktop/pty-manager.js:87-107 | A window that takes a snapshot and then receives the data events has exactly the output from the snapshot's start on, across truncations and clears, and no such event reaches back into the snapshot. |
| `Pty.EventsTileIffAlwaysSent` | desktop/pty-manager.js:87-107 | In every run the data events are ordered slices of the output without overlap, and reproduce all of it if and only if output never came without a window. |
| `Pty.LeavesOnlyAfterExit` | desktop/pty-manager.js:158-360 | In every run, with any kills in any stage, a session outside the table has settled its exit, alive and settled are opposites, and the live sessions stay within the limit. |
| `Pty.KillAnswersTruly` | desktop/pty-manager.js:315-360 | In every run, whoever is told that `killSession` succeeded finds the session settled and out of the table, whichever of the two waits or shared promises the answer came from. |
| `Pty.PruneKeepsTheNewest` | desktop/pty-manager.js:109-123 | Pruning keeps every live session, only recent exited ones, at most 24 of these, and none older than one it drops. |
| `Pty.PruneKeepsTwentyFour` | desktop/pty-manager.js:109-123 | Of the sessions that exited within half an hour exactly as many stay as there are, up to 24. |
| `PtyOperations.KillCanBeAnswered` | desktop/pty-manager.js:306-360 | In every reachable state every kill under way can be answered by its own steps alone, and truly: with whether the session has exited, unless its termination has given up already. |
| `PtyOperations.TaskMoves` | desktop/pty-manager.js:306-343 | How a termination goes on: an exit seen in either wait ends it well, the first timeout looks again and waits again, the second gives up. |
| `PtyOperations.ReturnIs` | desktop/pty-manager.js:344-360 | A call returns what its termination found, forgets the shared promise, and drops an exited session from the table. |
| `PtyOperations.StartKillIff` | desktop/pty-manager.js:329-354 | Only the owner can kill; the call joins the termination under way, or starts one unless the session has exited. |
| `PtyOperations.SpawnIff` | desktop/pty-manager.js:158-219 | A new session is added if and only if the manager is open, an owner is given, the limit is not reached and the process starts; otherwise the table is only pruned. |
| `PtyOperations.ClearIff` | desktop/pty-manager.js:430-443 | Clearing empties the scrollback of the owner's listed session and changes no other. |
| `PtyOperations.AcknowledgeIff` | desktop/pty-manager.js:389-394 | Acknowledging drops exactly the owner's session, and only an exited one. |
| `Pty.StepKeeps` | desktop/pty-manager.js:87-443 | Every event, each step of a termination included, keeps the session, table and kill invariants. |
| `PtyHost.PtySession.AppendOutput` | desktop/pty-manager.js:87-107 | Cursor, scrollback and the event sent are those of the specified append; empty text changes nothing. |
| `PtyHost.PtySession.TakeSnapshot` | desktop/pty-manager.js:396-419 | Reads the specified snapshot. |
| `PtyHost.PtyManager.Prune` | desktop/pty-manager.js:109-123 | Deleting expired sessions in one loop, sorting the others and deleting the surplus in a second loop is the specified pruning. |
| `PtyHost.PtyManager.Spawn` | desktop/pty-manager.js:158-219 | Adds a session exactly if the manager is open, an owner is given, the limit is not reached and the process starts. |
| `PtyHost.PtyManager.OnExit` | desktop/pty-manager.js:224-249 | Settles a listed session once, then prunes. |
| `PtyHost.PtyManager.Clear` | desktop/pty-manager.js:430-443 | Empties the owner's scrollback and keeps the cursor. |
| `PtyHost.PtyManager.StartKill` | desktop/pty-manager.js:329-354 | A kill of the owner's session joins the termination under way, starts one, or needs none because the session has exited. |
| `PtyHost.PtyManager.OnWaitTimesOut` | desktop/pty-manager.js:334-343 | The first timeout leads to a second wait, unless the session has exited meanwhile, and the second to a failure. |
| `PtyHost.PtyManager.FinishKill` | desktop/pty-manager.js:344-360 | Forgets the shared promise, and answers true and deletes the session exactly if the termination saw its exit, also when it had left the table already. |
| `PtyHost.PtyManager.Acknowledge` | desktop/pty-manager.js:389-394 | Deletes the session exactly if it is the owner's and not alive. |
| `StableSort.SortKeepsItems` | desktop/pty-manager.js:119 | Sorting keeps every item. |
| `StableSort.SortIsDescending` | desktop/pty-manager.js:119 | The sorted sequence is in descending order of its keys. |
| `StableSort.SortIsStable` | backend/config_helpers.py:1002 | Items with equal keys keep their order. |
| `Search.ScoreMatch` | desktop/ipc-handlers.js:69-105 | No match if and only if the query is not a subsequence of the path; otherwise the indices are the leftmost embedding, position by position, and the score is one point a character with the bonuses for word starts, neighbours and file name. |
| `Search.Scan` | desktop/ipc-handlers.js:76-97 | The greedy loop finds the leftmost embedding or proves that there is none. |
| `Search.LeftmostIsUnique` | desktop/ipc-handlers.js:79-93 | There is only one leftmost embedding, so the specification fixes the indices. |
| `BoundedStream.ReadBounded` | backend/subprocesses.py:292-325 | For any arrivals: the whole stream exactly if it fits the cap, otherwise a failure with the first `cap` bytes; never more than the cap retained, at least one byte requested each time, and no more than one byte read past the cap. |
| `Newlines.NormalizeIsIdempotent` | backend/atomic_io.py:279-281 | Normalizing twice is normalizing once. |
| `Newlines.NormalizeIsUniversal` | backend/atomic_io.py:279-281 | The two replacements are one left-to-right pass in which a pair, a return and a line feed each end one line. |
| `Newlines.NormalizedIff` | backend/atomic_io.py:279-281 | Normalization leaves no carriage return, and changes nothing exactly when there was none. |
| `Newlines.ExpandRoundTrip` | backend/atomic_io.py:279-291 | Converting a normalized text to CRLF and normalizing again gives it back. |
| `Newlines.PreserveIsIdempotent` | backend/atomic_io.py:284-291 | Preserving twice for the same file is preserving once, keeps the text up to line endings, and in the CRLF branch leaves every CR and LF paired. |
| `Newlines.PreferenceIsStable` | backend/atomic_io.py:284-291 | A file within the sample size that was written with CRLF is recognized again if and only if it has a line end. |
| `Newlines.PrefersPairsIff` | backend/atomic_io.py:284-291 | A file is taken for a CRLF file if and only if its first 4096 characters have more pairs than lone line feeds. |
| `History.HistoryOfSaves` | backend/config_providers.py:277-288 | With a clock that does not run backwards, the history after any saves is the at most 16 most recently saved distinct profiles in recency order. |
| `History.HistoryIsRecencyList` | backend/config_helpers.py:1002-1015 | The same on top of any stored history that the saves follow: sort, dedupe, truncate and upsert refine a recency list. |
| `History.ReadAfterUpsert` | backend/config_providers.py:277-288 | What one save does to the history that is read back. |
| `History.SavedComesFirstIff` | backend/config_helpers.py:1002-1015 | A saved profile is read back first if and only if no other entry claims a later time. |
| `History.TruncateEarly` | backend/config_helpers.py:1015 | Truncating before the next save loses nothing that would be kept after it. |
| `History.DedupeBySeen` | backend/config_helpers.py:1003-1014 | The loop with its `seen` set keeps the first entry of every identity. |
| `History.Settings.Save` | backend/config_providers.py:277-288 | A save puts the profile in front of the others that are read back, unless it has neither base URL nor model. |

## Left out

- Real files, fsync, realpath, hashing, lock timeouts: canonical keys are abstract, and a timeout is an aborted acquisition.
- Re-entrant use of the promise queues: they are not re-entrant, and no caller nests them.
- Tool execution inside a batch: one result for each submitted call is assumed.
- `CodeCells.StoreMirrorsStorage`: with several running cells the host store also has the other cells' updates, which a cell started earlier does not see.
- `CodeCells.UnresolvedOnlyWhenNothingCanSettle`: says nothing about promises of the script that settle by neither tool nor timer, which the host cannot see.
- `CodeVerdicts.MarkedIffFinished`: a script that ends a second time, from a continuation that was already under way, keeps its first error, which the VM could overwrite with an empty one.
- `CodeOutputs.CodeExecutionRuntime.Execute`: a repeated invocation, which waits for its first cell, is a wait; the catalog of tools is not modelled.
- `FileMutationQueues.EveryRunCanDrain`: shows that progress is always possible, not that a scheduler makes it.
- `ConfigLayers.EveryLeafHasItsTrueOrigin`: does not cover policy layers, the stripping of managed permission rules or requirement overrides, which `origins()` does not reflect.
- `ConfigDictionary.Dictionary.Merge`: a nested table is merged in an object of its own and stored back, which is what sharing the nested dictionary comes to, since no other reference to it exists.
- `RequirementNormalization.ComposeLayersMerges`: the validation of the composed table and the record of sources are not modelled; layer validation is a parameter except for the parts that concern hooks and `deny_read`.
- `History.HistoryOfSaves`: the fields of an entry that neither identify nor order it are one opaque value, and reading an entry twice is assumed to be reading it once.
- `Search.ScoreMatch`: assumes that lower-casing keeps the length of a text.
- `Newlines.PreserveIsIdempotent`: bytes of the sample are characters; decoding is not modelled.
- Terminal processes, signals, write chunks and sizes; times are integers and text is one unit a character.
- The sidecar restart state machine and the debugger bridge (`desktop/backend-sidecar.js`, `desktop/cdp-bridge.js`): small tables that would only add easier members of kinds modelled here.
- Electron windows, menus, HTTP routes, vault access, redaction and provider settings readers: I/O, UI or opaque libraries.
