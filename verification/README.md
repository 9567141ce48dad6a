# Verified models of the Sovereign SDK's storage and submission core

This project models, in Dafny, the parts of the Sovereign SDK whose correctness
is a matter of many steps together rather than of one function, and proves what
they are for. It verifies with `dafny verify dfyconfig.toml`.

**The blob sender** (`BlobTask`, `BlobHistory`, `BlobRetries`, `BlobSender*`,
`BlobOrigins`, `BlobResumption`, `BlobSubmission`).
Each blob has a task that takes it through submission, publication, processing
and finalization, with ways back for timeouts, re-orgs and discards. Tasks,
tables, in-flight map, counter, hooks and shutdown form one step machine;
data-availability outcomes, ledger answers, database failures, timeouts, crashes
and restarts are free choices of the environment. The safety theorems are about
every run: nothing is lost, and everything that is stored, sent on or called final
goes back to a caller, to the data-availability layer or to the ledger. The classes carry the imperative code and are proved to be steps of
that machine.

**Versioned storage** (`KeyCodec`, `VersionedReads`, `AccessoryStore`,
`PruningSpec`, `Pruner`, `PruningRounds`, `CroppedTables`, `PruningRuns`,
`CutOffSlots`, `HistoricalState`, `FlatState`, `FlatRecovery`, `FlatStartup`,
`FlatDb`). The accessory database
against replaying its writes, its rollback as the inverse of a commit, the
pruner's cursor and ranges against "the newest versions", pruning rounds against
one full round, and pruning among commits, crashes and rollbacks; the flat state's
two stores through every run of commits, crashes and recoveries, called directly
(`FlatRecovery`) and through the start-up's comparison of root hashes
(`FlatStartup`).

**Forks, finalization and sessions** (`NomtSessions`, `BlockTree`,
`StorageManager`, `Finalization`, `SessionViews`, `NodeSessions`,
`ReachedStates`, `BranchStates`, `StorageManagerNode`). The fork tree of the storage manager, what finalizing a
block commits and discards, where it stops half-way, and what a session builder
that was handed out earlier reads while all this goes on: for calls in any order,
and in `NodeSessions` for the order in which the node makes them. `BranchStates` says
what is read: the change sets saved along the branch.

**Celestia shares** (`Shares`, `ShareCounts`, `ShareChecks`, `NamespaceData`,
`NamespaceBlobs`). Three ways of reading a blob from its shares, and cutting the
rows of a namespace into blobs, up to the round trip from blobs to rows and back.

**Slot keys** (`SlotKey`) in their inline and heap forms as one byte string, and
**the notification manager** (`Notifier*`) as threads interleaving at the level
of single lock operations, refining a counting semaphore.

`Wrappers`, `Bytes` and `Overlays` hold shared definitions.

## What is not as one would expect

- The retry counter is a `u8` that wraps in release builds. "At most 3 plus
  re-orgs and discards" holds if and only if there are at most 252 of those.
- The pruner's version range leaves out `u64::MAX`, and with `keep_versions` of 1
  (which the storage manager accepts) pruning and then rolling back loses values.
  Both have their exact conditions. As long as every slot changes the root hash, the
  node's own order of calls loses nothing with any `keep_versions`, because a
  rollback takes back only a version that the pruner never saw (`ChangingRunsRead`).
- Accessory values are not in the root hash, which is all that the start-up compares.
  A slot that writes such values, leaves the root as it was and is cut off behind its
  accessory part is therefore not rolled back. What it wrote is then read, also after
  another slot has taken its version (`LeakedWriteIsRead`), unless it wrote what was
  there already (`CutOffReadsExactly`); and even then the value is lost if only one
  version is kept and the next slot is rolled back (`PrunedValueIsLost`).
- The start-up gate compares root hashes before it calls the archival recovery, so
  a half-written version that changes no value is not rolled back. Until the next
  commit the archival store is then one version ahead; what it answers is right.
- The version after `u64::MAX` would wrap to 0 in `flat_db.rs`, but no slot gets
  there: `HistoricalStateReader::new` panics on the overflow
  (`historical_state.rs`, lines 91 to 97) before one is materialized, so runs stop
  at version `u64::MAX`. The accessory rollback cannot undo version `u64::MAX`.
- `finalize` commits the older part of a path and then returns an error when a block
  on it was created but never saved. It has then not discarded the siblings of what
  it finalized, and if there were any, the fork tables no longer agree
  (`HalfwayIsOrderlyExactly`; `HalfwayDisagrees` gives the calls).
- A session builder whose path does not hold the newly finalized block, because its
  fork was dropped or its own block is older, keeps working, but silently reads the
  finalized state: references without a snapshot are taken to be committed.
  `ForkedViewChanges` gives a run.
- `save_change_set` accepts a block that was never created itself if a sibling of it
  was. The path of a block on top of it ends before it, so that finalizing that block
  commits it without the one below, and reads of builders change
  (`UncreatedBlockBreaksViews`). `FinalizeKeepsViewsExactly` says for every state and
  every call when reads change, these two cases and no others.
- A blob without bytes is indistinguishable from namespace padding.
- The comments on slot keys speak of 70 and 79 inline bytes; the code keeps up to
  67 bytes of key material inline, and that is what is modelled.
- The consistency check of `shares.rs` compares the length of a sequence with whole
  shares, of which only part is payload, so that a blob can pass it and run out of
  bytes (`CheckedButNotReadable`). Reading by `next` needs enough payload bytes and
  nothing else (`ReadsToTheEndExactly`); `chunk` in addition needs the shares not to
  be empty (`ChunkStallsExactly`).

## Assumptions

- rockbound: a table is a map ordered by its encoded keys, a batch is applied
  atomically, `get_prev` gives the greatest entry at or below a key, ranges are
  half-open, a cursor returns the current entry and then moves. Writing a rollback
  batch at a version removes the entries of that version.
- NOMT: a session reads its overlays newest first and then the database;
  committing an overlay applies it.
- The root hash of a slot commits to all user and kernel values without collisions
  (`HashedRunsAreFaithful` says what follows). It does not cover accessory values.
- Block hashes identify blocks together with their ancestors.
- The storage manager holds the snapshot lock for writing through all of
  `finalize`, so building a session and finalizing do not interleave; in the blob
  sender, counting, spawning and listing a task happen under the in-flight lock,
  which the main task keeps on shutdown until all tasks it took have finished.

## Model

| member | source | states |
|---|---|---|
| `BlobSenderTheorems.NoBlobIsLost` | crates/full-node/sov-blob-sender/src/lib.rs:233-340 | In every run of publishes, task steps, shutdowns, crashes and restarts, every blob ever pushed is still in the Blobs table or its finalization hook has run |
| `BlobSenderTheorems.UnfinalizedPushIsStored` | crates/full-node/sov-blob-sender/src/lib.rs:757-797 | In every run, a push that no finalization has followed is in the table with its own data, and every BlobInfos key is a Blobs key |
| `BlobSenderTheorems.FinalizedAfterPublished` | crates/full-node/sov-blob-sender/src/lib.rs:607-626 | `on_finalized_blob(id, receipt)` is always preceded by `on_published_blob(id, receipt)` with the same receipt, also across restarts, and happens only under a verdict that settles the blob |
| `BlobSenderTheorems.FinalizedIsNeverStored` | crates/full-node/sov-blob-sender/src/lib.rs:694-797 | The database never holds `Finalized`, a task in state Finalized always has a verdict, and no task reaches the `unreachable!` arm |
| `BlobSenderTheorems.AtMostOneLiveTask` | crates/full-node/sov-blob-sender/src/lib.rs:266-337 | Two unfinished tasks are never for the same blob, not even while the node shuts down |
| `BlobSenderTheorems.JoinLeavesNoTask` | crates/full-node/sov-blob-sender/src/lib.rs:381-400 | When the main task gives the in-flight lock back after a shutdown, no task at all is left at work and the submission counter is back at its initial value |
| `BlobSenderTheorems.CounterCountsTasks` | crates/full-node/sov-blob-sender/src/lib.rs:189-192 | The submission counter is its initial value plus the number of unfinished tasks at all times, so it cannot underflow |
| `BlobSenderTheorems.PublishResurrectsEveryBlob` | crates/full-node/sov-blob-sender/src/lib.rs:233-253 | Once a publish call has run to its end after a restart, with no shutdown and no database error, every blob of the table has a live task |
| `BlobSenderTheorems.RunsKeepInv` | crates/full-node/sov-blob-sender/src/lib.rs:233-800 | The inductive invariant behind these results (statuses against the log, tasks against the in-flight map, the tables against both) is kept by every run |
| `BlobRetries.RetryBound` | crates/full-node/sov-blob-sender/src/lib.rs:558-606 | The submissions of a task never exceed 3 plus its re-orgs and discards, over all runs with exactly r of those, if and only if r is at most 252, because the retry count is a `u8` |
| `BlobRetries.WrappedRun` | crates/full-node/sov-blob-sender/src/lib.rs:558-606 | For every r above 252 a run in which the `u8` wraps and the bound is exceeded |
| `BlobRetries.TimeoutResubmitsBelowThree` | crates/full-node/sov-blob-sender/src/lib.rs:628-657 | In every run a timeout resubmits exactly when the `u8` shows fewer than 3 submissions and otherwise shuts down, and up to 252 resubmissions the `u8` is the true count |
| `BlobHistory.Reactions` | crates/full-node/sov-blob-sender/src/lib.rs:552-800 | For every answer that is not about finality, what the task and its effect are: cancelling, failures that shut down, saving the very status, a receipt that makes the blob published |
| `BlobHistory.PublishedHears` | crates/full-node/sov-blob-sender/src/lib.rs:670-691 | A published blob becomes processed with the verdict of the ledger, whatever its finality, and waits if the ledger does not know it |
| `BlobHistory.ProcessedHears` | crates/full-node/sov-blob-sender/src/lib.rs:721-756 | A processed blob becomes finalized exactly on a final verdict, waits on any other verdict, and is submitted afresh, counted as a re-org, if the ledger has lost it |
| `BlobHistory.FinalizedActs` | crates/full-node/sov-blob-sender/src/lib.rs:757-797 | Accepted or too low a sequence number: hook and removal. Any other discard: submitted afresh. No verdict: the panic |
| `BlobHistory.HookActs` | crates/full-node/sov-blob-sender/src/lib.rs:607-626 | The publication hook gets the receipt of the status, once, before polling |
| `BlobHistory.StatusIsExplained` | crates/full-node/sov-blob-sender/src/lib.rs:552-800 | Over every run of answers, the status a task is in is the one it began with, or its history holds the answer that leads there: a receipt, a verdict on that receipt, a final verdict on it, or a reason to submit again |
| `BlobHistory.FinalizedWasFinal` | crates/full-node/sov-blob-sender/src/lib.rs:721-756 | A task whose blob was not finalized at first holds it for finalized only after the ledger called it final with that verdict while it was processed under that receipt |
| `BlobHistory.NoSendingAgain` | crates/full-node/sov-blob-sender/src/lib.rs:552-800 | A task that resumes a blob as published or later sends it again only after a timeout, a re-org or a discard |
| `BlobOrigins.DataComesFromCallers` | crates/full-node/sov-blob-sender/src/lib.rs:233-340 | In every run of the whole system, across restarts: whatever is pushed, stored or worked on under an id was handed in under that id, by a publish call or at a start |
| `BlobOrigins.HooksAreForReceipts` | crates/full-node/sov-blob-sender/src/lib.rs:607-626 | Every publication hook is for a receipt the DA layer gave for that blob |
| `BlobOrigins.FinalizedWasCalledFinal` | crates/full-node/sov-blob-sender/src/lib.rs:721-797 | The finalization hook runs only for a blob that the ledger called final, with that verdict, to a task that had seen it processed under that receipt |
| `BlobOrigins.SavedStatusHasItsReason` | crates/full-node/sov-blob-sender/src/lib.rs:476-491 | Every status in the database goes back to the answers that lead to it |
| `BlobResumption.TasksAreStored` | crates/full-node/sov-blob-sender/src/lib.rs:552-704 | At all times a task at work works on the blob the table has for it, and once it has saved its status, the database has that status |
| `BlobResumption.FirstTaskResumes` | crates/full-node/sov-blob-sender/src/lib.rs:124-176 | After a restart the first task of a blob that was in the table works on the stored blob and begins with the status saved for it, or afresh if there is none |
| `BlobResumption.EveryRequestIsPushed` | crates/full-node/sov-blob-sender/src/lib.rs:233-253 | Once the publish calls of a process have run to their end, without a shutdown, every blob they were called for and every blob handed to the start has been pushed |
| `BlobResumption.ShutdownStopsPushes` | crates/full-node/sov-blob-sender/src/lib.rs:261-264 | From a shutdown signal on, unless a call has just passed its check, nothing is pushed and no task is spawned |
| `BlobResumption.ShutdownHasAReason` | crates/full-node/sov-blob-sender/src/lib.rs:560-690 | The node shuts down only for a signal from outside, a failed save or sending, a ledger error, or a timeout after three submissions |
| `BlobSenderDb.Db.GetAll` | crates/full-node/sov-blob-sender/src/db.rs:30-58 | Every blob of the table once, in ascending id order, with its data and its saved status, or to be submitted afresh if none was saved |
| `BlobSenderSystem.AscendingIsSorted` | crates/full-node/sov-blob-sender/src/db.rs:30-58 | The order of `GetAll` is strictly ascending and lists every id of the table once |
| `BlobSenderDb.Db.Push` | crates/full-node/sov-blob-sender/src/db.rs:60-64 | Only the Blobs table changes |
| `BlobSenderDb.Db.SetState` | crates/full-node/sov-blob-sender/src/db.rs:66-76 | Only the status row of the id changes |
| `BlobSenderDb.Db.Remove` | crates/full-node/sov-blob-sender/src/db.rs:78-86 | Both rows of the id go in one batch |
| `BlobSubmission.Submission.Manage` | crates/full-node/sov-blob-sender/src/lib.rs:552-800 | From any status, for every stream of answers of the outside world, the loop has exactly the effects of the step machine: database, hooks, shutdown, status and retry count, including the panic of Finalized without a verdict. What those are, answer by answer and over whole runs, is in `BlobHistory` |
| `BlobSubmission.Submission.MustSubmitArm` | crates/full-node/sov-blob-sender/src/lib.rs:560-606 | Save, send, then Published, or shutdown on an error |
| `BlobSubmission.Submission.SendBlob` | crates/full-node/sov-blob-sender/src/lib.rs:585-606 | A receipt makes the blob published under it and counts one more submission in the `u8`; an error shuts the node down |
| `BlobSubmission.Submission.PublishedArm` | crates/full-node/sov-blob-sender/src/lib.rs:607-626 | Save, then the publication hook with the receipt |
| `BlobSubmission.Submission.PollPublished` | crates/full-node/sov-blob-sender/src/lib.rs:628-690 | Timeout, retry limit, verdict or wait; as in the step machine, whose answers `PublishedHears` spells out |
| `BlobSubmission.Submission.ProcessedArm` | crates/full-node/sov-blob-sender/src/lib.rs:694-704 | Save before waiting for finality |
| `BlobSubmission.Submission.PollProcessed` | crates/full-node/sov-blob-sender/src/lib.rs:706-756 | Final as soon as the ledger says so and not before, re-org back to MustSubmit, or wait; as in the step machine, whose answers `ProcessedHears` spells out |
| `BlobSubmission.Submission.FinalizedArm` | crates/full-node/sov-blob-sender/src/lib.rs:757-797 | Hook and removal for a settling verdict, resubmission for a discard, and the panic without a verdict |
| `BlobSubmission.Submission.SaveBlobState` | crates/full-node/sov-blob-sender/src/lib.rs:476-491 | The status is saved under the id and nothing else changes; a failed save shuts the node down |
| `BlobSenderNode.Sender.constructor` | crates/full-node/sov-blob-sender/src/lib.rs:124-176 | Starting reads the table once, keeps what it found and the blobs handed to it, spawns nothing and takes over the counter |
| `BlobSenderNode.Sender.SubmitBlobOnDa` | crates/full-node/sov-blob-sender/src/lib.rs:255-340 | Skipped on shutdown or when in flight, an error when the push fails, all without a change; otherwise the blob is stored under its id, counted, and its one new task has the given blob, id and status |
| `BlobSenderNode.Sender.SubmitAll` | crates/full-node/sov-blob-sender/src/lib.rs:233-253 | One submission after the other has the same effect as serving the queue in the step machine, stops at the first database error, and lists no blob that was not asked for |
| `BlobSenderNode.Sender.SpawnTask` | crates/full-node/sov-blob-sender/src/lib.rs:276-337 | Count, spawn, list, and drop of finished tasks under the lock: the new task has the given blob, id and status, and only unfinished tasks stay listed beside it |
| `BlobSenderNode.Sender.PublishBlobInner` | crates/full-node/sov-blob-sender/src/lib.rs:233-253 | All blobs left by the last process are submitted before the new one, up to the first database error, and the list is taken once; a blob that nobody else asked for is then stored with its data and has a live task that starts afresh on that data |
| `BlobSenderNode.PublishCallIsARun` | crates/full-node/sov-blob-sender/src/lib.rs:233-253 | A publish call is a run of the system, so the run theorems hold across it |
| `BlobSenderNode.Sender.Tick` | crates/full-node/sov-blob-sender/src/lib.rs:342-380 | Exactly the unfinished tasks stay in the in-flight map |
| `BlobSenderNode.Sender.TakeMap` | crates/full-node/sov-blob-sender/src/lib.rs:381-390 | On shutdown the whole in-flight map is taken and emptied, with the lock kept until all tasks in it are joined |
| `BlobSenderNode.Sender.JoinAll` | crates/full-node/sov-blob-sender/src/lib.rs:391-400 | The lock is given back once every task that was taken has finished |
| `KeyCodec.EncodedEntryOrder` | crates/full-node/sov-db/src/schema/tables.rs:312-324 | The encoded main-table keys sort by key and then by version |
| `KeyCodec.EncodedIndexOrder` | crates/full-node/sov-db/src/schema/tables.rs:351-363 | The encoded index keys sort by version first |
| `KeyCodec.VersionsAreNeighbours` | crates/full-node/sov-db/src/schema/tables.rs:312-324 | No other key sorts between two versions of one key |
| `KeyCodec.RangeIsOneVersion` | crates/full-node/sov-db/src/accessory_db.rs:135-146 | The half-open index range from (empty key, v) to (empty key, v + 1) holds exactly the entries of version v |
| `VersionedReads.ReadsLatest` | crates/full-node/sov-db/src/lib.rs:94-113 | `get_prev` and the key check together never fail and give the newest value at or below the version |
| `AccessoryStore.AccessoryDb.MaterializeValues` | crates/full-node/sov-db/src/accessory_db.rs:58-70 | The last write of each key, in the table and in the index |
| `AccessoryStore.AccessoryDb.Commit` | crates/full-node/sov-db/src/accessory_db.rs:90-112 | Table, index and root hash of the version change together |
| `AccessoryStore.AccessoryDb.LatestVersion` | crates/full-node/sov-db/src/accessory_db.rs:73-88 | The largest version with a root hash |
| `AccessoryStore.AccessoryDb.Rollback` | crates/full-node/sov-db/src/accessory_db.rs:115-161 | The last version is taken out through the index; an empty database is left as it is, and the only error, which changes nothing, is a root at version `u64::MAX` |
| `AccessoryStore.ReadsAreReplay` | crates/full-node/sov-db/src/accessory_db.rs:44-55 | For any increasing commits, a read at any version equals replaying all writes up to it into a plain map |
| `AccessoryStore.UndoIsInverse` | crates/full-node/sov-db/src/accessory_db.rs:115-161 | Undoing the last commit restores table, index and root hashes exactly |
| `AccessoryStore.CommitKeepsIndexed` | crates/full-node/sov-db/src/accessory_db.rs:90-112 | The index covers the main table, exactly as long as nothing is pruned |
| `AccessoryStore.RunReadsReplaySurvivors` | crates/full-node/sov-db/src/accessory_db.rs:44-170 | After any run of commits and rollbacks every read replays the surviving change sets, and index and table hold the same entries |
| `PruningSpec.KeepsExactlyTheNewest` | crates/full-node/sov-db/src/pruner.rs:84-117 | Pruning keeps exactly the newest min(keep, count) versions of a key if and only if the key has no entry at version `u64::MAX` or at most keep versions |
| `PruningSpec.NewestCount` | crates/full-node/sov-db/src/pruner.rs:84-117 | There are exactly min(keep, count) newest versions |
| `PruningSpec.KeptReadsUnchanged` | crates/full-node/sov-db/src/pruner.rs:84-117 | Reads at or above the oldest kept version of a key do not change |
| `PruningSpec.PartialThenFull` | crates/full-node/sov-db/src/pruner.rs:26-78 | Pruning some keys first does not change the result of a full round |
| `PruningSpec.UnnoticedForKey` | crates/full-node/sov-db/src/accessory_db.rs:115-161 | Per key: pruning before a rollback goes unnoticed if and only if two versions are kept, or the key was not written last, or had no value before |
| `PruningSpec.PruneThenRollback` | crates/full-node/sov-db/src/pruner.rs:46-54 | Pruning and then rolling back gives every key the value of the rollback alone if and only if keep is at least 2 or no key written last had a value before |
| `PruningSpec.OnlyNewestLeft` | crates/full-node/sov-db/src/pruner.rs:46-54 | With keep = 1 the value before the last write is gone, whatever it was |
| `Pruner.GetPrunableVersion` | crates/full-node/sov-db/src/pruner.rs:84-117 | The returned range holds exactly the versions that are not kept and ends at one of them |
| `Pruner.UniqueBaseKeys.Next` | crates/full-node/sov-db/src/pruner.rs:141-169 | Each call yields the key under the cursor and leaves the cursor before all its versions |
| `Pruner.AllBaseKeys` | crates/full-node/sov-db/src/pruner.rs:141-169 | The reverse cursor yields every distinct base key exactly once, in descending order |
| `Pruner.CollectPruningBatch` | crates/full-node/sov-db/src/pruner.rs:26-78 | The batch prunes exactly the keys seen, which are the greatest ones in descending order, and all keys when the limit was not hit; it has at most as many ranges as the limit, hits it exactly with that many, right after the key that filled it, or with a limit of 0 as soon as there is a key; keep 0 is the only error |
| `Pruner.WalkKeys` | crates/full-node/sov-db/src/pruner.rs:43-64 | After every key the batch is what prunes the keys seen so far, in descending order, and the limit is hit exactly when the batch is full |
| `Pruner.BatchDeletes` | crates/full-node/sov-db/src/pruner.rs:26-78 | A batch that is not empty deletes at least one entry |
| `PruningRounds.PruneUntilDone` | crates/full-node/sov-db/src/storage_manager/nomt_based/mod.rs:473-487 | Rounds with any limit of at least 1 terminate and reach the table of one unlimited round |
| `PruningRounds.StaleBatchIsSafe` | crates/full-node/sov-db/src/storage_manager/nomt_based/mod.rs:473-487 | A batch collected before later commits never deletes one of the then newest versions |
| `PruningRuns.ReadsSurvivePruning` | crates/full-node/sov-db/src/storage_manager/nomt_based/mod.rs:473-487 | Over every run of commits, crashes behind the accessory part of one, start-ups with their rollback, and pruning that looks at each key in a table of its own moment and writes later: if cut-off slots change the root or no value, and keys of an unnoticed version are pruned to two at least, reads at or above the oldest version left of a key replay the commits that went through, and a key of which nothing is left was never written |
| `PruningRuns.CutOffReadsExactly` | crates/full-node/sov-db/src/storage_manager/nomt_based/groups.rs:153-155 | After such a run a slot is cut off and the node starts again: it comes up unless that was a first slot with an effect, and its reads are the replay if and only if the slot changed the root or wrote nothing but what was there |
| `PruningRuns.ChangingRunsRead` | crates/full-node/sov-db/src/storage_manager/nomt_based/mod.rs:473-487 | If every slot changes the root the same holds for any pruning, with any keep |
| `PruningRuns.RestartTakesBack` | crates/full-node/sov-db/src/storage_manager/nomt_based/groups.rs:153-155 | The start-up takes back exactly what was cut off if its root differs from the live one, and otherwise leaves it there |
| `CutOffSlots.LeakedWriteIsRead` | crates/full-node/sov-db/src/storage_manager/nomt_based/groups.rs:545-547 | A run in which a write of a slot that never went through is read: its root was the live one, and the next slot took its version |
| `CutOffSlots.PrunedValueIsLost` | crates/full-node/sov-db/src/storage_manager/nomt_based/groups.rs:545-547 | A run in which a cut-off slot changes nothing, one version is kept, and the next rollback takes the only one there is |
| `CroppedTables.NewestAreSpared` | crates/full-node/sov-db/src/pruner.rs:84-117 | However late a range is written, it deletes none of the then newest versions of its key, as many as were to be kept |
| `CroppedTables.PruneCrops` | crates/full-node/sov-db/src/pruner.rs:26-78 | Ranges found by looking at different earlier tables, written together, leave of every key a newest part that is not empty |
| `HistoricalState.MaterializeValues` | crates/full-node/sov-db/src/historical_state.rs:215-242 | User writes without kernel writes are the only error; otherwise the batch is the last write of each key |
| `HistoricalState.MaterializeUserAndKernelValues` | crates/full-node/sov-db/src/historical_state.rs:244-290 | The same for the two namespaces |
| `FlatDb.FlatStateDb.Commit` | crates/full-node/sov-db/src/flat_db.rs:214-221 | The version to commit is the one after the live one |
| `FlatDb.FlatStateDb.CommitInternal` | crates/full-node/sov-db/src/flat_db.rs:223-320 | Archival first, then live, with a crash possible before either |
| `FlatDb.FlatStateDb.ValidateAndRollbackArchival` | crates/full-node/sov-db/src/flat_db.rs:323-359 | Which comparison leads to nothing, to a rollback, to the reported error or to a failed assertion |
| `FlatDb.FlatStateDb.RollbackArchival` | crates/full-node/sov-db/src/flat_db.rs:361-386 | The keys of the version are deleted through the same materialization that wrote them; it fails, without a change, exactly if the version wrote user keys and no kernel key |
| `FlatDb.KeysForRollback` | crates/full-node/sov-db/src/flat_db.rs:390-410 | Every key written at the version, with a deletion |
| `FlatDb.LatestVersionAndRootHash` | crates/full-node/sov-db/src/flat_db.rs:130-151 | The root-hash entry of the largest version |
| `FlatState.RollbackIsInverse` | crates/full-node/sov-db/src/flat_db.rs:361-410 | Taking back the last version restores the archival store exactly and never trips the check for user writes without kernel writes |
| `FlatState.ArchiveReads` | crates/full-node/sov-db/src/flat_db.rs:223-320 | The archival store answers at every version what the live store answered after that version |
| `FlatRecovery.EveryRunIsAStory` | crates/full-node/sov-db/src/flat_db.rs:214-359 | Every run of commits, crashes, kills and restarts leaves the stores of some slots, plus at most one archival version |
| `FlatRecovery.ArchivalIsAtMostOneAhead` | crates/full-node/sov-db/src/flat_db.rs:214-320 | At all times the archival store is at the live version with its root, or one version ahead |
| `FlatRecovery.RecoverHalf` | crates/full-node/sov-db/src/flat_db.rs:323-386 | With the archival store one ahead, recovery asserts nothing false and restores agreement; after a crash in the first commit it reports the empty live store |
| `FlatRecovery.RunningStoresAgree` | crates/full-node/sov-db/src/flat_db.rs:323-386 | Whenever a process runs, both stores have the same latest version and root and the same answer for every key and every version |
| `FlatRecovery.EmptyLiveIsReportedExactly` | crates/full-node/sov-db/src/flat_db.rs:323-359 | The "Live DB is empty" error is reported exactly after a crash in the first commit |
| `FlatStartup.ReadsAreThoseOfTheTime` | crates/full-node/sov-db/src/storage_manager/nomt_based/groups.rs:126-165 | Over every run of commits, crashes and start-ups through the root-hash gate, at any time: the live store holds the commits that went through, and the archival store answers for each of their versions what the live store answered then |
| `FlatStartup.UnnoticedVersionIsHarmless` | crates/full-node/sov-db/src/storage_manager/nomt_based/groups.rs:549-551 | While the node runs, the archival store is at the live version or one ahead with the same root, and a version ahead reads like the live store for every key |
| `FlatStartup.NextCommitAgrees` | crates/full-node/sov-db/src/flat_db.rs:214-221 | The next commit that goes through brings both stores to the same version and root |
| `FlatStartup.StartupsSucceed` | crates/full-node/sov-db/src/storage_manager/nomt_based/groups.rs:126-165 | No start-up fails an assertion or the final root check; the empty live store is reported exactly when a first commit with an effect was cut off |
| `FlatStartup.GateIsExact` | crates/full-node/sov-db/src/storage_manager/nomt_based/groups.rs:157-159 | A half-written version is taken back if and only if its root differs, and so if and only if it changes a value |
| `FlatStartup.StartupOnAnyStores` | crates/full-node/sov-db/src/storage_manager/nomt_based/groups.rs:157-166 | Whatever the stores hold: a start-up that goes through leaves the live store and ends with agreeing root hashes, so the closing check never fails for these two stores; any other start-up changes nothing |
| `FlatStartup.RecoveryAgrees` | crates/full-node/sov-db/src/flat_db.rs:323-386 | Whatever the stores hold, a recovery that goes through makes the latest root hashes agree and leaves the live store |
| `FlatStartup.EmptyLiveIsReported` | crates/full-node/sov-db/src/flat_db.rs:323-336 | Whatever the stores hold, the empty live store is reported exactly when version 0 is alone in the archival store |
| `FlatStartup.HashedRunsAreFaithful` | crates/module-system/sov-state/src/nomt/prover_storage.rs:455-640 | If root hashes are commitments to the values without collisions, a root changes exactly when a value does, which is all the results above use |
| `NomtSessions.NomtStateDb.Commit` | crates/full-node/sov-db/src/state_db_nomt.rs:43-68 | Both namespaces of the overlay are applied, each to its own database |
| `NomtSessions.CommitUnderneath` | crates/full-node/sov-db/src/state_db_nomt.rs:195-337 | Committing the oldest overlay of a session does not change any read |
| `NomtSessions.NomtSessionBuilder.BeginUserSession` | crates/full-node/sov-db/src/state_db_nomt.rs:195-230 | The overlays of the references that still have a snapshot, in their order, over the user database |
| `NomtSessions.NomtSessionBuilder.BeginKernelSession` | crates/full-node/sov-db/src/state_db_nomt.rs:239-274 | The same over the kernel database |
| `NomtSessions.NomtSessionBuilder.BeginBothSessions` | crates/full-node/sov-db/src/state_db_nomt.rs:278-337 | Both sessions are built from the same snapshots |
| `StorageManager.CreateKeepsOrderly` | crates/full-node/sov-db/src/storage_manager/nomt_based/mod.rs:235-259 | Creating a state for any block whatever keeps both fork tables in agreement, and what was saved known to them |
| `StorageManager.SaveKeepsOrderly` | crates/full-node/sov-db/src/storage_manager/nomt_based/mod.rs:282-333 | So does saving; what is saved stays known to the fork tables if and only if the block had been created |
| `Finalization.FinalizeKeepsSound` | crates/full-node/sov-db/src/storage_manager/nomt_based/mod.rs:338-459 | Whatever the call does, also when it stops half-way, every entry of the fork tables stays right |
| `Finalization.FinalizeKeepsOrderly` | crates/full-node/sov-db/src/storage_manager/nomt_based/mod.rs:338-459 | A finalization that succeeds keeps both fork tables in agreement, from any state in which they agree |
| `Finalization.DiscardsInTree` | crates/full-node/sov-db/src/storage_manager/nomt_based/mod.rs:375-407 | If every known block is listed, the discards are exactly the known blocks of the tree that neither lead to the finalized block nor build on it |
| `Finalization.SucceedsExactly` | crates/full-node/sov-db/src/storage_manager/nomt_based/mod.rs:435-450 | `finalize` returns without an error if and only if every block of the path has a snapshot, and then it commits the whole path |
| `Finalization.OldestSavedStops` | crates/full-node/sov-db/src/storage_manager/nomt_based/mod.rs:441-446 | Otherwise it has committed exactly the old end of the path, up to the first block that was created and never saved |
| `Finalization.HalfwayIsOrderlyExactly` | crates/full-node/sov-db/src/storage_manager/nomt_based/mod.rs:435-450 | A call that stops half-way keeps the fork tables in agreement if and only if no block it finalized had a sibling |
| `NodeSessions.FinalizeKeepsGood` | crates/full-node/sov-db/src/storage_manager/nomt_based/mod.rs:338-459 | In the node's order of calls a finalization always succeeds and leaves exactly the known descendants of the block, connected to it |
| `NodeSessions.KnownCanBeSaved` | crates/full-node/sov-db/src/storage_manager/nomt_based/mod.rs:282-333 | In that order saving a created block is never refused |
| `SessionViews.FoundIsNewestPart` | crates/full-node/sov-db/src/state_db_nomt.rs:195-337 | The overlays a session finds are those of a gap-free newest part of its references, the same part for both namespaces |
| `SessionViews.FinalizeLeavesNoGap` | crates/full-node/sov-db/src/storage_manager/nomt_based/mod.rs:415-459 | If the call takes no reference away from on top of a saved root of the path, the references that keep their snapshots are a gap-free newest part |
| `SessionViews.LeavesNoGapExactly` | crates/full-node/sov-db/src/storage_manager/nomt_based/mod.rs:415-459 | And only then |
| `SessionViews.FinalizeKeepsViews` | crates/full-node/sov-db/src/storage_manager/nomt_based/mod.rs:415-459 | In any state, a call that commits only references of a builder, down to the oldest with a snapshot, changes nothing its sessions read, also when it stops half-way |
| `SessionViews.FinalizeKeepsViewsExactly` | crates/full-node/sov-db/src/storage_manager/nomt_based/mod.rs:415-459 | In any state and whatever the snapshots contain, a call leaves the reads of a builder alone if and only if every block it commits is one of the builder's references and what they build on is not a reference that still has a snapshot |
| `SessionViews.KeepsViewsIfAllCreated` | crates/full-node/sov-db/src/storage_manager/nomt_based/mod.rs:415-459 | If only created blocks were saved, that is so if and only if every block it commits is a reference |
| `SessionViews.SaveKeepsViewsExactly` | crates/full-node/sov-db/src/storage_manager/nomt_based/mod.rs:282-333 | A saving shows, for some contents, if and only if it is for a reference of the builder |
| `SessionViews.SessionsOverRuns` | crates/full-node/sov-db/src/storage_manager/nomt_based/mod.rs:235-459 | From the empty manager, over calls in any order before and after a storage is built: as long as no reference is saved anew and no call opens a gap, the builder finds a gap-free newest part of its references; as long as only its references are committed its sessions read what they read at first |
| `SessionViews.CreatedRunsAreNotCut` | crates/full-node/sov-db/src/storage_manager/nomt_based/mod.rs:235-459 | In runs that save only what they created no call ever opens a gap |
| `NodeSessions.RefsArePath` | crates/full-node/sov-db/src/storage_manager/nomt_based/mod.rs:160-197 | The references of a builder that still have a snapshot are the path from the last finalized block to its block, newest first |
| `NodeSessions.FinalizeElsewhere` | crates/full-node/sov-db/src/storage_manager/nomt_based/mod.rs:415-459 | Finalizing a block that is none of the references leaves the builder no overlay at all |
| `NodeSessions.ViewIsStable` | crates/full-node/sov-db/src/state_db_nomt.rs:369-427 | From the empty manager, over every run in the node's order before and after the storage up to any block is built: as long as only blocks of its path are finalized its reads stay the same, and from the first other finalization on it reads the finalized state alone |
| `ReachedStates.ForkedViewChanges` | crates/full-node/sov-db/src/state_db_nomt.rs:195-230 | The reached state and the call in which a builder on one fork starts to read the other fork's writes |
| `ReachedStates.UncreatedBlockBreaksViews` | crates/full-node/sov-db/src/storage_manager/nomt_based/mod.rs:282-333 | A state in which a block was saved and never created: finalizing a block of the builder's own path changes its reads |
| `ReachedStates.UncreatedIsReached` | crates/full-node/sov-db/src/storage_manager/nomt_based/mod.rs:282-333 | Four accepted calls reach it from the empty manager |
| `ReachedStates.HalfwayDisagrees` | crates/full-node/sov-db/src/storage_manager/nomt_based/mod.rs:435-450 | A state with agreeing fork tables and the call that stops half-way and leaves them in disagreement |
| `ReachedStates.HoledIsReached` | crates/full-node/sov-db/src/storage_manager/nomt_based/mod.rs:435-450 | Six accepted calls reach that state from the empty manager |
| `StorageManagerNode.CollectRefs` | crates/full-node/sov-db/src/storage_manager/nomt_based/mod.rs:160-197 | The walk from a block to the last finalized one yields the references |
| `StorageManagerNode.CollectSegments` | crates/full-node/sov-db/src/storage_manager/nomt_based/mod.rs:355-372 | The path from the last finalized block, oldest first |
| `StorageManagerNode.CollectDiscards` | crates/full-node/sov-db/src/storage_manager/nomt_based/mod.rs:375-407 | Breadth first, exactly the listed siblings of the finalized blocks and all that the lists lead to from there, in any state whose lists are right |
| `StorageManagerNode.NomtStorageManager.CreateStateFor` | crates/full-node/sov-db/src/storage_manager/nomt_based/mod.rs:235-259 | The block becomes known once, at the end of the list of its parent, and the builder starts at its parent |
| `StorageManagerNode.NomtStorageManager.CreateStateAfter` | crates/full-node/sov-db/src/storage_manager/nomt_based/mod.rs:261-280 | Without saved changes the builder reads the finalized state |
| `StorageManagerNode.NomtStorageManager.SaveChangeSet` | crates/full-node/sov-db/src/storage_manager/nomt_based/mod.rs:282-333 | It goes through exactly if the parent is known and the block was not saved before; then both namespaces of the change set are stored for the block as they are, and otherwise nothing changes |
| `BranchStates.BuilderReadsNewest` | crates/full-node/sov-db/src/state_db_nomt.rs:195-337 | The storage up to a saved block answers with what its change set wrote, in both namespaces, and otherwise like the storage up to its parent |
| `BranchStates.StorageReadsItsBranch` | crates/full-node/sov-db/src/storage_manager/nomt_based/mod.rs:160-197 | Over every run in the order of the node: the storage up to a saved block reads, in both namespaces, what all change sets saved along its branch make of the first state, finalized or not; up to any other block, that of the last finalized one |
| `BranchStates.DatabasesHoldTheBranch` | crates/full-node/sov-db/src/storage_manager/nomt_based/mod.rs:435-450 | And the databases hold exactly the change sets saved along the branch of the last finalized block |
| `StorageManagerNode.NomtStorageManager.FinalizeSegments` | crates/full-node/sov-db/src/storage_manager/nomt_based/mod.rs:435-450 | The path is committed from its old end up to the first block without a snapshot, each snapshot exactly once, and both snapshot maps stay in step |
| `StorageManagerNode.NomtStorageManager.DropDiscarded` | crates/full-node/sov-db/src/storage_manager/nomt_based/mod.rs:451-458 | The discarded blocks leave all four tables |
| `StorageManagerNode.NomtStorageManager.Finalize` | crates/full-node/sov-db/src/storage_manager/nomt_based/mod.rs:338-459 | From any state the calls can leave: an unsaved block is an error that changes nothing; a path with an unsaved block is committed up to it and then an error; otherwise the path is committed and all listed forks go; the panic cannot occur |
| `Shares.BlobIterator.constructor` | crates/adapters/celestia/src/shares.rs:89-115 | Reading starts at the first byte of the content |
| `Shares.BlobIterator.Next` | crates/adapters/celestia/src/shares.rs:117-136 | The next byte of the content, or nothing at its end |
| `Shares.BlobIterator.Read` | crates/adapters/celestia/src/shares.rs:138-152 | Fills the buffer with the next bytes as far as there are any and leaves the rest of the buffer alone |
| `Shares.BlobIterator.ChunkComesNext` | crates/adapters/celestia/src/shares.rs:161-181 | The chunk is what comes next, and is empty only at the end |
| `Shares.BlobIterator.ChunkIsShareRest` | crates/adapters/celestia/src/shares.rs:161-181 | The chunk depends on the position alone, not on how it was reached |
| `Shares.BlobIterator.Advance` | crates/adapters/celestia/src/shares.rs:183-213 | Skips exactly the requested bytes, without running out of shares |
| `Shares.ServeChunk` | crates/adapters/celestia/src/shares.rs:161-213 | `chunk` and `advance` together deliver exactly the asked bytes, up to the end of the share and of the content |
| `Shares.Drive` | crates/adapters/celestia/src/shares.rs:89-213 | Any interleaving of the interfaces, with skips, delivers exactly the bytes and ends exactly at the position that the content prescribes |
| `Shares.DeliveredInOrder` | crates/adapters/celestia/src/shares.rs:89-213 | Without skips that is the content from its beginning on, without a gap |
| `Shares.EnoughOpsReachTheEnd` | crates/adapters/celestia/src/shares.rs:117-213 | As many operations that ask for something as there are bytes always come to the end of the content |
| `Shares.AdvanceIsRepeatedNext` | crates/adapters/celestia/src/shares.rs:183-213 | `advance(n)` and n calls of `next` leave the same bytes and the same chunk to be read |
| `ShareCounts.IsLeastCount` | crates/adapters/celestia/src/shares.rs:338-353 | The least positive number of shares whose capacity holds the payload |
| `ShareCounts.CountIsMonotone` | crates/adapters/celestia/src/shares.rs:338-353 | More bytes never need fewer shares |
| `ShareCounts.CutIsReadBack` | crates/adapters/celestia/src/shares.rs:338-353 | Any payload, cut and zero-padded into that many shares, is a well-formed blob with that content |
| `ShareCounts.ReadBack` | crates/adapters/celestia/src/shares.rs:89-213 | And is delivered by any interleaving of reads: a prefix always, all of it after enough operations that ask for something |
| `ShareChecks.ReadsToTheEndExactly` | crates/adapters/celestia/src/shares.rs:117-136 | From any shares that begin with a start, `next` reads to the end without a panic if and only if the payloads up to a parity share have enough bytes, and then gives those |
| `ShareChecks.CheckedButNotReadable` | crates/adapters/celestia/src/shares.rs:42-76 | For every payload of one share and every greater length below the share size: the consistency check passes and reading panics |
| `ShareChecks.WellFormedIsReadable` | crates/adapters/celestia/src/shares.rs:117-136 | A well-formed blob is read to its end, and gives its content |
| `ShareChecks.ChunkStallsExactly` | crates/adapters/celestia/src/shares.rs:161-181 | With bytes to come, `next` gives one, and `chunk` gives none exactly in front of an empty share |
| `NamespaceData.NamespaceDataIterator.Next` | crates/adapters/celestia/src/shares.rs:246-332 | One call continues where the last one stopped and yields what the flattened shares prescribe |
| `NamespaceData.NamespaceDataIterator.ScanRow` | crates/adapters/celestia/src/shares.rs:275-312 | A row is read to its end or to the start of another sequence |
| `NamespaceData.Collect` | crates/adapters/celestia/src/shares.rs:246-332 | The sequences depend on the flattened shares alone, not on their division into rows |
| `NamespaceData.NothingIsLost` | crates/adapters/celestia/src/shares.rs:246-336 | The sequences concatenate to all shares that are neither padding nor parity, in order |
| `NamespaceData.RangesAreExact` | crates/adapters/celestia/src/shares.rs:286-294 | Ranges are disjoint and increasing, hold one start at most, and locate exactly the shares of the sequence if and only if there is no parity share within |
| `NamespaceBlobs.StartsExactlyIfUnbroken` | crates/adapters/celestia/src/shares.rs:246-332 | Exactly the first share of every sequence is a start if and only if no continuation share is cut off from what it continues |
| `NamespaceBlobs.SequencesAreBlobs` | crates/adapters/celestia/src/shares.rs:246-336 | Of a namespace made of blobs and padding, the sequences are exactly the blobs, in order |
| `NamespaceBlobs.ReadNamespace` | crates/adapters/celestia/src/shares.rs:89-336 | Blobs cut into shares, spread over rows in any way, collected and read back come out unchanged and in order; a blob without bytes cannot be told from padding |
| `SlotKey.ReadersAgree` | crates/full-node/sov-db-types/src/lib.rs:466-525 | All readers of either form read one byte string that starts with the prefix |
| `SlotKey.CanonicalReads` | crates/full-node/sov-db-types/src/lib.rs:124-167 | What is put in is what is read, in either form, and an inline key is filled up with zeros |
| `SlotKey.CanonicalIsUnique` | crates/full-node/sov-db-types/src/lib.rs:267-273 | Equal bytes mean equal representations, so comparing bytes compares keys |
| `SlotKey.OrderIsByPrefixThenMaterial` | crates/full-node/sov-db-types/src/lib.rs:281-291 | Keys sort by module tag, item tag and material, whatever their forms |
| `SlotKey.OrderIsTotal` | crates/full-node/sov-db-types/src/lib.rs:281-291 | The order is total and its equality is equality |
| `SlotKey.InlineKey.constructor` | crates/full-node/sov-db-types/src/lib.rs:157-167 | An inline key without material |
| `SlotKey.InlineKey.TryExtend` | crates/full-node/sov-db-types/src/lib.rs:146-155 | Appends in place and stays canonical; without room nothing changes |
| `SlotKey.SlotKeyBuilder.Write` | crates/full-node/sov-db-types/src/lib.rs:586-604 | The material grows by the buffer; the key is inline exactly up to 67 bytes, with a zeroed tail |
| `SlotKey.Build` | crates/full-node/sov-db-types/src/lib.rs:565-604 | However the material is cut into writes, the key is the canonical one |
| `SlotKey.FromSliceIncludingPrefix` | crates/full-node/sov-db-types/src/lib.rs:507-515 | The canonical key that reads as the slice |
| `SlotKey.TruncateTo` | crates/full-node/sov-db-types/src/lib.rs:527-538 | The canonical key of the shortened material, or nothing exactly if there is too little |
| `SlotKey.RoundTrip` | crates/full-node/sov-db-types/src/lib.rs:340-369 | A serialized key is read back as it was and the reader stops at its end |
| `SlotKey.ReadIsWritten` | crates/full-node/sov-db-types/src/lib.rs:349-369 | Whatever is accepted is the encoding of a canonical key followed by the rest |
| `SlotKey.RefusedExactly` | crates/full-node/sov-db-types/src/lib.rs:349-369 | An input is refused exactly if it does not start with a whole byte string, or if that string is too short for a prefix |
| `Notifier.PoolCell.Notify` | crates/adapters/mock-zkvm/src/notifier.rs:40-48 | The newest registered notifier is taken, or the notification is kept and nothing else changes |
| `Notifier.PoolCell.Wait` | crates/adapters/mock-zkvm/src/notifier.rs:50-60 | A kept notification is used up, or the caller is registered as the newest |
| `NotifierProofs.RunsKeepInv` | crates/adapters/mock-zkvm/src/notifier.rs:9-61 | The inductive invariant over locks, flags, pool and wake-ups is kept by every interleaving |
| `NotifierTheorems.NotificationsAreConserved` | crates/adapters/mock-zkvm/src/notifier.rs:40-60 | At all times pending notifications mean no registered waiter, notifications equal pending ones plus waits let through, and no wait returns without one |
| `NotifierTheorems.NoWakeupIsLost` | crates/adapters/mock-zkvm/src/notifier.rs:10-21 | A blocked call is registered, or being notified, or about to be signalled: none sleeps through its notification |
| `NotifierTheorems.NoDeadlock` | crates/adapters/mock-zkvm/src/notifier.rs:10-60 | As long as a call is neither done nor waiting for a notification, some call can move |
| `NotifierTheorems.ExactlyMinAreReleased` | crates/adapters/mock-zkvm/src/notifier.rs:40-60 | When nothing moves any more, exactly min(n, m) of m waits have returned after n notifies |
| `NotifierTheorems.EveryRunEnds` | crates/adapters/mock-zkvm/src/notifier.rs:10-60 | The number of steps is bounded by the calls and spurious wake-ups made, so every run gets there |
| `NotifierTheorems.StepRefines` | crates/adapters/mock-zkvm/src/notifier.rs:24-61 | Every step is a step of a counting semaphore, or invisible |
| `NotifierTheorems.OthersRefine` | crates/adapters/mock-zkvm/src/notifier.rs:24-61 | New calls and spurious wake-ups are invisible to it |
| `NotifierTheorems.ReturnedWasLetThrough` | crates/adapters/mock-zkvm/src/notifier.rs:50-60 | A wait that has returned was let through by that semaphore |

## Left out

- `NodeSessions.ViewIsStable`: sharper than `SessionsOverRuns`, which is about calls in any order, and for the node's order only: states are created on the last finalized block or on saved ones, and created blocks are saved once.
- `PruningRuns.ReadsSurvivePruning`: says nothing below the oldest version left of a key; crashes are between the accessory part of a commit and its end, or outside of commits.
- `FlatStartup.StartupsSucceed`: a first commit that was cut off is reported by the recovery here; in the source a check on the Merkle trees, which are not part of this model, reports it even before.
- `AccessoryStore.ReadsAreReplay`: commits at increasing versions, as the callers make them.
- `FlatRecovery.EveryRunIsAStory`: runs stop when version `u64::MAX` is used, after which the source panics before it could commit again.
- `BlobSenderNode.Sender.PublishBlobInner`: nothing else moves during the call; interleavings with it are in the step machine.
- `BlobResumption.FirstTaskResumes`: as long as no push of that process has failed; after a failure the rest of the list is gone until the next start.
- `BlobResumption.EveryRequestIsPushed`: likewise, and for calls that have ended without a shutdown.
- `BranchStates.StorageReadsItsBranch`: for the order in which the node makes its calls; for other orders `FinalizeKeepsViewsExactly` says when reads change.
- `BlobSenderTheorems.PublishResurrectsEveryBlob`: says that a task is there, not that it will ever finish.
- `Notifier.PoolCell.Notify`: the pending count is not bounded to 64 bits.
- `ShareCounts.CutIsReadBack`: the sequence length field is not bounded to 32 bits.
- `SlotKey.InlineKey.TryExtend`: ghost parameters name the prefix and material that the array holds.
- Metrics, tracing, status notifications and the last known state shown to users.
- Timers as such: a timeout is a choice of the environment.
- The version that `HistoricalStateReader` keeps for its own readers; commits take theirs from the live store.
- The ledger database, the Merkle trees and their rollback at start-up, pinned caches and witnesses.
- `state_db.rs`: its versioned reads repeat those of the accessory database over a tree library.
- Cache eviction, column families and files of rockbound and RocksDB.
- serde encodings of slot keys, and prefix iteration.
- The share wire format, namespaces and signers; a share here is its start flag, length and payload.
- zkVM adapters, DA clients, RPC, REST and configuration: plumbing without a property of this kind.
