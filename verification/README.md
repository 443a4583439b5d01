# OrbitRelay Server: a verified model

OrbitRelay Server is a single-node event relay with three persistent stores (an append-only
event log, an immutable asset store, a catalog of documents and canvases) and the protocols
that tie them together. This project models the hard parts of each in Dafny and proves what
they promise over every input, every run or every interleaving. Nothing was executed.

Run `dafny verify dfyconfig.toml` to check everything.

| modules | what they hold |
|---|---|
| `Foundation` | options, results, machine-integer bounds, and `Ascending`, the meaning of `ORDER BY` |
| `EventStore`, `Paging`, `EventWorker` | the log behind `MAX + 1`, cursors and checkpoints; pages against filtering; the bounded queue, its worker and shutdown |
| `CanvasReplay`, `CanvasHistory`, `Pipeline`, `Handoff` | the readers and the writer of the log, and the handoff from history to realtime, end to end |
| `AssetStore`, `AssetProtocol`, `AssetSafety`, `AssetReopen`, `AssetLateMove`, `AssetReplies`, `AssetTidy`, `AssetRecovery` | recovery, the ingest protocol as a step machine, its invariant, the results about whole runs, when reopening in the same process is safe, who is told what, what ingests leave behind, and that the machine's recovery is the store's |
| `Catalog`, `CatalogSafety`, `CatalogStore`, `CatalogListing`, `CatalogOutcomes` | the tables and what each operation means, soundness over runs, the statement-by-statement operations, the listers, and what each publication is answered |
| `Coordinator`, `CoordinatorProgress` | the weak-reference lock table: safety in every run, and that leases are granted, handed over and cleaned up |
| `Base64Url`, `Grants`, `Delivery` | the token codec, the grant registry, range resolution and streaming |

Code that changes state step by step is a class or a method with loops, proved equal to a
function of the old state; what the repository promises is then proved about that function.
Protocols with several parties are step machines: a function `Apply` for one step, `Run` for
a sequence of them, an invariant kept by every step, and theorems about every `Run`.

## Results that are not what one would first expect

- **Reopening in the same process.** `close` does not wait for an ingest that is past its
  rename. Its compensation, which moves the blob away by name, can then run after the store
  has been reopened and the same asset published again, and it removes that published blob.
  `LostBlobIsReachable` gives such a run for every asset; `ReopenSafeIffQuiet` shows that a
  reopen is safe exactly when no surviving call is between its rename and its compensation.
  `CrashSafety` and the results built on it are about runs whose reopens are of that kind; a
  process crash ends all calls, so crashes are not restricted at all.
- **Pruning can deadlock.** The temporary strong reference of `prune_stale` may be the last
  one, and its destructor takes the lock the prune holds. `PruneMayDeadlockIff` says exactly
  when, `StuckForever` what follows, `DeadlockIsReachable` that it happens.
- **A binding to another session** is stored and then refused by the scan at the next open
  (`StepKeepsSound`, `ForeignBindingBlocksReopen`).
- **Sequence 2^63 - 1** is still appended and then refused by the gate at the next open
  (`LastSequenceIsAcceptedThenBlocksReopen`, `VerifyAllEvents`).
- **A dispatch that fails** after its appends leaves stored events no subscriber sees
  (`FailedDispatchLeavesAGap`, `LateEventSeenIffPublished`).
- **A history page that does not fit** into a response is answered Internal, and the scan
  limit is fixed, so a client cannot get past it although every event decodes
  (`OversizedPageBreaks`); `HistoryIsComplete` says exactly when a replay breaks.
- **A cancelled ingest may still publish.** Its command is already with the worker; the asset
  is then published and nobody is told Inserted (`PublishedAndUntold`, `ToldExactlyOnceIff`).
- **A reversed range** such as `bytes=5-3` is answered 416, and a number may carry a plus
  sign, where section 14.1.2 of RFC 9110 calls both invalid; the model follows the code.

## Assumptions

- An SQLite transaction is one atomic, durable step; one that is dropped or fails to commit
  leaves the tables as they were. A rename is atomic. Only process crashes are modelled, not
  power loss.
- Fresh identifiers (staging names, process epochs, quarantine names) are unique. JSON and ID
  encodings round-trip. A cursor or checkpoint decodes only for the store and epoch it was
  made for. `EventQuery::validate` refuses a limit of 0.
- SHA-256 is an arbitrary function of the bytes. Collision-freedom is not needed except
  where a theorem about grants says that a digest is not drawn again.
- A cancelled asset call may leave one operation running: the blocking filesystem operation
  or the metadata command it had started. The metadata worker may take pending commands in
  any order, which includes the order of its queue; a lost response means the command was
  not executed. Workers do not panic.
- A caller that still waits when the worker sends its reply is told it. One asset store
  handle is open on a directory at a time: a reopen starts only after the last one closed.
- A subscription delivers every event published after it was made; the client filters it as
  it filters the history. Request ids have one length, so whether a page fits depends on the
  page alone.
- Descriptor constructors of the external crates guarantee: a canvas has its default layer
  among its layers; a document has at least one page, with increasing indices; a composition
  pairs each page with a canvas of its overlay id, session and size.
- Locking a `std::sync::Mutex` again from the thread that holds it does not return.

## Model

| member | source | states |
|---|---|---|
| `EventStore.SQLiteEventStore.Append` | crates/orbitrelay-storage-sqlite/src/lib.rs:504-561 | the table after an append is the log after an append to a set-once sequence: new event at the end with cursor MAX + 1, equal retry or conflict without effect; a fault changes nothing |
| `EventStore.SQLiteEventStore.Get` | crates/orbitrelay-storage-sqlite/src/lib.rs:563-582 | the stored event with that id and its cursor, or nothing |
| `EventStore.SQLiteEventStore.CaptureCheckpoint` | crates/orbitrelay-storage-sqlite/src/lib.rs:495-502 | the checkpoint is the true length of the log |
| `EventStore.SQLiteEventStore.Query` | crates/orbitrelay-storage-sqlite/src/lib.rs:584-681 | answers as the specification on the log does; Ok exactly for a positive limit, tokens of this store and epoch, in range and in order; a foreign checkpoint is InvalidCheckpoint, a foreign or zero cursor InvalidCursor; every record delivered is stored in the window and has the fields asked for |
| `EventStore.CurrentCount` | crates/orbitrelay-storage-sqlite/src/lib.rs:698-730 | on a contiguous table MAX + 1 is the number of rows |
| `EventStore.QueryTable` | crates/orbitrelay-storage-sqlite/src/lib.rs:584-681 | checkpoint, cursor and bound checks in order, then the page: the first `limit` matches of the window in append order, and a next cursor exactly when there are more |
| `EventStore.SelectPage` | crates/orbitrelay-storage-sqlite/src/lib.rs:627-680 | the row loop with `has_more` returns the page of the window of the log |
| `EventStore.Window` | crates/orbitrelay-storage-sqlite/src/lib.rs:589-626 | an admitted query reads a window inside the log |
| `EventStore.WindowMeaning` | crates/orbitrelay-storage-sqlite/src/lib.rs:590-632 | which queries are admitted, to which window, and with which error each other is refused |
| `EventStore.HitsAre` | crates/orbitrelay-storage-sqlite/src/lib.rs:634-670 | a position is selected exactly when its event agrees with every field the query names |
| `EventStore.DeliveredEvents` | crates/orbitrelay-storage-sqlite/src/lib.rs:661-680 | every delivered record is a stored event behind the cursor and before the bound, with its own cursor |
| `EventStore.ForeignTokenRefused` | crates/orbitrelay-storage-sqlite/src/lib.rs:592-611 | a token of another store or epoch is never accepted, as a bound or as a cursor |
| `EventStore.AfterOwnCursor` | crates/orbitrelay-storage-sqlite/src/lib.rs:683-696 | asking behind a stored event's own cursor, at once or later, yields the matches behind that event |
| `EventStore.VerifyAllEvents` | crates/orbitrelay-storage-sqlite/src/lib.rs:472-493 | the gate at open accepts exactly the tables with keys 0..n-1 and n at most 2^63 - 1 |
| `EventStore.SQLiteEventStore.PassesGate` | crates/orbitrelay-storage-sqlite/src/lib.rs:472-493 | a store that only appends have changed passes the gate exactly when it has at most 2^63 - 1 rows |
| `EventStore.AppendsKeepFirstOccurrences` | crates/orbitrelay-storage-sqlite/src/lib.rs:504-561 | whatever is submitted, the log is the first occurrence of each EventId in order |
| `EventStore.AppendManyExtends` | crates/orbitrelay-storage-sqlite/src/lib.rs:504-561 | appends only extend the log and keep ids distinct |
| `EventStore.RetryAndConflict` | crates/orbitrelay-storage-sqlite/src/lib.rs:516-538 | however many appends later, an equal retry returns the original position and a conflicting reuse is refused, both without effect |
| `EventStore.LastSequenceIsAcceptedThenBlocksReopen` | crates/orbitrelay-storage-sqlite/src/lib.rs:540-552 | sequence 2^63 - 1 is accepted, after it no new event is, and the log is longer than the gate allows |
| `Paging.PagingRefinesFiltering` | crates/orbitrelay-storage-sqlite/src/lib.rs:584-696 | under one checkpoint, with appends between pages, the pages concatenate to exactly the matching events of the prefix, in order, once each, in max(1, ceil(n/limit)) pages |
| `Paging.NextCursorAccepted` | crates/orbitrelay-storage-sqlite/src/lib.rs:598-626 | every next cursor is past the start of its page, within its bound, and accepted however the log has grown |
| `Paging.PagesForIsCeiling` | crates/orbitrelay-storage-sqlite/src/lib.rs:661-680 | the page count is the larger of 1 and n / limit rounded up |
| `Paging.UnboundedReplay` | crates/orbitrelay-storage-sqlite/src/lib.rs:584-681 | without a checkpoint, a reader that completes has the matches of the log as it stood at its last query |
| `EventWorker.ExecuteCommand` | crates/orbitrelay-storage-sqlite/src/lib.rs:325-350 | one command against the table is one step of the sequential specification, log and reply |
| `EventWorker.RunWorker` | crates/orbitrelay-storage-sqlite/src/lib.rs:319-357 | the worker executes its commands in order, once each, up to the first Shutdown or the end; table and replies are those of the specification |
| `EventWorker.RunKeepsInv` | crates/orbitrelay-storage-sqlite/src/lib.rs:195-357 | the invariant of the queue machine holds in every interleaving of clients, closers and worker, and executed and accepted commands are never taken back |
| `EventWorker.ExecutesWhatIsAheadOfShutdown` | crates/orbitrelay-storage-sqlite/src/lib.rs:195-232 | what is executed is what entered the queue, in order, once each, none behind a Shutdown, and after the worker stops all ahead of one |
| `EventWorker.RepliesAreSequential` | crates/orbitrelay-storage-sqlite/src/lib.rs:234-287 | every reply, and the log, are those of running the executed commands one after the other |
| `EventWorker.OrderRespectsTime` | crates/orbitrelay-storage-sqlite/src/lib.rs:234-287 | a call made after another was answered is executed after it |
| `EventWorker.RefusedHadNoEffect` | crates/orbitrelay-storage-sqlite/src/lib.rs:64-76 | a caller told full, closed or response lost is not executed, then or later |
| `EventWorker.RestartRefusesTokens` | crates/orbitrelay-storage-sqlite/src/lib.rs:592-611 | no token that any reply of one process handed out is accepted by a store of another identity |
| `EventWorker.OpenStoreAnswers` | crates/orbitrelay-storage-sqlite/src/lib.rs:234-287 | a call on an open, idle store is executed and answered |
| `EventWorker.ClosedStoreRefuses` | crates/orbitrelay-storage-sqlite/src/lib.rs:64-76 | a call that finds the store closed is refused |
| `EventWorker.LateCallRefused` | crates/orbitrelay-storage-sqlite/src/lib.rs:64-76 | so is one that finds the sender taken; a second close does nothing |
| `EventWorker.CloseStopsWorker` | crates/orbitrelay-storage-sqlite/src/lib.rs:195-232 | closing ends the worker, and a command behind the Shutdown is answered lost, without effect |
| `EventWorker.WorkerOutlivesSenders` | crates/orbitrelay-storage-sqlite/src/lib.rs:325-357 | without a Shutdown the worker ends exactly when its queue is empty and no sender is left |
| `EventWorker.GetFindsAppended` | crates/orbitrelay-storage-sqlite/src/lib.rs:563-582 | what was appended is found, under its cursor, by every later Get |
| `CanvasReplay.LoadStroke` | crates/orbitrelay-server/src/canvas.rs:242-302 | a load that finishes has the projection the log stands for as it stood at its last query, despite appends between queries: not corrupted exactly when every Canvas event of the session decodes and the projector takes each of the stroke's events in append order, and then the last state of that chain; it is unavailable exactly when its last query fails; it finishes if none fails and the log stops growing for as many queries as the selection has pages |
| `CanvasReplay.FoldPage` | crates/orbitrelay-server/src/canvas.rs:260-296 | one page moves the projection by the fold over its events |
| `CanvasReplay.FoldIsChain` | crates/orbitrelay-server/src/canvas.rs:260-296 | the fold, over the projector's steps alone: the chain of states from nothing on, one step per event of the stroke, ending in the state returned |
| `CanvasReplay.WholeReplays` | crates/orbitrelay-server/src/canvas.rs:242-302 | the same over the log: the stroke's events are the session's Canvas events that decode to it |
| `CanvasReplay.CorruptedIffSomeEventBreaks` | crates/orbitrelay-server/src/canvas.rs:262-295 | the fold fails exactly when some Canvas event does not decode or some step is rejected |
| `CanvasReplay.FoldConcat` | crates/orbitrelay-server/src/canvas.rs:242-302 | folding page by page is folding the concatenation |
| `CanvasHistory.Execute` | crates/orbitrelay-server/src/canvas_history.rs:291-371 | a catalog fault is Unavailable, then no session NotFound, then a refusal exactly that refusal, then a capture failure, then each storage error its answer; a foreign checkpoint or cursor is InvalidRequest; Ok only if all of that is passed and the page fits, and then every event is a stored Canvas event of the session about the canvas; the page is that of the checkpointed query |
| `CanvasHistory.QueryErrorsAnswered` | crates/orbitrelay-server/src/canvas_history.rs:433-441 | which storage error is answered InvalidRequest, Unavailable or Internal |
| `CanvasHistory.PageIsAbout` | crates/orbitrelay-server/src/canvas_history.rs:339-353 | a page carries only stored Canvas events of the session about the canvas |
| `CanvasHistory.CollectTarget` | crates/orbitrelay-server/src/canvas_history.rs:340-353 | the events of a page about the canvas, or nothing if one does not decode |
| `CanvasHistory.FilterByPage` | crates/orbitrelay-server/src/canvas_history.rs:317-371 | filtering page by page is filtering the concatenation of the store's pages, unless the response-size guard stops the replay |
| `CanvasHistory.TargetsOfListing` | crates/orbitrelay-server/src/canvas_history.rs:340-353 | which events a listing yields, and that it yields none exactly when one does not decode |
| `CanvasHistory.HistoryIsComplete` | crates/orbitrelay-server/src/canvas_history.rs:291-371 | following continuations gives exactly the canvas's events of the session prefix at the checkpoint, in append order, in max(1, ceil(n/limit)) pages for n candidates; or breaks, exactly when a candidate does not decode or one of those pages, each described by its slice of the candidates, does not fit into a response |
| `CanvasHistory.OversizedPageBreaks` | crates/orbitrelay-server/src/canvas_history.rs:453-476 | a history whose only candidate decodes and whose replay breaks all the same, because its page does not fit |
| `CanvasHistory.FirstAnswer` | crates/orbitrelay-server/src/canvas_history.rs:333-371 | the handler's answer to a bounded request is the next slice of the candidates as a page, or Internal when that does not decode or fit |
| `CanvasHistory.CandidatesAreHits` | crates/orbitrelay-server/src/canvas_history.rs:397-416 | the canvas query selects the Canvas events of the session and no others |
| `Pipeline.Dispatch` | crates/orbitrelay-server/src/pipeline.rs:30-44 | success stores the whole batch and publishes it in order; a failed append publishes nothing; a failed publication leaves all stored and a front published; where it stops and why |
| `Pipeline.PersistAll` | crates/orbitrelay-server/src/pipeline.rs:31-35 | the batch is appended in order up to the first failure |
| `Pipeline.PublishAll` | crates/orbitrelay-server/src/pipeline.rs:37-41 | the batch is published in order up to the first failure |
| `Pipeline.GaplessHandoff` | crates/orbitrelay-server/src/pipeline.rs:30-44 | in every interleaving: published events are stored, and a client that subscribes and then takes a checkpoint has, with the history prefix at that checkpoint and after deduplication, each EventId once, only stored events, and every matching event of every successful dispatch |
| `Handoff.EndToEnd` | crates/orbitrelay-server/src/canvas_history.rs:291-371 | the same for what a client really holds: the pages it read by following continuations while dispatches went on, merged with its subscription; unless its replay breaks, each EventId once, only stored events of the canvas, and every event of the canvas of every successful dispatch |
| `Pipeline.LateEventSeenIffPublished` | crates/orbitrelay-server/src/pipeline.rs:37-41 | an event stored after the checkpoint is seen if and only if it was published since the subscription |
| `Pipeline.FailedDispatchLeavesAGap` | crates/orbitrelay-server/src/pipeline.rs:31-41 | a run in which a failed dispatch leaves a stored event the client never sees |
| `Pipeline.DedupKeepsMembers` | crates/orbitrelay-server/src/canvas_history.rs:317-337 | deduplicating by EventId loses no event |
| `AssetStore.WriteStaging` | crates/orbitrelay-asset-local-store/src/lib.rs:639-695 | success means the file holds exactly the source, no longer than declared, with its length and hash; it fails only for a source that is too long or an I/O fault |
| `AssetStore.VerifyBlob` | crates/orbitrelay-asset-local-store/src/lib.rs:863-899 | true exactly when the blob can be read and has the descriptor's length and hash |
| `AssetStore.BlobKeyInjective` | crates/orbitrelay-asset-local-store/src/lib.rs:1143-1145 | two ids never share a blob |
| `AssetStore.LocalAssetStore.Recover` | crates/orbitrelay-asset-local-store/src/lib.rs:792-836 | reports corruption exactly when a published blob does not verify or cannot be read, and has then changed nothing; otherwise leaves the recovered disk, or, when the transaction or a move fails, a part of that with nothing lost and nothing published changed |
| `AssetStore.ScanRecords` | crates/orbitrelay-asset-local-store/src/lib.rs:793-808 | succeeds exactly when every published blob verifies and can be read, and then the published keys and the staged ids are collected |
| `AssetStore.LocalAssetStore.EmptyStaging` | crates/orbitrelay-asset-local-store/src/lib.rs:838-861 | every staging file ends in quarantine, content for content; up to the move that fails |
| `AssetStore.LocalAssetStore.SweepBlobs` | crates/orbitrelay-asset-local-store/src/lib.rs:825-835 | exactly the blobs no published row names end in quarantine, content for content; up to the move that fails |
| `AssetStore.RecoveredState` | crates/orbitrelay-asset-local-store/src/lib.rs:792-836 | after recovery: no staged rows, the published rows as they were, empty staging, exactly the published blobs |
| `AssetStore.RecoveredDirectory` | crates/orbitrelay-asset-local-store/src/lib.rs:825-835 | on a safe disk the blob directory is then exactly the published keys |
| `AssetStore.RecoveryLosesNothing` | crates/orbitrelay-asset-local-store/src/lib.rs:838-861 | recovery neither loses nor copies any file's content |
| `AssetStore.RecoveryIsIdempotent` | crates/orbitrelay-asset-local-store/src/lib.rs:792-836 | recovering twice is recovering once |
| `AssetSafety.ApplyKeepsInv` | crates/orbitrelay-asset-local-store/src/lib.rs:321-460 | every step of every party (ingest, worker, cancellation, close, crash, recovery, quiet reopen) keeps the protocol's invariant and every published row and blob |
| `AssetReopen.CrashSafety` | crates/orbitrelay-asset-local-store/src/lib.rs:321-420 | in every quiet run each published row names a blob of its length and hash, and recovery never reports corruption |
| `AssetReopen.CrashedStateRecovers` | crates/orbitrelay-asset-local-store/src/lib.rs:792-836 | recovering any state of a quiet run leaves no staged row, an empty staging directory and a blob directory that is exactly the published keys |
| `AssetReopen.FirstWriterWins` | crates/orbitrelay-asset-local-store/src/lib.rs:336-420 | once published, row and bytes never change, and every answer given is true of the rows for good |
| `AssetReplies.ToldExactlyOnceIff` | crates/orbitrelay-asset-local-store/src/lib.rs:411-419 | a published id was published by exactly one step; exactly one ingest of it is told Inserted if and only if the caller was not cancelled when the worker took that step's command, and none otherwise |
| `AssetReplies.PublishedBySomeStep` | crates/orbitrelay-asset-local-store/src/lib.rs:994-1031 | an id is published if and only if some step of the run took a publish command for it |
| `AssetReplies.UnpublishedUntold` | crates/orbitrelay-asset-local-store/src/lib.rs:411-419 | nobody is told of an id that is not published |
| `AssetReplies.PublishedAndUntold` | crates/orbitrelay-asset-local-store/src/lib.rs:498-515 | for every asset, a quiet run that publishes it and tells nobody |
| `AssetReopen.LaterIngestAnswered` | crates/orbitrelay-asset-local-store/src/lib.rs:336-354 | any later ingest of a published id is told Existing for the published descriptor and of a conflict for any other, without effect |
| `AssetReopen.Drive` | crates/orbitrelay-asset-local-store/src/lib.rs:792-836 | from wherever it stands, recovery can be completed, leaving no staged row |
| `AssetRecovery.RecoveryRefines` | crates/orbitrelay-asset-local-store/src/lib.rs:792-836 | the recovery of the step machine, left to itself and in any order: a store that opens had every published blob verified and is left as `recover_storage` leaves it; one that refuses had a bad blob and is unchanged |
| `AssetReopen.StageAnswered` | crates/orbitrelay-asset-local-store/src/lib.rs:931-992 | a stage command that finds the id taken is answered like a lookup, or Failed when it is only staged, without effect |
| `AssetLateMove.IngestPublishes` | crates/orbitrelay-asset-local-store/src/lib.rs:321-420 | an undisturbed ingest of a new id publishes its bytes and returns Inserted |
| `AssetTidy.StagingIsTidy` | crates/orbitrelay-asset-local-store/src/lib.rs:361-409 | in every run without cancellation and crash in which removals succeed, every file in staging belongs to a call still running |
| `AssetTidy.IngestsAreSerial` | crates/orbitrelay-asset-local-store/src/lib.rs:336 | in every run at most one ingest of the open handle is under way for a caller |
| `AssetTidy.UnverifiedIngestFails` | crates/orbitrelay-asset-local-store/src/lib.rs:361-386 | an ingest whose bytes are too many, too few or of another hash ends with Failed and the disk it started from |
| `AssetTidy.FailedStageLeavesNothing` | crates/orbitrelay-asset-local-store/src/lib.rs:388-397 | so does one whose stage command fails |
| `AssetTidy.FailedRenameLeavesNothing` | crates/orbitrelay-asset-local-store/src/lib.rs:405-409 | so does one whose rename fails |
| `AssetTidy.FailedPublishQuarantines` | crates/orbitrelay-asset-local-store/src/lib.rs:411-418 | one whose publish command fails ends with Failed, no row, no blob and its bytes in quarantine |
| `AssetLateMove.LoseBlob` | crates/orbitrelay-asset-local-store/src/lib.rs:411-418 | from any state reopened while a call is before its compensation, a run that loses a published blob |
| `AssetLateMove.ReopenSafeIffQuiet` | crates/orbitrelay-asset-local-store/src/lib.rs:423-460 | a reopened store stays safe in every quiet run if and only if no surviving call was between rename and compensation |
| `AssetLateMove.LostBlobIsReachable` | crates/orbitrelay-asset-local-store/src/lib.rs:1155-1167 | for every asset, a run from an empty directory that ends with its published blob gone |
| `CatalogSafety.NextSequenceIsFresh` | crates/orbitrelay-catalog-sqlite/src/lib.rs:793-799 | MAX + 1 is greater than every sequence in use, so sequences stay unique |
| `CatalogStore.SQLiteCatalogStore.PublishDocument` | crates/orbitrelay-catalog-sqlite/src/lib.rs:771-840 | the transaction's effect and outcome are those of the specification: existing, conflict, or the whole graph inserted |
| `CatalogStore.SQLiteCatalogStore.PublishStandalone` | crates/orbitrelay-catalog-sqlite/src/lib.rs:842-870 | likewise for a standalone canvas |
| `CatalogStore.SQLiteCatalogStore.PublishStandaloneWithBinding` | crates/orbitrelay-catalog-sqlite/src/lib.rs:872-921 | likewise for a canvas with its bootstrap binding, both or neither |
| `CatalogStore.SQLiteCatalogStore.StoreBinding` | crates/orbitrelay-catalog-sqlite/src/lib.rs:1240-1272 | likewise for a binding, whatever the canvas's session |
| `CatalogStore.WriteDocument` | crates/orbitrelay-catalog-sqlite/src/lib.rs:793-840 | the insert loops add exactly the document, its pages and canvases, or nothing |
| `CatalogStore.WriteCanvas` | crates/orbitrelay-catalog-sqlite/src/lib.rs:969-1000 | row and layers are inserted, or nothing when a key is in use |
| `CatalogStore.WritePages` | crates/orbitrelay-catalog-sqlite/src/lib.rs:821-837 | the page rows are inserted under their key, uniqueness and reference constraints, or nothing |
| `CatalogStore.FindCollision` | crates/orbitrelay-catalog-sqlite/src/lib.rs:923-967 | true exactly when the document, a canvas or a layer id is in use |
| `CatalogStore.CompareCanvases` | crates/orbitrelay-catalog-sqlite/src/lib.rs:778-783 | whether every canvas is stored as given, or corruption when one is missing |
| `CatalogStore.ReadPages` | crates/orbitrelay-catalog-sqlite/src/lib.rs:1053-1096 | the document's rows in page order, or corruption when one is invalid |
| `CatalogStore.ReadDocument` | crates/orbitrelay-catalog-sqlite/src/lib.rs:1009-1051 | the document as loaded, nothing, or corruption |
| `CatalogStore.ScanDocuments` | crates/orbitrelay-catalog-sqlite/src/lib.rs:606-666 | the loop with `expected_sequence` accepts exactly when every document and its page canvases scan |
| `CatalogStore.ScanIntegrity` | crates/orbitrelay-catalog-sqlite/src/lib.rs:594-714 | accepts exactly the states with intact references, documents, canvases and bindings |
| `CatalogOutcomes.MissingPageNoticed` | crates/orbitrelay-catalog-sqlite/src/lib.rs:643-646 | the scan refuses a sound state from which any page row is missing |
| `CatalogOutcomes.MissingLayerNoticed` | crates/orbitrelay-catalog-sqlite/src/lib.rs:1154-1157 | ... or any layer row |
| `CatalogOutcomes.MissingCanvasNoticed` | crates/orbitrelay-catalog-sqlite/src/lib.rs:594-605 | ... or any canvas row |
| `CatalogOutcomes.MissingDocumentNoticed` | crates/orbitrelay-catalog-sqlite/src/lib.rs:594-605 | ... or any document row |
| `CatalogOutcomes.MisfitNoticed` | crates/orbitrelay-catalog-sqlite/src/lib.rs:655-664 | ... or in which an overlay canvas has another session or size than its page |
| `CatalogSafety.StepKeepsSound` | crates/orbitrelay-catalog-sqlite/src/lib.rs:771-1272 | after any command a sound state still scans if and only if a stored put-binding names its canvas's own session, and then keeps loading all it had |
| `CatalogSafety.ReachableStatesReopen` | crates/orbitrelay-catalog-sqlite/src/lib.rs:594-714 | every state reached by publications and such put-bindings passes the scan, and no overlay canvas has two pages (a layer row names one canvas by its key) |
| `CatalogSafety.InsertedDocument` | crates/orbitrelay-catalog-sqlite/src/lib.rs:771-840 | an inserted document and each of its canvases load exactly as given, and everything else as before |
| `CatalogSafety.InsertedStaysPublished` | crates/orbitrelay-catalog-sqlite/src/lib.rs:1002-1160 | the same in every later state |
| `CatalogSafety.ExistingIffPublished` | crates/orbitrelay-catalog-sqlite/src/lib.rs:777-788 | a publication is answered Existing exactly when all of it is stored as given |
| `CatalogSafety.OnlyInsertedChanges` | crates/orbitrelay-catalog-sqlite/src/lib.rs:771-1000 | any outcome but Inserted leaves documents, pages, canvases and layers unchanged; a failure leaves all |
| `CatalogOutcomes.StandaloneOutcome` | crates/orbitrelay-catalog-sqlite/src/lib.rs:842-870 | Existing exactly if the canvas is stored as given, Conflict exactly if another is stored under its id or a layer is in use, else Inserted; it is stored then |
| `CatalogOutcomes.BoundOutcome` | crates/orbitrelay-catalog-sqlite/src/lib.rs:872-921 | likewise with a binding: each outcome exactly when the binding fits, the canvas is stored, another is, or a layer is in use; canvas and binding are both there then |
| `CatalogOutcomes.BindingOutcome` | crates/orbitrelay-catalog-sqlite/src/lib.rs:1240-1272 | Existing, Conflict, a missing canvas or Inserted, each exactly when the key and the canvas say so |
| `CatalogOutcomes.NewDocumentOutcome` | crates/orbitrelay-catalog-sqlite/src/lib.rs:790-840 | a valid composition with a new id: Conflict exactly when a canvas or layer is in use, Inserted exactly when its own ids are apart, its page ids free and a sequence left |
| `CatalogOutcomes.StoredDocumentOutcome` | crates/orbitrelay-catalog-sqlite/src/lib.rs:777-789 | one with a stored id: Existing if stored as given, Corruption if it names a canvas that is not stored, else Conflict |
| `CatalogOutcomes.RunNumbered` | crates/orbitrelay-catalog-sqlite/src/lib.rs:793-799 | in every run the publication sequences are 0, 1, ..., n - 1 |
| `CatalogSafety.ForeignBindingBlocksReopen` | crates/orbitrelay-catalog-sqlite/src/lib.rs:1240-1272 | a canvas and a binding to another session make a state the scan refuses |
| `CatalogSafety.InsertedCanvasLoads` | crates/orbitrelay-catalog-sqlite/src/lib.rs:969-1000 | an inserted canvas loads as given and no other canvas loads differently |
| `CatalogSafety.AddedPagesLoad` | crates/orbitrelay-catalog-sqlite/src/lib.rs:1053-1096 | the pages of a new document load as given, in order |
| `CatalogListing.List` | crates/orbitrelay-catalog-sqlite/src/lib.rs:1162-1213 | the documents in publication order, of one session or all, up to the first that does not load |
| `CatalogListing.SessionListingIsFiltered` | crates/orbitrelay-catalog-sqlite/src/lib.rs:1162-1213 | listing a session is listing everything and keeping that session's documents, in the same order |
| `CatalogListing.InsertedIsListedLast` | crates/orbitrelay-catalog-sqlite/src/lib.rs:793-799 | an inserted document is listed after all listed before |
| `Coordinator.RunKeepsInv` | crates/orbitrelay-server/src/canvas.rs:23-142 | strong counts, holders, destructors and the table agree with what every ticket is doing, in every interleaving |
| `Coordinator.MutualExclusion` | crates/orbitrelay-server/src/canvas.rs:114-142 | at most one lease per scope |
| `Coordinator.LiveEntryIsInTable` | crates/orbitrelay-server/src/canvas.rs:120-136 | the live entry of a scope is unique and is the one in the table |
| `Coordinator.LateDropKeepsReplacement` | crates/orbitrelay-server/src/canvas.rs:44-61 | a destructor, however late, leaves the table entry of every live entry alone |
| `Coordinator.SettledTable` | crates/orbitrelay-server/src/canvas.rs:44-94 | once drops have settled the table lists exactly the scopes with a holder or a waiter |
| `CoordinatorProgress.LeaseGranted` | crates/orbitrelay-server/src/canvas.rs:114-142 | a ticket that wants a scope nobody uses is granted its lease on a new entry |
| `CoordinatorProgress.LeaseHandedOver` | crates/orbitrelay-server/src/canvas.rs:103-112 | a waiter gets the lease, on the same entry, once the holder lets it go |
| `CoordinatorProgress.LeaseCleanedUp` | crates/orbitrelay-server/src/canvas.rs:44-61 | the only holder gives up: entry and key are gone, the rest is as it was |
| `CoordinatorProgress.CancelledWaiterLeaves` | crates/orbitrelay-server/src/canvas.rs:136 | a cancelled waiter gives up its reference and leaves the others alone |
| `CoordinatorProgress.PruneRemovesStale` | crates/orbitrelay-server/src/canvas.rs:86-94 | an undisturbed prune ends, having removed exactly the stale keys |
| `CoordinatorProgress.PruneStarts` | crates/orbitrelay-server/src/canvas.rs:86-94 | every prune of every run starts on all keys of the table, owning nothing |
| `Coordinator.PruneMayDeadlockIff` | crates/orbitrelay-server/src/canvas.rs:86-94 | some continuation leaves the prune stuck on its own lock if and only if it still has a live entry to touch |
| `Coordinator.StuckForever` | crates/orbitrelay-server/src/canvas.rs:44-61 | from then on the table never changes and the prune never returns |
| `Coordinator.DeadlockIsReachable` | crates/orbitrelay-server/src/canvas.rs:77-94 | a run from the empty coordinator that gets there |
| `Base64Url.EncodeText` | crates/orbitrelay-server/src/asset_delivery/grant.rs:200-217 | the loops over the truncating 32-bit buffer write the base64url digits of the bytes, for any length |
| `Base64Url.EncodeByte` | crates/orbitrelay-server/src/asset_delivery/grant.rs:205-212 | one byte and the inner loop are one step of the bit-level specification |
| `Base64Url.DecodeText` | crates/orbitrelay-server/src/asset_delivery/grant.rs:219-243 | nothing for an empty text or one outside the alphabet, else the decoded octets |
| `Base64Url.TokenRoundTrip` | crates/orbitrelay-server/src/asset_delivery/grant.rs:200-243 | decoding inverts encoding, and n bytes take ceil(8n/6) characters (32 take 43) |
| `Base64Url.EncodeOfDecode` | crates/orbitrelay-server/src/asset_delivery/grant.rs:200-243 | encoding what was decoded clears exactly the bits that belong to no octet |
| `Base64Url.EmitIsEncode` | crates/orbitrelay-server/src/asset_delivery/grant.rs:200-217 | reading byte by byte computes the 24-bit groups of section 4 of RFC 4648 |
| `Base64Url.ValueInvertsSymbol` | crates/orbitrelay-server/src/asset_delivery/grant.rs:227-234 | the decoder's ranges and the encoder's table are inverse to each other |
| `Base64Url.AcceptToken` | crates/orbitrelay-server/src/asset_delivery/grant.rs:146-157 | the checks of `validate` yield the key a token stands for, or nothing |
| `Base64Url.KeyOfInvertsToken` | crates/orbitrelay-server/src/asset_delivery/grant.rs:146-157 | a text stands for a key exactly when it is that key's encoding: one token per key, one key per token |
| `Base64Url.AcceptedTokens` | crates/orbitrelay-server/src/asset_delivery/grant.rs:146-157 | accepted are exactly the texts of 43 symbols whose last has no bit left over |
| `Grants.AssetAccessGrantIssuer.Issue` | crates/orbitrelay-server/src/asset_delivery/grant.rs:105-138 | the registry and the outcome are those of the specification: expired grants purged, bound checked, digest stored |
| `Grants.AssetAccessGrantIssuer.Validate` | crates/orbitrelay-server/src/asset_delivery/grant.rs:141-175 | likewise for a validation, which removes an expired entry |
| `Grants.RegistryBounded` | crates/orbitrelay-server/src/asset_delivery/grant.rs:120-123 | the registry never exceeds `max_grants`, over every run |
| `Grants.ExpiryIsNowPlusTtl` | crates/orbitrelay-server/src/asset_delivery/grant.rs:112-115 | the expiry is now plus the lifetime, held within the range of an i64 |
| `Grants.IssueOutcome` | crates/orbitrelay-server/src/asset_delivery/grant.rs:105-138 | a grant for its asset and holder exactly when the expiry is representable, fewer than max_grants are unexpired and a key was drawn; else which error |
| `Grants.ValidationRefusal` | crates/orbitrelay-server/src/asset_delivery/grant.rs:141-175 | a validation that does not succeed is answered Unauthorized |
| `Grants.ValidatedWasIssued` | crates/orbitrelay-server/src/asset_delivery/grant.rs:141-175 | behind every successful validation, before expiry and for its asset, is an earlier issue of exactly that grant |
| `Grants.IssuedTokenValidates` | crates/orbitrelay-server/src/asset_delivery/grant.rs:105-175 | an issued token validates exactly when it is unexpired, the asset is its own and no operation in between purged it |
| `Grants.EntryStaysUntilPurged` | crates/orbitrelay-server/src/asset_delivery/grant.rs:120-121 | an entry stays until the first operation that carries a time past its expiry and looks at it |
| `Grants.MonotoneClock` | crates/orbitrelay-server/src/asset_delivery/grant.rs:105-175 | under a clock that does not run back a token validates for its asset at every time before its expiry and at no other |
| `Delivery.DecimalRoundTrip` | crates/orbitrelay-server/src/asset_delivery/range.rs:66-68 | parsing a printed `u64` gives it back |
| `Delivery.ParseRangeIsDenotation` | crates/orbitrelay-server/src/asset_delivery/range.rs:57-89 | a header is accepted with a range exactly when it has one of the three forms and denotes that range, which then lies within the asset |
| `Delivery.RefusedHeaders` | crates/orbitrelay-server/src/asset_delivery/range.rs:57-89 | Multiple exactly for a comma after the unit, Malformed exactly when unit, dash or a number is missing, Unsatisfiable exactly when what is asked for is not there |
| `Delivery.PublishedAssetStaysServed` | crates/orbitrelay-asset-local-store/src/lib.rs:552-629 | in every quiet run, from its publication on an asset is served with one content of its length and hash |
| `Delivery.ServedRead` | crates/orbitrelay-asset-local-store/src/lib.rs:570-629 | within the asset exactly the requested bytes are read |
| `Delivery.ReadOutcome` | crates/orbitrelay-asset-local-store/src/lib.rs:557-629 | every read: as far as the asset goes, nothing at its end, an error past it or for an asset not published |
| `Delivery.StreamAsset` | crates/orbitrelay-server/src/asset_delivery/http.rs:359-396 | what is written is a prefix of the requested slice, all of it exactly if the loop finished, which it does if nothing interferes; every other end has its cause |
| `Delivery.Get` | crates/orbitrelay-server/src/asset_delivery/http.rs:243-310 | 400, 416 and 503 exactly when due; else the body is the slice named by status, Content-Range and Content-Length, or a prefix of it when interrupted |
| `Delivery.ContentRangeNamesOneSlice` | crates/orbitrelay-server/src/asset_delivery/http.rs:268-273 | a Content-Range value names one range of one length |

## Left out

- SQLite itself, pragmas, WAL, power loss, schema creation and version checks.
- Listeners, HTTP parsing and header writing, CORS, timeouts, semaphores other than the outcome of one permit; HEAD and OPTIONS requests.
- Configuration, bootstrap, wiring, access policies, lifecycle, health and context: easy members only.
- `StrokeProjector`, Canvas payload decoding, `EventQuery::matches`, authorization and response-size measurement: arbitrary functions here.
- The catalog's and the asset store's own worker queues: they have the shape of the event store's, which is modelled.
- Dropping the whole coordinator or a whole store handle while calls are in flight; `key_count` beyond its prune.
- The content of quarantine names and the `DocumentSummary` projection with its page-count overflow.
- Symbolic links and other non-regular files in the asset directories.
- AssetSafety.ApplyKeepsInv: stated for steps whose reopen is quiet, because it is false otherwise (AssetLateMove.ReopenSafeIffQuiet).
