# Transmogr replication: a verified model

Transmogr replicates PostgreSQL tables between regions. Each region captures its own changes (by polling or by
logical replication), stages them in an outbox per peer, and serves them to consumers as a snapshot followed by
event batches. A consumer commits each batch with per-feed cursors and then acknowledges it. This project models
the replication protocol between a sending and a receiving region and the algorithms it rests on, and proves what
the protocol keeps over every run.

Tables are maps from keys to rows, every SQL statement is one atomic step on such maps, and live channels are
bounded sequences with an explicit drop. Clocks, nonces, failure points and the moments at which a changing table
is read are parameters, so the results hold for all of them.

## Files

| files | part of the system |
|---|---|
| `Decimal`, `PrimaryKeys`, `KeyMeaning`, `Utf8`, `Positions` | key order, what it means, by character and by byte, and event positions |
| `Rows`, `BatchApply` | row statements, batched application against one-by-one application |
| `Commit`, `Transactions` | stale-cursor filter, atomic commit, redelivery |
| `Repository`, `ApplyService` | the receiver's repository and apply service, in imperative form |
| `Modes` | what a delivered batch does to every row, by operation, owner and apply mode |
| `OwnerGating` | row ownership over whole runs |
| `Outbox`, `Served` | outbox rows and channels; one served session |
| `Feed`, `FeedSafety`, `LossCondition`, `LostBatch` | the end-to-end feed as a state machine, no loss, when exactly an event is lost, and a run that loses one |
| `Paging`, `SnapshotSend`, `SnapshotJobs`, `FuzzySnapshot` | snapshot reads, jobs, chunks of a changing table |
| `Convergence` | chunks and event batches on one store, in any order |
| `Bootstrap`, `BootstrapRuns`, `OverlappingSessions` | bootstrap and catch-up as a state machine, and when it converges |
| `EventIds`, `Producer`, `StoredOrder`, `ProducerCases` | event ids, enqueueing with retries, and the order in which batches are stored |
| `Polling`, `PollingRuns`, `Capture`, `CapturedRows`, `UpdateDiff` | where changes come from, and that they carry the source's rows |
| `Leases` | lease rows and sessions |
| `Composition` | how the guarantees of one part meet what another relies on |
| `Wire`, `Transit` | wire encoding and encrypted fields in transit |

## Conditions

The results carry the following conditions as preconditions or as guards of steps, never as assumptions.

- Event positions (version, key) strictly increase in outbox id order for each sending region and table. Every one
  attempt of the producer adds batches that are so (`ProducedBatchesAreOrdered`); a retry keeps it exactly as
  `AttemptKeepsOrderIff` says, and `RetryAfterAckReorders` is a retry that does not.
- The database orders keys as `ComparePrimaryKeys` does. Key values are well formed for their type;
  `MalformedIntegersBreakTheOrder` shows what happens otherwise.
- In the feed, no two batches for a peer share table key and last event id; the outbox insert keeps pending keys
  unique, and `PreimageSplits` says when ids differ. A chunk that a retry stores again after its acknowledgement
  shares both with the first copy.
- A batch whose creation time is at or below a sampled watermark is visible when that watermark is sampled, and
  creation times do not decrease in id order.
- The payload of an event holds the non-key columns; the key columns are held once, as the key.
- One worker per owner id holds a lease on a scope at a time.
- For captured rows, the relations of a stream do not change, the old tuple of an update or delete is the row the
  table held (REPLICA IDENTITY FULL), and no insert meets a key that is present.
- For convergence, each chunk is a true read of the source at some moment, and the batches received are stretches of
  the source's log without a gap; repeats and overlaps are allowed.

Several properties do not hold unconditionally. Each of these has its exact condition, in both directions:
`BatchRefinesSequentialIff` (an Update that follows another operation on its key in one batch is lost),
`LastDiffSufficesIff` (only the last of several diffs of a row in one batch is applied),
`OwnerOnlyClaimedIff` (an Update payload with another region reassigns a row),
`EventsPendingIff` (a chunk whose last event id is already pending is not stored, whatever else it holds),
`AttemptKeepsOrderIff` (a chunk stored again comes after a later one that is still pending),
`LostIffOvertaken` (a dropped batch is replayed after a later one of its feed was processed),
`OpenIffOutlived` (a worker goes on after its lease ran out),
`MessageCarriedIff` (an update that changes the key of a local row or takes a row to or from the region, and an insert
at a key where the receiver has another region's row, are not carried over),
`BootstrapConvergesIff` (a chunk read before a change and received after it puts the old row back),
`PassedUnsentIffSkipped` (a restart without a saved cursor skips what was written since the first start),
`TransitRoundTripIff` (names outside a-z, 0-9, underscore and dash do not come back), `EventRoundTripIff` and
`NothingFilteredIff`. Runs and inputs that fail are given by `OverlappingSessionsDiverge` (two overlapping bootstrap
sessions leave an old row for good), `DroppedBatchIsLost` (a batch dropped on a full channel is acknowledged without
its event ever being applied), `RetryAfterAckReorders`, `SecondBatchLosesAnEvent`, `BlindStartLosesARow`,
`LateRenewalLetsTwoRun` and `ReleaseResetsGenerations`.

Some small lemmas only link the parts: `CapturedChangesCarryRegion` and `CapturedChangesAreFullImages` say that
captured changes are what row ownership and batched application rely on, `PublishedAsOffered` that the outbox's
channels are the feed's, `OperationsOnTheWire` which number each operation has on the wire, and `NoTransitEntryLeft`
that no transit entry passes the inbound pipeline.

## Model

| member | source | states |
|---|---|---|
| PrimaryKeys.ComparePrimaryKeys | internal/models/primary_key.go:85-105 | the index loop computes the lexicographic key order `KeyOrder`, shorter keys first |
| KeyMeaning.KeyOrderMeans | internal/models/primary_key.go:85-254 | for any two keys, the comparison is negative, zero or positive exactly as the first part that differs by column name, type or value, booleans, numbers and bytes compared as such, decides, or else the lengths |
| PrimaryKeys.KeyOrderIsTotalPreorder | internal/models/primary_key.go:189-254 | on well-formed keys the comparison is antisymmetric, reflexive and transitive, with strictness carried through |
| PrimaryKeys.KeyOrderZero | internal/models/primary_key.go:85-254 | on canonical keys, comparing equal means being equal |
| Utf8.TextOrderIsByteOrder | internal/models/primary_key.go:206-254 | comparing two texts by character is comparing their UTF-8 bytes |
| PrimaryKeys.MalformedIntegersBreakTheOrder | internal/models/primary_key.go:218-235 | three integer keys, one malformed, form a cycle under the byte fallback |
| BatchApply.DedupKeepsLast | internal/repository/postgres/events.go:16-60 | deduplication leaves exactly the last event of every key, once |
| BatchApply.SafeBatchRefinesSequential | internal/repository/postgres/events.go:16-82 | for whole-row events of one region without a lost update, upserts, then updates, then deletes of the deduplicated batch give the table of one-by-one application |
| BatchApply.LostUpdateDiverges | internal/repository/postgres/events.go:40-60 | for every batch with a lost update there is a table on which batched and one-by-one application differ |
| BatchApply.BatchRefinesSequentialIff | internal/repository/postgres/events.go:16-210 | batched application agrees with one-by-one application on all tables if and only if no key ends in an Update preceded by another operation on it |
| Commit.StaleIffNotAfter | internal/repository/postgres/state_events.go:81-90 | the staleness test says exactly that the event is not strictly after the cursor |
| Commit.FilterMovesForward | internal/repository/postgres/state_events.go:40-63 | the running filter never moves a cursor back and leaves every processed event at or before its cursor |
| Commit.CommitMovesForward | internal/repository/postgres/state_events.go:10-79 | a commit, failed or not, moves no cursor back; a successful one covers all its events |
| Commit.CommitAbsorbs | internal/repository/postgres/state_events.go:25-75 | committing new events interleaved with already committed ones equals committing the new ones alone |
| Commit.ExactlyOnceEffect | internal/repository/postgres/state_events.go:25-90 | a run of deliveries with arbitrary repeats ends with the tables and cursors of delivering every batch once, in order |
| Commit.NothingFilteredIff | internal/repository/postgres/state_events.go:40-63 | the filter keeps a whole batch if and only if it is in order and beyond the cursors |
| Transactions.BatchIsOneByOne | internal/repository/postgres/events.go:16-82 | for transactions over several tables, batched and one-by-one application give the same tables |
| Transactions.CommitIsOneByOne | internal/repository/postgres/state_events.go:10-79 | an in-order safe whole-row transaction commits, has the one-by-one effect, and leaves each cursor at the last event of its feed |
| Repositories.GroupByColumns | internal/repository/postgres/events.go:132-176 | updates are partitioned by column set, in order of first occurrence |
| Repositories.Repository.ApplyUpsertBatch | internal/repository/postgres/events.go:85-127 | one upsert statement over the events, failing on an unknown table or column and changing nothing then |
| Repositories.Repository.ApplyPartialUpdateGroup | internal/repository/postgres/events.go:178-210 | one update statement over events with one column set |
| Repositories.Repository.ApplyPartialUpdateBatch | internal/repository/postgres/events.go:132-176 | the grouped updates together act like one statement over all updates |
| Repositories.Repository.ApplyDeleteBatch | internal/repository/postgres/events.go:272-323 | one gated delete statement over the events |
| Repositories.FillGroups | internal/repository/postgres/events.go:16-60 | the group maps hold the surviving events of every feed, feeds in order of first occurrence |
| Repositories.Repository.ApplyEventsBatch | internal/repository/postgres/events.go:16-82 | the method succeeds exactly when every statement names known tables and columns, and then computes `ApplyBatch` |
| Repositories.Repository.GetStateCursorForUpdate | internal/repository/postgres/state_cursor.go:83-124 | creates a missing cursor row at the initial position and returns the stored cursor |
| Repositories.FilterStale | internal/repository/postgres/state_events.go:40-63 | the loop over running and final cursors computes the kept events and the advanced cursors |
| Repositories.Repository.CommitStateAppliedTransaction | internal/repository/postgres/state_events.go:10-79 | the method computes the atomic commit `CommittedOr`: filter, batched application and cursors together, or nothing |
| ApplyService.StableSortUnique | internal/service/replication/service.go:325-348 | a batch has only one stable sort by feed and position |
| ApplyService.SortThenFilterIsExact | internal/service/replication/service.go:325-348 | after the stable sort the filter keeps, at every position beyond the stored cursor, the first event delivered for it, and nothing else |
| ApplyService.ApplyBatch | internal/service/replication/service.go:289-335 | validates, filters by mode, sorts polling batches and commits; a malformed event rejects the batch and changes nothing |
| Modes.NewestHasEffect | internal/service/replication/service.go:289-405 | in every mode, of a delivered batch of one region in order, the newest allowed event of a key beyond the cursor inserts, overwrites, patches or removes the row as its operation and the row's owner say |
| Modes.UntouchedStays | internal/repository/postgres/events.go:16-82 | a row without an allowed event beyond the cursor stays |
| Modes.InsertOnlyKeepsRows | internal/service/replication/service.go:394-405 | in insert_only mode no batch changes or removes a row that is present |
| Modes.InsertOnlyRunKeepsRows | internal/service/replication/service.go:394-405 | the same for any run of batches |
| Modes.InsertOnlyAddsRow | internal/repository/postgres/events.go:84-127 | in insert_only mode, among whole-row inserts, the newest one of an absent row leaves the sender's row |
| Modes.UpsertIsFullSyncWithoutDeletes | internal/service/replication/service.go:394-405 | upsert mode commits what full sync commits of the batch without its deletes |
| OwnerGating.ApplySnapshotChunk | internal/repository/postgres/snapshot.go:97-164 | a chunk is applied as one gated upsert, or fails on an unknown table or column and changes nothing |
| OwnerGating.ForeignRowsUntouched | internal/repository/postgres/events.go:84-323 | no run of batches and chunks from a region changes or removes a row owned by another region |
| OwnerGating.OwnerOnlyClaimedIff | internal/repository/postgres/events.go:215-260 | an event can only claim unowned rows, on every row, if and only if it carries its own region when it is an Update that sets the region |
| OwnerGating.OwnersOnlyClaimed | internal/repository/postgres/snapshot.go:213-315 | over a run in which a row exists throughout, its owner stays or goes from none to the sender |
| Outboxes.Outbox.NextSequence | internal/repository/postgres/outbox.go:18-36 | sequences of a peer and table count up by one from one |
| Outboxes.Outbox.Insert | internal/repository/postgres/outbox.go:39-91 | an invalid batch fails; a batch whose key is pending is not stored; otherwise it is appended under a new highest id |
| Outboxes.Outbox.Enqueue | internal/service/outbox/service.go:80-91 | a stored batch is offered to every live channel of its peer, and dropped where the channel is full |
| Outboxes.Outbox.ListPendingWindow | internal/repository/postgres/outbox.go:122-162 | returns the first page of the window's batches beyond an id, in id order |
| Outboxes.Outbox.Ack | internal/repository/postgres/outbox.go:165-185 | deletes exactly the batches with the acknowledged key |
| Outboxes.AckDeletesOne | internal/repository/postgres/outbox.go:165-185 | an acknowledgement deletes at most one batch |
| Outboxes.Outbox.Cleanup | internal/repository/postgres/outbox.go:202-243 | deletes batches that are too old, then those beyond the newest allowed number of their peer |
| Outboxes.NewestAreKept | internal/repository/postgres/outbox.go:202-243 | of the batches of every peer, a cleanup by count keeps exactly the newest, up to the allowed number |
| Outboxes.Outbox.Subscribe | internal/service/outbox/service.go:94-120 | registers an empty channel under a new id |
| Outboxes.Outbox.Unsubscribe | internal/service/outbox/service.go:105-119 | removes the channel, and the peer when it was its last |
| Served.ReplayPendingBatches | internal/transport/grpc/server/handlers.go:184-221 | the paged replay ends and sends exactly the window's batches in id order, while acknowledgements delete sent batches between pages |
| Served.ForwardLiveBatches | internal/transport/grpc/server/handlers.go:223-244 | forwards exactly the live batches younger than the watermark, in order |
| Served.ReplayTwoWindows | internal/transport/grpc/server/handlers.go:125-131 | the two windows are sent one after the other, nothing lost or repeated at the seam |
| Served.Consume | internal/transport/grpc/server/handlers.go:66-163 | a session without drops sends every batch pending at its start or enqueued later exactly once, in increasing id order |
| FeedSafety.StepKeeps | internal/transport/grpc/server/handlers.go:66-182 | every step of the feed, with overlapping sessions, drops, pruning and disconnects, keeps the protocol invariant |
| FeedSafety.AckIsExact | internal/transport/grpc/client/recv.go:105-158 | an acknowledgement deletes the batch that was processed and no other |
| FeedSafety.NoLoss | internal/transport/grpc/client/recv.go:105-147 | after every run, each event of an acknowledged batch was committed, is excluded by the apply mode, or sits in a batch dropped on a full channel |
| LossCondition.AppliedIffNotOvertaken | internal/repository/postgres/state_events.go:40-90 | of a batch first accepted after any run and followed by any other, an allowed event is applied in the end if and only if no later batch with an allowed event of its feed had been processed when the batch was accepted |
| LossCondition.LostIffOvertaken | internal/transport/grpc/client/recv.go:105-147 | every run that processes or acknowledges a batch accepts it for the first time at one step, and an allowed event of it is applied in the end if and only if it was not overtaken there |
| LossCondition.OvertakenWasLost | internal/service/outbox/service.go:261-276 | only batches dropped on a full channel or pruned are overtaken |
| FeedSafety.PassedBatchIsAcceptedUnapplied | internal/repository/postgres/state_events.go:40-90 | a batch that the cursors have passed is accepted without committing any of its events |
| LostBatch.DroppedBatchIsLost | internal/service/outbox/service.go:261-276 | a run from the start in which a full live channel drops a batch, a later one is applied, and a new session replays the dropped one: it is acknowledged, was never pruned, and its allowed event was never applied |
| Paging.PageThenRest | internal/repository/postgres/snapshot.go:42-59 | a page followed by what lies beyond its last row is the whole ordered rest |
| SnapshotSend.ReadSnapshotChunk | internal/repository/postgres/snapshot.go:17-94 | the loop reads the first owned rows beyond the key, in key order, and marks a short chunk as last |
| SnapshotSend.ChunkIsExact | internal/repository/postgres/snapshot.go:30-93 | a chunk shows exactly the owned rows of its key range, each as the table held it, in strictly increasing key order |
| SnapshotSend.SendToPeer | internal/service/snapshot/service.go:183-213 | the loop sends the chunks of `Sent` and reports whether it finished |
| SnapshotSend.RangesPartition | internal/service/snapshot/service.go:194-212 | over a changing table, every key falls in exactly one chunk range of a send, and in none beyond a cut |
| SnapshotSend.FinishedSendCoversAll | internal/service/snapshot/service.go:194-212 | a finished send from the start answers for every key in exactly one chunk |
| SnapshotSend.SteadyRowIsSent | internal/service/snapshot/service.go:194-212 | a row present and owned throughout is sent if and only if its key is covered |
| SnapshotSend.SentIncreases | internal/service/snapshot/service.go:194-212 | the rows of a send strictly increase in key, so none is sent twice |
| SnapshotSend.LastIsFinal | internal/service/snapshot/service.go:206-208 | only the final chunk is marked last, exactly when the send finished |
| SnapshotSend.ResumeContinues | internal/service/snapshot/service.go:183-213 | a cut send and its resumption at the last key sent are together one send |
| SnapshotSend.ResumeEnds | internal/service/snapshot/service.go:183-213 | the resumption finishes, and reaches a key, exactly as the joined send does |
| SnapshotSend.UnchangingTableIsSentSorted | internal/service/snapshot/service.go:194-212 | on an unchanging table the chunks concatenate to the sorted owned rows after the resume key |
| SnapshotSend.UnchangingTableFinishes | internal/service/snapshot/service.go:194-212 | on an unchanging table a send with more reads than rows finishes |
| SnapshotJobs.JobStore.UpsertStateSnapshotJob | internal/repository/postgres/state_snapshots.go:59-82 | creates or resets a job; it is unfinished afterwards and keeps its watermark if none is given |
| SnapshotJobs.JobStore.CommitStateSnapshotCheckpoint | internal/repository/postgres/state_snapshots.go:85-130 | records progress unless the job is finished, and says which |
| SnapshotJobs.JobStore.MarkStateSnapshotFinished | internal/repository/postgres/state_snapshots.go:133-146 | finishes an existing job and creates none |
| SnapshotJobs.JobStore.RecordChunk | internal/service/snapshot/service.go:240-292 | after a chunk the job is unfinished, its checkpoint is the chunk's last key or the one it had, and no other job changed |
| FuzzySnapshot.ReplayCatchesUp | internal/repository/postgres/events.go:16-82 | replaying the log over a row read at a later moment gives the row of the replayed point from that moment on |
| FuzzySnapshot.ChunksLand | internal/repository/postgres/snapshot.go:97-164 | after any chunks, in any order, a row the receiver lacked is one the source held meanwhile, or was not read |
| FuzzySnapshot.ReplayIsOneByOne | internal/repository/postgres/state_events.go:10-79 | committed safe batches in order have the effect of their events one by one |
| FuzzySnapshot.FuzzySnapshotConverges | internal/service/snapshot/service.go:183-213 | chunks that answer for every key, then the log since the first read, leave the receiver with the source's owned rows at any point at or after the last read, and other regions' rows as they were |
| Convergence.BatchLands | internal/repository/postgres/state_events.go:10-90 | a batch of the log received after others commits, its known part has no effect, its new part is applied change by change, and the cursors are then at the last changes received |
| Convergence.RowAfterReceipts | internal/transport/grpc/client/recv.go:43-158 | chunks and batches in any order: every row is the one the last chunk brought, or none, changed by the changes received since; other regions' rows stay |
| Convergence.KeyConvergesIff | internal/repository/postgres/snapshot.go:97-164 | with the log received beyond the last read, the row of an answered key is the source's if and only if the last chunk that brought it was not read before, and received after, a change that nothing followed |
| Convergence.ConvergesIff | internal/repository/postgres/snapshot.go:97-164 | the whole receiver has the source's owned rows if and only if that holds of every key |
| Convergence.WithoutLateChunksConverges | internal/transport/grpc/server/handlers.go:101-148 | if no chunk of a table is received after a change of the table, the receiver converges |
| Bootstrap.ChunkCovers | internal/service/snapshot/service.go:233-292 | a chunk that starts where coverage ends extends it to its last key, or to all keys if it is last |
| Bootstrap.StepKeeps | internal/service/snapshot/service.go:233-297 | every read, write, chunk, event batch, completion and crash of overlapping sessions on one store keeps the bootstrap invariant |
| Bootstrap.SkippingIsSafe | internal/service/replication/service.go:182-215 | in every run, a table that is skipped has had its whole key range applied by chunks, and no checkpoint lies beyond applied keys |
| Bootstrap.StoreFollowsReceipts | internal/transport/grpc/client/recv.go:43-158 | in every run the store is what the chunks and batches received, in their order, make of the first one |
| BootstrapRuns.BootstrapConvergesIff | internal/service/replication/service.go:182-215 | in full sync, or in upsert mode for a log without deletes: after every run that leaves all tables skippable, sessions overlapping or not, the receiver has the source's owned rows at the last point received if and only if no row was last brought out of date |
| BootstrapRuns.SerialBootstrapConverges | internal/service/replication/service.go:182-215 | in the same modes, if sessions follow one another, with crashes anywhere, no chunk of a table comes after a change of it, and the receiver converges once all tables are skippable |
| OverlappingSessions.OverlappingSessionsDiverge | internal/repository/postgres/snapshot.go:97-164 | a run of two overlapping sessions that receives the whole log, twice, and has its table skipped from then on, while the row stays as it was before the change |
| EventIds.Hasher.WritePrimaryKeyParts | internal/service/changefeed/service.go:232-243 | writes the part count and the three length-prefixed texts of every part |
| EventIds.Hasher.WriteChange | internal/service/changefeed/service.go:207-230 | writes the preimage of the change's id |
| EventIds.PreimageSplits | internal/service/changefeed/service.go:207-243 | the bytes, whatever follows them, determine table, ordered key parts, version and operation, and their own end |
| Producers.ChunksPartition | internal/service/changefeed/service.go:321-326 | the chunks concatenate to the events in order, and each holds between 1 and the maximum |
| Producers.EnqueueBatch | internal/service/changefeed/service.go:308-348 | with a failure anywhere, pending batches stay, and of the chunks handled so far exactly those whose last event id is not taken are added after them, in order and under strictly rising sequences; with two writes for each chunk it succeeds |
| Producers.PutAllMembers | internal/repository/postgres/outbox.go:54-60 | enqueueing adds exactly the chunks whose last event id neither a pending batch nor an earlier chunk has |
| Producers.EventsPendingIff | internal/repository/postgres/outbox.go:54-60 | then every event is pending if and only if the events of the skipped chunks are in pending batches or in chunks that are not skipped |
| Producers.RetryIsUnambiguous | internal/service/changefeed/service.go:157-205 | attempts that stored some chunks, and any deletions, leave ids telling the chunks apart for the next attempt |
| Producers.FirstAttemptIsUnambiguous | internal/service/changefeed/service.go:157-243 | ids tell the chunks apart for distinct changes none of whose ids ends a pending batch yet |
| Producers.Producer.SaveCursor | internal/service/changefeed/service.go:284-306 | each table's cursor moves to its last change or, after a failure, stays; on success, which enough writes give, all have moved |
| Producers.Producer.HandleBatch | internal/service/changefeed/service.go:157-205 | for every peer some first chunks are added after what was pending, in order, or skipped; cursors move only once all are, which enough writes give; and then every event is pending for every peer if and only if the events of skipped chunks were held elsewhere |
| Producers.Producer.HandleUntilStored | internal/service/changefeed/service.go:157-205 | handed in again after failures anywhere and any deletions, a batch of distinct changes none of whose ids ended a pending batch leaves every allowed event pending for every peer, keys unique and cursors at the last changes; without deletions in between it leaves, in order, what one attempt without a failure would |
| StoredOrder.OrderKeptIff | internal/repository/postgres/outbox.go:39-91 | adding the chunks that are not skipped keeps what is pending in the order of its events if and only if no chunk stored again precedes one with a feed in common that is still pending |
| StoredOrder.AttemptKeepsOrderIff | internal/service/changefeed/service.go:308-348 | the same for a handled batch and each of its peers, whatever was deleted before |
| StoredOrder.FirstAttemptKeepsOrder | internal/service/changefeed/service.go:308-348 | a first attempt keeps the order |
| ProducerCases.RetryAfterAckReorders | internal/service/changefeed/service.go:157-205 | two events stored, the cursor not saved, the older event acknowledged and the batch handed in again leave the older event after the younger one |
| ProducerCases.SecondBatchLosesAnEvent | internal/repository/postgres/outbox.go:54-60 | a batch that ends with the id of a pending one is skipped and its cursor saved, while its first event is pending nowhere |
| Composition.ProducedBatchesAreWellMade | internal/service/changefeed/service.go:314-339 | the key a consumer acknowledges is the key the producer stored the batch under |
| Composition.ProducedBatchesAreOrdered | internal/service/changefeed/service.go:308-348 | for rising events, what any one attempt adds for a peer has rising ids and event positions and unique keys, as the feed requires of its log |
| Composition.BroadcastByOperation | internal/service/changefeed/service.go:157-183 | a producer broadcasts exactly the changes whose operation its mode lets through |
| Polling.Poller.RestoreCursor | internal/service/changefeed/adapter/polling.go:82-106 | a saved cursor is restored, a missing one starts at the newest version |
| Polling.Poller.PollTable | internal/service/changefeed/adapter/polling.go:118-147 | the scan ends; accepted batches are the rows beyond the cursor in strictly increasing order, all of them unless a batch is refused, and the cursor stops at the last accepted row |
| Polling.PageThenRest | internal/repository/postgres/changefeed_polling.go:63-153 | a page and what lies beyond its last row are the whole rest, and a short page leaves nothing |
| PollingRuns.PassedUnsentIffSkipped | internal/service/changefeed/service.go:186-204 | over all crashes and restarts, the rows that the saved cursor passed without being enqueued for every peer are exactly those skipped by a later start from nothing |
| PollingRuns.SavedCursorIsSafe | internal/service/changefeed/service.go:284-306 | if no such start finds unsent rows, the saved cursor never passes a row not enqueued for every peer |
| PollingRuns.BlindStartLosesARow | internal/service/changefeed/adapter/polling.go:92-100 | a run in which a row is lost that way |
| Capture.Run | internal/service/changefeed/adapter/capture.go:129-239 | the loop ends at the first turn that stops it and succeeds if and only if none does; accepted batches are the kept changes of the commits before it, in order; a status is sent exactly when due or asked for and carries the newest accepted commit |
| CapturedRows.MessageCarriedIff | internal/service/changefeed/adapter/capture.go:259-480 | a receiver that has the source's local rows, beside rows of other regions, has them after the captured change of a message if and only if the message moves no row between regions, changes the key of no local row, and inserts none where the receiver has another region's |
| CapturedRows.CapturedBatchesCarryRows | internal/service/changefeed/adapter/capture.go:129-480 | over a stream of such messages, applying the batches of its commits, with or without update diffs, gives the receiver the source's local rows and leaves other regions' rows |
| CapturedRows.AcceptedBatchesCarryRows | internal/service/changefeed/adapter/capture.go:129-239 | the same for what the loop hands over, wherever it ends |
| UpdateDiff.PatchInvertsDiff | internal/service/changefeed/adapter/capture.go:321-353 | applying the diff to the old row gives the new row, with values that were not sent preserved |
| UpdateDiff.BatchAppliesDiff | internal/repository/postgres/events.go:132-260 | in a batch, a diff that is the only event of its key turns the old row into the new one |
| UpdateDiff.LastDiffSufficesIff | internal/repository/postgres/events.go:40-60 | whatever else a batch holds, other diffs of the row included, its last diff of a row gives the newest row if and only if it has every column in which the row before it differs from the stored one |
| Leases.LeaseTable.TryAcquire | internal/repository/postgres/state_leases.go:15-72 | takes a free, expired or own lease, counts changes of owner, and changes nothing otherwise |
| Leases.LeaseTable.Renew | internal/repository/postgres/state_leases.go:75-122 | extends only an unexpired lease of the owner and generation |
| Leases.LeaseTable.Release | internal/repository/postgres/state_leases.go:125-150 | deletes exactly a lease of the owner and generation |
| Leases.LeaseTable.CleanupExpired | internal/repository/postgres/state_leases.go:185-197 | deletes exactly the expired leases |
| Leases.OneHasOutlivedItsLease | internal/service/lease/service.go:87-258 | in every run, of two owners that both run uncancelled, one has outlived its lease |
| Leases.OpenIffOutlived | internal/repository/postgres/state_leases.go:29-50 | in every run, while an owner runs uncancelled, its lease is open to somebody else if and only if it has outlived it |
| Leases.TimelyRenewalExcludes | internal/service/lease/service.go:199-258 | if time never reaches a running session's expiry before its renewal, at most one owner runs |
| Leases.LateRenewalLetsTwoRun | internal/service/lease/service.go:199-258 | a run with a late renewal in which two owners run |
| Leases.GenerationsTellOwnersApart | internal/repository/postgres/state_leases.go:41-49 | in every run through which the row is present, its generation never falls and rises with every change of owner |
| Leases.GenerationCountsOwners | internal/repository/postgres/state_leases.go:41-49 | in such a run the generation rises by exactly the number of changes of owner, so taking one's own lease again keeps it |
| Leases.ReleaseResetsGenerations | internal/repository/postgres/state_leases.go:125-150 | a run with a release after which a second owner has the first one's generation |
| Leases.NobodyElseBeforeExpiry | internal/repository/postgres/state_leases.go:29-50 | after an acquire or renewal, and without a release, every acquire by another owner misses until the expiry |
| Wire.ToProtoEvents | internal/transport/grpc/protocol/messages.go:201-217 | every event is encoded, in order |
| Wire.ToReplicationEvents | internal/transport/grpc/protocol/messages.go:145-165 | decoding fails if and only if some event has an undecodable key, and otherwise decodes every event in order |
| Wire.PartRoundTripIff | internal/transport/grpc/protocol/messages.go:276-327 | a key part comes back unchanged if and only if it is typed and in its type's canonical form |
| Wire.EventRoundTripIff | internal/transport/grpc/protocol/messages.go:145-327 | an event comes back unchanged if and only if all its key parts do |
| Transit.TransformFields | internal/service/crypto/service.go:81-175 | encryption succeeds exactly when every configured field present has a key and its handler accepts it, and replaces exactly those by the quoted ciphertext; decryption likewise with the plaintext, texts without a quote left as they are |
| Transit.StoredFieldsDecrypt | internal/service/crypto/service.go:81-175 | what a service encrypts it decrypts back |
| Transit.StoredKeepsSecrets | internal/service/crypto/service.go:81-175 | every configured field as stored is opened by its handler and key alone, without the service, to the plain field |
| Transit.TransitKeyRoundTripIff | internal/replication/transformers/crypto.go:194-225 | parsing inverts building a transit key if and only if the field name is over a-z, 0-9, underscore and dash |
| Transit.PrepareOutboundEvent | internal/replication/transformers/crypto.go:35-63 | the loop moves exactly the decrypted secret fields into transit metadata |
| Transit.RestoreFields | internal/replication/transformers/crypto.go:130-140 | the loop moves exactly the parsed metadata entries back into the fields |
| Transit.PrepareInboundEvent | internal/replication/transformers/crypto.go:117-150 | computes the inbound pipeline: restore, encrypt, validate, drop; deletes skip the first two |
| Transit.DropTransitMetadata | internal/replication/transformers/metadata.go:47-63 | an invalid metadata key fails the event; otherwise exactly the transit entries are dropped |
| Transit.TransitRoundTripIff | internal/replication/transformers/crypto.go:35-150 | for any two policies, handler and key of each receiver field open the received event to the sender's plain fields, with all else unchanged, if and only if every secret field name is a transit name |

## Left out

- Producers.EnqueueBatch: peers are served one after the other; the concurrent enqueueing of the source differs only in how ids of different peers interleave.
- Producers.Producer.HandleBatch: payload decoding is taken to succeed.
- Served.Consume: the channel never overflows; sessions with drops are covered by FeedSafety.NoLoss.
- BootstrapRuns.BootstrapConvergesIff: events carry whole rows; insert_only mode, upsert mode for logs with deletes, and update diffs are not covered.
- PollingRuns.PassedUnsentIffSkipped: the broadcast mode allows upserts; under insert_only polling enqueues nothing and saves nothing.
- Capture.Run: key extraction from a tuple is a parameter.
- Polling.Poller.PollTable: the table does not change during one scan; changes between scans are covered by PollingRuns.
- SQL text, quoting, JSON rendering and database calls: statements are modelled by their effect.
- Ciphers, base64 and randomness: an abstract invertible pair with a nonce. SHA-256: taken to be collision free.
- Snapshot rows in the crypto and metadata transformers: the same steps as for events, on a payload instead of fields.
- gRPC transport, handshakes, credentials, certificates and generated protobuf code.
- Configuration, logging, metrics, readiness, wiring and schema migrations.
- Key providers and key refresh, and reconnect backoff: small next to the protocol.
- The race between publishing to and closing a live channel, and late-committing rows.
- CapturedRows.CapturedBatchesCarryRows: updates that change a key or the owner of a row are excluded; MessageCarriedIff shows that each of them is lost.
- Lease exclusion between two workers that share an owner id: the code does not provide it.
