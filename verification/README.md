# Verified model of Rustgo

A Dafny model of the stateful core of Rustgo, a tunnel and peer-to-peer connectivity
suite: its SQLite history engine, its encrypted peer frame channels, its path manager,
its live projection and its frame codec. `dafny verify dfyconfig.toml` checks it all.

## What is modelled

**History engine.** `HistoryTables` states each SQL transaction as a function from tables
to tables; `HistoryRuns` proves what every interleaving of transactions keeps, against a
history that is never pruned; `HistoryReplay` proves exactly when retrying a batch that was
committed already changes nothing, and `HistoryRetries` where a whole sequence of retries
ends; `HistoryFlags` treats the lifecycle and session flags; `HistoryPages` and `Ordering`
compute the pages the maintenance queries select; `HistoryStore` is the
statement-by-statement form, and `HistoryEffects` says what each transaction does to the
rows, without the specification's own selections. `HistoryQueue` is the bounded queue, both as its contents call
for and as its counters decide, and `HistoryWorker` interleaves the worker loop with
publishers, one lock-held section at a time, with the counters part of its state;
`HistoryProgress` shows that a worker with a database that answers writes everything, and
that a closed one stops.
`Ownership` is the marker protocol on a disk whose power can fail before any atomic move or
replacement, with the open database rewriting its own files in between.

**Peer frames.** `ByteCodec` and `PeerTranscript` are the canonical encoders;
`PeerFrames`, `PeerSession` and `PeerChannel` are sealers, openers, the key schedule and
every run of two peers over a hostile network; `PeerProgress` shows that whatever was
sealed can still be delivered, and `PeerLayout` fixes tags and flags; `ReplayWindow` is the 64-bit window (the
scheme of section 3.4.3 of RFC 4303). The AEAD is ideal: a ciphertext opens only under the
key, nonce and associated data it was sealed with. Expanded keys are terms over their base
key's label and their info string, so key expansion is injective (section 2.3 of RFC 5869);
what is proved is the nonce requirement of section 2.8 of RFC 8439.

**Path manager.** `PathRecord` is the mutex-protected record, `PathManager` its
interleavings, `PathProgress` what each of its steps achieves after any run, `PathRace` the
race between attempts over any schedule.

**Live projection.** `Projection` is the fold over events without an index,
`ProjectionHistory` reads the same facts off the events alone, `LiveProjection` is the
in-place form with the terminal index, `TerminalIndex` the bounded set of newest entries.

**Frame codec.** `FrameCodec` is the header, payload and datagram codec and the
incremental stream decoder, `FrameLayout` its bytes and bounds; the serialisation library is
a pair of functions with the round-trip law.

## Reading the model

Values: `u64` and its kin are naturals with explicit bounds and explicit saturation or
wrap-around, `f64` is `real`, strings in transcripts are their bytes, a short session id
is a number because its fixed-width hexadecimal text sorts like one. Clocks, randomness,
the scheduler, the network and database outcomes are parameters or step choices. Server
and client metric tables have the same shape and statements and are one map.

Each run theorem quantifies over every sequence of steps from the initial state. A step
whose guard does not hold changes nothing. Some step sets are wider than the program's:
any recheck id may act at any time, and any fresh winner may be installed by any race.

Fresh names are assumed: a new activation nonce names no existing file, and a new path
handle differs from earlier ones.

## Model

| member | source | states |
|---|---|---|
| HistoryTables.BucketStart | crates/rustgo-observability/src/sqlite.rs:6993-6995 | rounding down gives the aligned start of the bucket the timestamp lies in |
| HistoryTables.RawAdmissionCutoff | crates/rustgo-observability/src/sqlite.rs:5966-5973 | for every clock the cutoff is a multiple of five minutes, less than five minutes above one hour ago, and zero for an early clock |
| HistoryTables.RaisedFloorIsMaximum | crates/rustgo-observability/src/sqlite.rs:6367-6378 | raising the stored evidence raises the decoded floor to exactly the maximum of old floor and cutoff, for tagged and for legacy untagged evidence |
| HistoryRuns.RunsKeepInv | crates/rustgo-observability/src/sqlite.rs:5123-5242 | from a fresh database, every interleaving of persists, retention chunks, cap pruning and tombstone retirement with any clock readings keeps the whole invariant: raw rows agree with the history, roll-ups are exact, deleted buckets are sealed, latest flags are exact |
| HistoryRuns.StepKeepsInv | crates/rustgo-observability/src/sqlite.rs:5123-5242 | one step of any kind, committed or rolled back, keeps the invariant |
| HistoryRuns.RollUpsMatchNeverPrunedHistory | crates/rustgo-observability/src/sqlite.rs:5381-5433 | in every run a stored 1-minute or 5-minute row has exactly the count and mean of all samples ever admitted to its scope, bucket and metric (last write per timestamp), even after its raw rows are gone; a roll-up of admitted samples is missing only if its bucket was deleted |
| HistoryRuns.DeletedBucketNeverReappears | crates/rustgo-observability/src/sqlite.rs:6031-6070 | a bucket deleted at any resolution never holds a row again in any continuation of the run |
| HistoryRuns.CapSparesNewest | crates/rustgo-observability/src/sqlite.rs:6380-6481 | in every run cap pruning keeps the newest bucket of every scope and resolution |
| HistoryRuns.PersistKeepsInv | crates/rustgo-observability/src/sqlite.rs:5123-5242 | the batch transaction keeps the invariant whether it commits or rolls back |
| HistoryRuns.AdmittedAreOpen | crates/rustgo-observability/src/sqlite.rs:5244-5271 | every admitted sample lies in a 1-minute and a 5-minute bucket that is neither entombed nor below the durable floor |
| HistoryRuns.SumsAgree | crates/rustgo-observability/src/sqlite.rs:5381-5433 | where no raw row is missing, aggregating the raw rows equals aggregating the never-pruned history |
| HistoryRuns.TouchedIsComplete | crates/rustgo-observability/src/sqlite.rs:5381-5433 | in a bucket a sample may still enter, every sample ever admitted still has its raw row |
| HistoryRuns.TouchedRowExact | crates/rustgo-observability/src/sqlite.rs:5381-5433 | a freshly aggregated row holds the exact count and mean of the history |
| HistoryRuns.UntouchedRowExact | crates/rustgo-observability/src/sqlite.rs:5381-5433 | rows of buckets the batch does not touch stay exact |
| HistoryRuns.PersistRevivesNothing | crates/rustgo-observability/src/sqlite.rs:5244-5271 | the batch transaction creates no row in a deleted bucket |
| HistoryRuns.PersistKeepsFlags | crates/rustgo-observability/src/sqlite.rs:5435-5469 | after the refreshes the latest flag marks exactly the rows of maximal timestamp of each scope and resolution |
| HistoryRuns.RetentionKeepsNewest | crates/rustgo-observability/src/sqlite.rs:5975-6029 | a retention chunk deletes oldest first, so no surviving row becomes newest by it |
| HistoryRuns.CapKeepsNewest | crates/rustgo-observability/src/sqlite.rs:6380-6481 | a cap page never contains a newest row and leaves one above every surviving row |
| HistoryRuns.DeleteKeepsTombstones | crates/rustgo-observability/src/sqlite.rs:6031-6070 | every deleted bucket is sealed by its tombstones, which are aligned |
| HistoryRuns.DeleteKeepsInv | crates/rustgo-observability/src/sqlite.rs:5975-6029 | deleting stored buckets keeps the invariant when the newest rows survive |
| HistoryRuns.RetiredIsBelowFloor | crates/rustgo-observability/src/sqlite.rs:6327-6365 | the whole bucket of a retired tombstone lies below the raised floor, because the cutoff is a multiple of five minutes |
| HistoryRuns.RetireKeepsInv | crates/rustgo-observability/src/sqlite.rs:6327-6365 | retiring tombstones and raising the floor in one transaction keeps the invariant |
| HistoryReplay.RetryChangesNothingIff | crates/rustgo-observability/src/sqlite.rs:1400-1410 | a transaction of several batches that committed and was reported as failed: after any maintenance and at the same or a later clock, persisting one of its batches alone always commits, and changes nothing exactly when on every point it still admits the batch wrote what the whole transaction wrote last |
| HistoryRetries.RetriesRestoreCommitIff | crates/rustgo-observability/src/sqlite.rs:1225-1410 | any batches of a committed transaction retried any number of times and in any order, with any maintenance in between: the run ends as the maintenance alone would have ended exactly when, for every point, the last retry that still admits it writes what the transaction wrote last; and each stored raw row has its committed value exactly when that holds of its point |
| HistoryRetries.RetryingInOrderIsHarmless | crates/rustgo-observability/src/sqlite.rs:1225-1410 | retrying all batches in order ends in the committed tables unless a point one retry wrote became blocked or late before a later retry that writes it |
| HistoryRetries.EveryRetryCommits | crates/rustgo-observability/src/sqlite.rs:1225-1259 | each retry of such a sequence commits, whatever the earlier ones did |
| HistoryRetries.RewriteMakesTwin | crates/rustgo-observability/src/sqlite.rs:5123-5242 | persisting known points again changes values only: rows, flags, tombstones, floor and deletions stay |
| HistoryRetries.TwinsWithOneHistory | crates/rustgo-observability/src/sqlite.rs:5381-5469 | the history determines every stored value, so tables with the same rows and the same history are equal |
| HistoryRetries.MaintenanceKeepsTwins | crates/rustgo-observability/src/sqlite.rs:5975-6481 | maintenance looks at no value, so it treats tables that differ in values only alike |
| HistoryReplay.ReplayIsHarmless | crates/rustgo-observability/src/sqlite.rs:1225-1259 | a one-batch transaction retried after any retention, cap and retirement steps, at the same or a later clock, commits and changes nothing |
| HistoryReplay.RetryCanRestoreOldValue | crates/rustgo-observability/src/sqlite.rs:1225-1259 | a concrete transaction of two batches writing one point: retrying the first alone brings its older value back |
| HistoryReplay.PersistIsNoopIff | crates/rustgo-observability/src/sqlite.rs:5123-5242 | in any reachable state and at any clock a batch that commits changes nothing exactly when the history already holds its value at every point it admits |
| HistoryReplay.AdmittedLastWrite | crates/rustgo-observability/src/sqlite.rs:5136-5189 | admission takes or drops whole points, so the last admitted write of a point is the last write or none |
| HistoryReplay.RollUpIsNoop | crates/rustgo-observability/src/sqlite.rs:5381-5433 | aggregating again with nothing new changes no row |
| HistoryStore.Store.PersistBatches | crates/rustgo-observability/src/sqlite.rs:5123-5242 | the statement-by-statement transaction leaves exactly the specified tables, or the old ones when it rolls back; stated also without the specification: only samples of the last hour are stored, each with its last value, it rolls back exactly when a recent sample is out of range, and the late counter grows by the late samples reached |
| HistoryStore.Store.DeleteBuckets | crates/rustgo-observability/src/sqlite.rs:5975-6070 | deleting bucket by bucket leaves exactly the page deleted and its tombstones raised |
| HistoryStore.Store.RetentionChunk | crates/rustgo-observability/src/sqlite.rs:5975-6029 | exactly the page of the oldest expired buckets is deleted; every row of another resolution or at or above the cutoff stays as it was; done means no row of the resolution lies below the cutoff, and otherwise something was deleted |
| HistoryStore.Store.CapPrune | crates/rustgo-observability/src/sqlite.rs:6380-6481 | exactly a page of the oldest unflagged buckets of one table is deleted, flagged rows stay; exhausted means that no bucket without the latest flag exists |
| HistoryStore.Store.RetireTombstones | crates/rustgo-observability/src/sqlite.rs:6327-6378 | the expired tombstones deleted first go and the floor rises together, or nothing changes; a tombstone deleted at or after the given time, or not below the cutoff, stays, and done means none of the others is left |
| HistoryPages.SelectExpired | crates/rustgo-observability/src/sqlite.rs:5981-6009 | the two ordered and limited queries select exactly a retention page |
| HistoryPages.SelectForCap | crates/rustgo-observability/src/sqlite.rs:6385-6447 | merging the two candidate lists, taking at most 19 and cutting at the table change selects a cap page: no older candidate of either table is skipped |
| HistoryPages.SelectTombstones | crates/rustgo-observability/src/sqlite.rs:6334-6351 | the query selects the expired tombstones of a resolution that were deleted first |
| Ordering.OrderedRows | crates/rustgo-observability/src/sqlite.rs:5983-6009 | an ordered and limited query returns the first rows in order, all of them when they fit |
| HistoryPages.MergedIsOldest | crates/rustgo-observability/src/sqlite.rs:6417-6447 | every older candidate stands before a selected one, because a query that cut it off has 64 older rows |
| HistoryPages.SafeCount | crates/rustgo-observability/src/sqlite.rs:6437-6447 | the longest run of at most 19 rows of the first row's table |
| HistoryStore.FaultsSplit | crates/rustgo-observability/src/sqlite.rs:5123-5242 | the transaction rolls back exactly when an insert conversion or the end of a touched bucket is out of range |
| HistoryStore.StageSamples | crates/rustgo-observability/src/sqlite.rs:5147-5189 | the admission loop inserts exactly the admitted samples, collects the touched buckets and series, stops at the first failing conversion and counts the late samples before it |
| HistoryStore.AggregateTouched | crates/rustgo-observability/src/sqlite.rs:5200-5222 | aggregating the touched buckets one after the other equals aggregating them all from the raw rows, and fails exactly when a bucket end is out of range |
| HistoryStore.RefreshTouched | crates/rustgo-observability/src/sqlite.rs:5223-5228 | refreshing series one after the other equals refreshing them together |
| HistoryEffects.PersistStoresRecentSamples | crates/rustgo-observability/src/sqlite.rs:5123-5242 | without reference to the cutoff: after a commit a raw row holds the last value of the batch at its point if that sample's five-minute bucket began at most an hour before the clock, it is not below the floor and neither of its buckets is entombed; every other raw row is as before |
| HistoryEffects.OnlyTheLastHourIsStored | crates/rustgo-observability/src/sqlite.rs:5136-5189 | after a commit no raw row older than an hour or below the floor is new or changed, and every sample less than 55 minutes old, not below the floor and in open buckets has a raw row for each of its metrics |
| HistoryEffects.PersistRemembersRecentSamples | crates/rustgo-observability/src/sqlite.rs:5136-5189 | the never-pruned history gains exactly the accepted points with their last values |
| HistoryEffects.CutoffIsHour | crates/rustgo-observability/src/sqlite.rs:5966-5973 | a timestamp is at or above the cutoff exactly when its five-minute bucket began no more than an hour before the clock |
| HistoryEffects.AdmitsIffAccepts | crates/rustgo-observability/src/sqlite.rs:5136-5155 | a sample is admitted exactly when it is recent, not below the durable floor, and neither of its buckets is entombed |
| HistoryEffects.LateAreNotAdmitted | crates/rustgo-observability/src/sqlite.rs:5150-5155 | what is counted late and what is admitted together are all samples of the batch |
| HistoryEffects.PersistFailsIff | crates/rustgo-observability/src/sqlite.rs:5147-5222 | the transaction rolls back exactly when a recent sample has a timestamp, minute or touched bucket end that does not fit a signed 64-bit integer |
| HistoryEffects.DeletionIsExact | crates/rustgo-observability/src/sqlite.rs:6011-6070 | deleting a page removes whole buckets, leaves every other row as it was, and raises exactly the tombstones of the removed buckets to the deletion time |
| HistoryEffects.RetentionSparesUnexpired | crates/rustgo-observability/src/sqlite.rs:5975-6029 | a retention chunk removes only rows of its resolution older than the cutoff, the oldest of each table first; every other row stays as it was |
| HistoryEffects.RetentionStepSparesUnexpired | crates/rustgo-observability/src/sqlite.rs:5975-6029 | the same after every run, so no retention step touches a row that has not expired |
| HistoryEffects.CapPrunesOldest | crates/rustgo-observability/src/sqlite.rs:6380-6481 | a cap step removes the oldest unflagged buckets of one table, some whenever there is one, and nothing else |
| HistoryEffects.RetirementSparesYoung | crates/rustgo-observability/src/sqlite.rs:6334-6365 | only tombstones of the resolution, deleted before the first time and starting before the cutoff go, those deleted first; every other tombstone stays, and the floor becomes the maximum |
| HistoryEffects.RetireCommitsIff | crates/rustgo-observability/src/sqlite.rs:6353-6378 | retiring commits exactly when there is nothing to remove or the raised floor fits a signed 64-bit integer |
| HistoryEffects.NamesAreLexicographic | crates/rustgo-observability/src/sqlite.rs:5983-6009 | the order of the queries on names is the dictionary order |
| HistoryFlags.RunsKeepExact | crates/rustgo-observability/src/sqlite.rs:5471-5501 | after every committed step the flags mark exactly the newest lifecycle row per client and the newest closed session |
| HistoryFlags.CapSparesNewest | crates/rustgo-observability/src/sqlite.rs:6483-6509 | cap pruning of lifecycle rows and sessions never removes a newest one |
| HistoryFlags.ExpireKeepsExact | crates/rustgo-observability/src/sqlite.rs:5865-5904 | deleting expired rows oldest first keeps the flags exact |
| HistoryFlags.SelectExpired | crates/rustgo-observability/src/sqlite.rs:5865-5904 | the retention statement selects the 256 oldest expired rows, and fewer only when that leaves none expired; what is not older than the cutoff is not selected |
| HistoryFlags.SelectForCap | crates/rustgo-observability/src/sqlite.rs:6483-6509 | the cap statement selects the 256 oldest ranked rows without the flag, and none only when there are none |
| HistoryFlags.PersistKeepsFlag | crates/rustgo-observability/src/sqlite.rs:5190-5197 | inserts leave rows unflagged and the refresh of the touched groups makes the flags exact again |
| HistoryFlags.PersistStoresLastWrites | crates/rustgo-observability/src/sqlite.rs:5190-5197 | every row ends with the time of the last write of its own group, or as it was; a row never changes its group |
| HistoryFlags.RetentionSparesUnexpired | crates/rustgo-observability/src/sqlite.rs:5865-5904 | only rows older than the cutoff go, oldest first; sessions still open never do |
| HistoryFlags.CapSparesOpenAndFlagged | crates/rustgo-observability/src/sqlite.rs:6483-6509 | flagged rows and open sessions stay, and the oldest of the others go first |
| HistoryQueue.EvictIsMinimal | crates/rustgo-observability/src/sqlite.rs:640-660 | the publish loop evicts exactly the shortest prefix of queued batches that makes room, keeps every control command, and refuses only when the batches the worker holds leave no room |
| HistoryQueue.PushKeepsBounds | crates/rustgo-observability/src/sqlite.rs:632-667 | publishing keeps queue and worker together within 1024 batches and 64 MiB |
| HistoryQueue.IdleWorkerAccepts | crates/rustgo-observability/src/sqlite.rs:632-667 | a batch of legal size is never refused while the worker holds nothing |
| HistoryQueue.DrainIsMaximal | crates/rustgo-observability/src/sqlite.rs:736-764 | a transaction takes the batches directly at the front, as many as its 64-batch and 4-MiB limits allow, and stops only at a limit, a control command or the end |
| HistoryQueue.PushedIsPush | crates/rustgo-observability/src/sqlite.rs:632-667 | publishing by the saturating and wrapping counters alone is publishing by the true contents: same evictions, same verdict, and the counters stay exact |
| HistoryQueue.MakeRoomIsEvict | crates/rustgo-observability/src/sqlite.rs:640-660 | the eviction loop deciding by the counters evicts exactly what the lists call for |
| HistoryQueue.FreedIsExact | crates/rustgo-observability/src/sqlite.rs:854-861 | releasing a batch the worker holds saturates nowhere and leaves the counters exact |
| HistoryQueue.DrainedIsExact | crates/rustgo-observability/src/sqlite.rs:736-764 | drained batches stay pending and the counters stay exact |
| HistoryQueue.PoppedIsExact | crates/rustgo-observability/src/sqlite.rs:686-706 | a popped batch stays pending, no counter wraps |
| HistoryQueue.DiscardedIsExact | crates/rustgo-observability/src/sqlite.rs:804-832 | discarding subtracts exactly what was queued |
| HistoryQueue.Shared.TryPublish | crates/rustgo-observability/src/sqlite.rs:1015-1036 | an oversized batch is dropped and counted, a closed queue refuses, otherwise the queue is exactly the eviction result |
| HistoryQueue.Shared.PushBatch | crates/rustgo-observability/src/sqlite.rs:632-667 | every counter stays exact; evicted and refused batches are counted dropped exactly once |
| HistoryQueue.Shared.EvictFor | crates/rustgo-observability/src/sqlite.rs:640-660 | the eviction loop terminates with the specified queue and drop list |
| HistoryQueue.Shared.PushControl | crates/rustgo-observability/src/sqlite.rs:669-684 | controls are refused when closed or at 128, otherwise appended |
| HistoryQueue.Shared.Pop | crates/rustgo-observability/src/sqlite.rs:686-706 | the front command leaves the queue; a batch stays pending |
| HistoryQueue.Shared.PopControl | crates/rustgo-observability/src/sqlite.rs:708-734 | only a control command at the front is taken |
| HistoryQueue.Shared.DrainFollowing | crates/rustgo-observability/src/sqlite.rs:736-764 | the transaction is extended by exactly the drained prefix, which stays pending |
| HistoryQueue.Shared.FailPendingControls | crates/rustgo-observability/src/sqlite.rs:780-793 | exactly the batches remain, in order |
| HistoryQueue.Shared.DiscardBatchesWhenClosed | crates/rustgo-observability/src/sqlite.rs:804-832 | a closed queue drops every queued batch once and keeps the counters exact |
| HistoryQueue.Shared.ReleaseOwned | crates/rustgo-observability/src/sqlite.rs:854-861 | any batch may be released, with saturating subtraction; for one the worker holds, exactly one batch and its bytes are subtracted and every counter stays exact |
| HistoryWorker.RunsKeepInv | crates/rustgo-observability/src/sqlite.rs:1133-1410 | in every interleaving of publishers and worker steps, one lock-held section at a time, batches are placed, ordered and counted, and the queue's counters are exact |
| HistoryWorker.CountersAreExact | crates/rustgo-observability/src/sqlite.rs:632-861 | in every run pending_batches and pending_batch_bytes are exactly what the queue and the worker hold, within both bounds, and the queued and control counters are exact too |
| HistoryWorker.ReleasesAreExact | crates/rustgo-observability/src/sqlite.rs:854-861 | in every run each release, also each of a committed transaction, takes exactly its batch out of both counters: no subtraction ever saturates |
| HistoryWorker.PersistedInPublishOrder | crates/rustgo-observability/src/sqlite.rs:1225-1410 | what has been persisted is a subsequence of what was offered, in publish order, despite retries, evictions and cap work |
| HistoryWorker.AttemptsAreLimited | crates/rustgo-observability/src/sqlite.rs:1225-1259 | no batch is part of more than three persist calls |
| HistoryWorker.DroppedBatchesHadTheirAttempts | crates/rustgo-observability/src/sqlite.rs:1225-1259 | in every run a dropped batch was never tried (too large, evicted or no room), or failed three persist calls, or the queue was closed; only a closed queue refuses one |
| HistoryWorker.CapWorkHoldsBatches | crates/rustgo-observability/src/sqlite.rs:1346-1372 | while cap work is pending no batch leaves the queue |
| HistoryWorker.EveryBatchIsAccountedFor | crates/rustgo-observability/src/sqlite.rs:632-869 | in every run each offered batch is in exactly one place: persisted, still to be written, dropped or refused; what is pending beyond that is the not yet released end of the last transaction |
| HistoryWorker.StoppedHoldsNothing | crates/rustgo-observability/src/sqlite.rs:1146-1162 | a stopped worker holds nothing and every counter is zero: all that was not persisted was dropped or refused |
| HistoryWorker.WorkKeepsGate | crates/rustgo-observability/src/sqlite.rs:1225-1301 | a batch leaves the queue only when nothing older waits for a retry, because a successful retry leaves cap work pending |
| HistoryWorker.StepKeepsInv | crates/rustgo-observability/src/sqlite.rs:1133-1410 | every single step of any thread keeps the invariant |
| HistoryWorker.Background | crates/rustgo-observability/src/sqlite.rs:1261-1344 | which of cap work and maintenance gets the turn, what each result leaves pending and connected, and whether the loop goes on at its head or at the command wait |
| HistoryProgress.HealthyWorkerCatchesUp | crates/rustgo-observability/src/sqlite.rs:1133-1410 | after every run, on an open queue, a worker whose database answers writes all that it and the queue hold, in order, and drops or refuses nothing more |
| HistoryProgress.ClosedWorkerStops | crates/rustgo-observability/src/sqlite.rs:1145-1162 | after every run that closed the queue the worker stops within finitely many steps, whatever the database does |
| HistoryProgress.EveryOfferIsBooked | crates/rustgo-observability/src/sqlite.rs:1015-1036 | the books hold exactly the batches the steps offered, in order and with their sizes |
| HistoryProgress.OfferVerdicts | crates/rustgo-observability/src/sqlite.rs:1015-1036 | an oversized batch is dropped, a closed queue refuses, and only otherwise the queue decides |
| HistoryProgress.ControlsAreQueued | crates/rustgo-observability/src/sqlite.rs:669-684 | after every run a control command is queued exactly when the queue is open and holds fewer than 128 |
| HistoryProgress.RunsAreDisciplined | crates/rustgo-observability/src/sqlite.rs:1145-1380 | in every run the worker writes, drains and releases only with an open connection, and holds a transaction only while no cap work is pending |
| HistoryProgress.FailureReopens | crates/rustgo-observability/src/sqlite.rs:1243-1257 | a failed write ends the connection, so the database is opened again before the next attempt |
| HistoryProgress.OpeningStartsCapWork | crates/rustgo-observability/src/sqlite.rs:1164-1219 | a successful open connects and makes cap work pending, a failed one tries again |
| HistoryProgress.CommitsMakeCapWorkPending | crates/rustgo-observability/src/sqlite.rs:1234-1242 | every commit makes cap work pending and is released |
| HistoryProgress.ControlsAreServed | crates/rustgo-observability/src/sqlite.rs:1412-1460 | a control command at the front is taken, also while cap work is pending |
| HistoryProgress.WaitingControlsAreFailed | crates/rustgo-observability/src/sqlite.rs:1164-1167 | before an open the queued control commands are failed when there has been a failure; the batches stay |
| HistoryProgress.IdleTurns | crates/rustgo-observability/src/sqlite.rs:1373-1378 | with nothing to serve the worker goes round and gives pending background work the turn |
| HistoryProgress.StoppedHasNoJob | crates/rustgo-observability/src/sqlite.rs:1146-1161 | a stopped worker has ended its maintenance job |
| Ownership.Disk.Survive | crates/rustgo-observability/src/sqlite.rs:1621-1737 | over any sequence of opens, quarantines and writes of the open database, each open and quarantine cut short at any step, an open with enough power ends with both markers naming the same active pointer and the whole family as last written there, or with the whole family in one quarantine directory; without a quarantine call it is never set aside, a quarantine under way is always the one that is finished, and the files admit no other phase |
| Ownership.Disk.WriteDatabase | crates/rustgo-observability/src/sqlite.rs:2728-2736 | at rest the open database may rewrite its main file and make or remove its sidecars; the family stays together and at rest |
| Ownership.Disk.Open | crates/rustgo-observability/src/sqlite.rs:1621-1737 | opening finishes any interrupted activation or quarantine; a crash anywhere leaves a recognised phase; a family whose markers, proof and journals are genuine is never refused; one that is not is refused or reported damaged and stays untouched; a quarantine under way is never disturbed |
| Ownership.Disk.OpenReady | crates/rustgo-observability/src/sqlite.rs:1745-1795 | a family at rest ends under the fresh name; it is refused exactly when the store proof, the owner, the identity of a sound main file or a journal speaks against it, and is untouched when refused, damaged or without power before the first marker |
| Ownership.Disk.FinishActivation | crates/rustgo-observability/src/sqlite.rs:2689-2724 | an activation interrupted anywhere is completed: ready and idle markers agree, same main file, sidecars with it; it is refused, untouched, exactly when the family is foreign or a journal is left |
| Ownership.Disk.MoveFamily | crates/rustgo-observability/src/sqlite.rs:4861-4908 | sidecars move before the main file, each is at exactly one endpoint throughout, markers and quarantines are untouched; it is refused, untouched, exactly when the main file is not the one the identity marker names or a journal is left |
| Ownership.Disk.MoveOptional | crates/rustgo-observability/src/sqlite.rs:4910-4934 | a file moves once, is left alone when already moved or absent, and is refused when both endpoints exist |
| Ownership.Disk.PublishMarkers | crates/rustgo-observability/src/sqlite.rs:2704-2719 | the ready marker moves before the transition marker; a crash between them is still an activation |
| Ownership.Disk.Move | crates/rustgo-observability/src/sqlite.rs:6953-6976 | atomic move that never overwrites |
| Ownership.Disk.Replace | crates/rustgo-observability/src/sqlite.rs:4957-4989 | atomic replacement of a marker by a new file with an identity no file had |
| Ownership.Disk.QuarantineDatabase | crates/rustgo-observability/src/sqlite.rs:6653-6719 | from rest the family leaves main file first and ready marker last; before the main file has moved the original is still at rest; in any other phase, or for a family that is not genuine, nothing happens; from rest it is refused only when every directory number is taken |
| Ownership.Disk.ResumeQuarantine | crates/rustgo-observability/src/sqlite.rs:6721-6800 | an interrupted quarantine ends with the whole family and both markers in that one directory, nothing overwritten; it is refused, untouched, exactly when the family is not genuine |
| Ownership.Disk.FinishQuarantine | crates/rustgo-observability/src/sqlite.rs:6758-6795 | every member follows the main file, the ready marker last, from any partial state |
| Ownership.Disk.AllocateQuarantine | crates/rustgo-observability/src/sqlite.rs:6802-6818 | the first directory number below 1000 that does not exist is created, or all exist |
| Ownership.Disk.FindInterrupted | crates/rustgo-observability/src/sqlite.rs:6734-6755 | finds a directory holding the named main file exactly when one exists |
| Ownership.Disk.MoveToQuarantine | crates/rustgo-observability/src/sqlite.rs:6857-6892 | one member moves to the quarantine once, wherever it is |
| Ownership.PhaseIsDetermined | crates/rustgo-observability/src/sqlite.rs:1621-1737 | the files alone determine which phase an interrupted process was in, up to which of several quarantines holds a departed family |
| Ownership.ResumeFacts | crates/rustgo-observability/src/sqlite.rs:6894-6951 | the ownership checks of a resumed quarantine hold in every partial state |
| PeerChannel.NoNonceReuse | crates/rustgo-crypto/src/peer.rs:356-442 | across all sealers both peers ever issue from one key schedule, no two encryptions share key and nonce |
| PeerChannel.OrderedChannelDeliversPrefix | crates/rustgo-crypto/src/peer.rs:578-718 | against a network that drops, duplicates, reorders and injects frames, the opened messages are a prefix of the sealed ones in order, and a FIN is last on both sides |
| PeerChannel.DatagramsAreGenuineAndUnique | crates/rustgo-crypto/src/peer.rs:689-718 | on a datagram channel every opened frame was sealed under its own sequence number, and none is opened twice |
| PeerChannel.NextFrameOpens | crates/rustgo-crypto/src/peer.rs:689-718 | after every run the next sent frame of an ordered channel opens, to what was sealed |
| PeerChannel.FreshDatagramOpens | crates/rustgo-crypto/src/peer.rs:689-718 | after every run a sent datagram opens exactly when its number is fresh, to what was sealed |
| PeerProgress.EverythingSentCanBeDelivered | crates/rustgo-crypto/src/peer.rs:578-718 | after every run, whatever the network did, delivering the remaining frames of an ordered channel in order opens exactly the messages that were sealed |
| PeerProgress.EverySealIsLogged | crates/rustgo-crypto/src/peer.rs:578-625 | in every run the encryption of every message ever sealed, at its own number, is in the log that the nonce theorem speaks of |
| PeerProgress.SealedIff | crates/rustgo-crypto/src/peer.rs:578-625 | after every run sealing appends the message exactly when it has at most 65520 bytes, is well flagged, follows no FIN on an ordered channel and a sequence number is left; otherwise nothing changes |
| PeerProgress.NextFrameIsDelivered | crates/rustgo-crypto/src/peer.rs:689-718 | after every run the next sent frame of an ordered channel, delivered, is appended to what was opened |
| PeerProgress.FreshDatagramIsDelivered | crates/rustgo-crypto/src/peer.rs:689-718 | after every run a sent datagram is appended to what was opened exactly when its number is new and less than 64 below every accepted one; otherwise nothing changes |
| PeerProgress.SequenceVerdict | crates/rustgo-crypto/src/peer.rs:839-876 | after every run of an ordered channel the number of messages opened alone decides what a sequence number gets: accepted, replay, unexpected or exhausted |
| PeerProgress.IssuedOnce | crates/rustgo-crypto/src/peer.rs:795-807 | after every run every channel but zero gets its sealer and opener, in their initial state, and asking again changes nothing |
| PeerLayout.NonceLayout | crates/rustgo-crypto/src/peer.rs:911-932 | a nonce is mode, direction, two zeros and the big-endian sequence number |
| PeerLayout.FlagTable | crates/rustgo-crypto/src/peer.rs:816-829 | streams carry RELIABLE with or without FIN, datagrams DATAGRAM alone |
| PeerLayout.KindTable | crates/rustgo-crypto/src/peer.rs:966-1056 | the first bytes of each payload kind and of each candidate |
| PeerChannel.RunsKeepInv | crates/rustgo-crypto/src/peer.rs:356-442 | every run of both peers keeps sealers, openers and the encryption log consistent |
| PeerChannel.AuthenticIsSealed | crates/rustgo-crypto/src/peer.rs:697-714 | what authenticates on an end is what that end sealed at that sequence number with those flags |
| PeerChannel.SealKeepsInv | crates/rustgo-crypto/src/peer.rs:578-625 | sealing keeps the invariant |
| PeerChannel.OpenKeepsInv | crates/rustgo-crypto/src/peer.rs:689-718 | opening any frame, genuine or not, keeps the invariant |
| PeerFrames.EncryptionAlwaysAdvances | crates/rustgo-crypto/src/peer.rs:578-625 | nothing after the encryption can fail: a seal either encrypts and advances or does neither, exhaustion at the last sequence number is final, and it succeeds exactly on a fitting, well-flagged message of an unfinished, unexhausted sealer |
| PeerFrames.BaseLabelsDiffer | crates/rustgo-crypto/src/peer.rs:271-286 | the stream and datagram base keys of both directions are expanded under four different labels |
| PeerFrames.FrameKeyUnique | crates/rustgo-crypto/src/peer.rs:764-780 | different channel, mode or direction gives a different frame key, through the expansion labels and the info string |
| PeerFrames.FrameNonceUnique | crates/rustgo-crypto/src/peer.rs:927-932 | different sequence numbers give different nonces |
| PeerFrames.FrameAadUnique | crates/rustgo-crypto/src/peer.rs:934-949 | the associated data determines flags and sequence |
| PeerFrames.Open | crates/rustgo-crypto/src/peer.rs:689-718 | a failed open leaves the opener unchanged |
| PeerSession.PeerFrameSealer.Seal | crates/rustgo-crypto/src/peer.rs:578-625 | the in-place sealer does exactly the specified step; an error changes nothing |
| PeerSession.PeerFrameOpener.Open | crates/rustgo-crypto/src/peer.rs:689-718 | the in-place opener does exactly the specified step; an error changes nothing |
| PeerSession.PeerSessionKeys.IssueSealer | crates/rustgo-crypto/src/peer.rs:795-807 | each sealing domain is issued once, channel zero never |
| PeerSession.PeerSessionKeys.IssueOpener | crates/rustgo-crypto/src/peer.rs:795-807 | each opening domain is issued once, for the peer's direction |
| ReplayWindow.WindowRefinesAcceptedSet | crates/rustgo-crypto/src/peer.rs:878-909 | after every run a sequence number is accepted exactly when it is fresh and above the highest minus 64, and bit d is set exactly when the highest minus d was accepted |
| ReplayWindow.AcceptsExactlyFresh | crates/rustgo-crypto/src/peer.rs:878-909 | the window accepts exactly the fresh numbers of the set it represents |
| ReplayWindow.AcceptKeepsRepresents | crates/rustgo-crypto/src/peer.rs:878-909 | accepting keeps bitmap and set in step, including the bits a shift pushes out |
| ReplayWindow.NothingDeliveredTwice | crates/rustgo-crypto/src/peer.rs:878-909 | no sequence number is delivered twice in any run, forged frames included |
| ReplayWindow.BitmapIsAWord | crates/rustgo-crypto/src/peer.rs:890-894 | in every run the bitmap is a 64-bit word |
| ReplayWindow.ShiftedBit | crates/rustgo-crypto/src/peer.rs:890-894 | bits of a 64-bit left shift |
| PeerTranscript.EnvelopeTranscriptIsInjective | crates/rustgo-crypto/src/peer.rs:951-1107 | two envelopes have equal transcripts exactly when they agree on every field but the signature |
| PeerTranscript.PayloadUnique | crates/rustgo-crypto/src/peer.rs:966-1031 | across all eight payload kinds an encoded payload determines itself and what follows |
| PeerTranscript.CandidatesUnique | crates/rustgo-crypto/src/peer.rs:1033-1056 | a counted candidate list is determined by its bytes |
| PeerTranscript.SessionTranscriptIsInjective | crates/rustgo-crypto/src/peer.rs:135-173 | equal session transcripts come from equal sessions |
| PeerTranscript.Encode | crates/rustgo-crypto/src/peer.rs:951-964 | the appending encoder produces exactly the specified transcript |
| PeerTranscript.Encoder.AppendPayload | crates/rustgo-crypto/src/peer.rs:966-1031 | appends the specified payload encoding |
| PeerTranscript.Encoder.AppendCandidates | crates/rustgo-crypto/src/peer.rs:986-988 | the loop appends every candidate in order |
| PeerTranscript.Encoder.AppendField | crates/rustgo-crypto/src/peer.rs:1089-1095 | appends the length and the bytes |
| PeerTranscript.Validate | crates/rustgo-rendezvous/src/message.rs:380-400 | accepts exactly one 32-byte key per transport with every candidate on a bound transport |
| ByteCodec.BigEndianRoundTrip | crates/rustgo-crypto/src/peer.rs:1097-1107 | fixed-width big-endian integers can be read back |
| ByteCodec.BigEndianDigits | crates/rustgo-crypto/src/peer.rs:1097-1107 | each byte is the digit of its place, the most significant first |
| ByteCodec.FieldUnique | crates/rustgo-crypto/src/peer.rs:1089-1095 | a length-prefixed field determines itself and what follows |
| PathManager.RunsKeepInv | crates/rustgo-path/src/lib.rs:207-395 | in every interleaving: Direct and Relay have a path of their class selected, a foreground recheck has no path and no recheck, a background one has both, Closed has neither, operations equal live guards, the event record is the latest 256 events |
| PathManager.ClosedForever | crates/rustgo-path/src/lib.rs:313-329 | once closed the manager stays closed with nothing selected, rechecked or recorded |
| PathManager.NoOperationsAfterClose | crates/rustgo-path/src/lib.rs:357-395 | after close has returned there are no operations, and there never will be |
| PathManager.PublishedClassIsSelected | crates/rustgo-path/src/lib.rs:375-383 | a published result means a path of the same class is selected at that moment |
| PathManager.PublishedPathMayBeReplaced | crates/rustgo-path/src/lib.rs:375-383 | a concrete run in which the published path is no longer the selected one |
| PathManager.PublishedPathIsSelectedIff | crates/rustgo-path/src/lib.rs:375-383 | the published path is the selected one exactly when no PathSelected event was recorded since its own install |
| PathManager.StepKeepsInv | crates/rustgo-path/src/lib.rs:581-646 | every lock-held section keeps the invariant |
| PathManager.ClosedIsAbsorbing | crates/rustgo-path/src/state.rs:37-65 | no step leaves the closed state |
| PathProgress.WinnerIsInstalled | crates/rustgo-path/src/lib.rs:454-509 | after every run a race that is won in time installs its winner: direct kinds lead to Direct, the relay to Relay, and the operation may publish it |
| PathProgress.LateWinnerIsRefused | crates/rustgo-path/src/lib.rs:590-646 | a race won after closing or cancellation leaves the record alone and its operation failing |
| PathProgress.ReportedFailureRechecks | crates/rustgo-path/src/lib.rs:523-579 | a failure reported of a direct or relay path takes path and recheck away, cancels the recheck and starts a foreground recheck; in any other state it changes nothing |
| PathProgress.ConnectBeginsChecking | crates/rustgo-path/src/lib.rs:454-466 | a connect begins checking from Discovering only |
| PathProgress.BackgroundRecheckBegins | crates/rustgo-path/src/lib.rs:331-342 | the owned recheck of a relay path begins while the relay stays selected |
| PathProgress.BackgroundRecheckFallsBack | crates/rustgo-path/src/lib.rs:344-355 | a background recheck that fails returns to the relay it kept |
| PathProgress.BackgroundWinnerIsInstalled | crates/rustgo-path/src/lib.rs:590-646 | a background recheck of the owned id that wins replaces the relay by its winner |
| PathProgress.BackgroundStrangerIsRefused | crates/rustgo-path/src/lib.rs:590-646 | another id, a cancelled lifetime or a closed record installs nothing |
| PathProgress.RelayGetsItsRecheck | crates/rustgo-path/src/health.rs:58-97 | a relay without a running recheck gets one under a new id |
| PathProgress.RecheckIdsAreNeverZero | crates/rustgo-path/src/health.rs:74-82 | zero never names a recheck, also after the id counter has wrapped |
| PathProgress.AttemptsAreRecorded | crates/rustgo-path/src/lib.rs:268-273 | attempts are recorded in order, on a closed manager none |
| PathProgress.CloseCloses | crates/rustgo-path/src/lib.rs:313-329 | closing takes path and recheck out of any state and records it once |
| PathProgress.CloseReturnsWhenDone | crates/rustgo-path/src/lib.rs:357-373 | close returns exactly when the lifetime is cancelled and nothing is left to wait for |
| PathProgress.GuardsEnd | crates/rustgo-path/src/lib.rs:375-395 | a guard that ends takes exactly its own operation with it |
| PathProgress.LifecycleMoves | crates/rustgo-path/src/state.rs:37-65 | the lifecycle has exactly twelve moves, and Closed is reached from every other state |
| PathRecord.PushAllIsRecent | crates/rustgo-path/src/lib.rs:200-205 | the bounded event record is exactly the latest 256 events of the history |
| PathRecord.ManagerRecord.Transition | crates/rustgo-path/src/state.rs:37-65 | only legal transitions change the state, and each is recorded |
| PathRecord.ManagerRecord.Enter | crates/rustgo-path/src/lib.rs:283-290 | beginning an operation |
| PathRecord.ManagerRecord.EnterFailure | crates/rustgo-path/src/lib.rs:292-311 | a reported failure takes path and recheck out of the record |
| PathRecord.ManagerRecord.Close | crates/rustgo-path/src/lib.rs:313-329 | closing takes both and is idempotent |
| PathRecord.ManagerRecord.InstallWinner | crates/rustgo-path/src/lib.rs:590-646 | a winner is installed exactly when state and recheck id still match |
| PathRecord.ManagerRecord.BeginBackground | crates/rustgo-path/src/lib.rs:331-342 | a recheck starts only for the owned id in Relay |
| PathRecord.ManagerRecord.FinishFailed | crates/rustgo-path/src/lib.rs:344-355 | a failed recheck returns to Relay only for the owned id |
| PathRecord.ManagerRecord.StartRecheckTask | crates/rustgo-path/src/health.rs:58-97 | one pass of the recheck starter; ids wrap past zero |
| PathRecord.ManagerRecord.FinishOperation | crates/rustgo-path/src/lib.rs:375-383 | a guard is released and published means the state is the expected one |
| PathRace.RaceAttempts | crates/rustgo-path/src/race.rs:28-151 | over every schedule the outcome and the start of the relay are those the schedule alone calls for: the first attempt that ends with a path of its own kind wins, NoViablePath only when every attempt has started and failed, the relay at the first moment when there is no direct attempt and otherwise at the first moment after its grace; counters equal the running attempts of each class, and on return all but the winner are cancelled |
| PathRace.RelayStartsWhenDue | crates/rustgo-path/src/race.rs:57-75 | the relay starts at the first moment at or after its grace, at the very first one when no direct attempt exists |
| PathRace.OutcomesMean | crates/rustgo-path/src/race.rs:57-151 | what each outcome says of the schedule |
| PathRace.GroupingKeepsAttempts | crates/rustgo-path/src/race.rs:35-46 | grouping by kind loses and invents no attempt |
| PathRace.SpawnGroup | crates/rustgo-path/src/race.rs:153-188 | each attempt of a group is started under the next id |
| PathRace.EndAttempt | crates/rustgo-path/src/race.rs:111-140 | the attempt with the given id ends: it wins exactly when it is running and brings a path of its own kind; otherwise it counts as failed and is cancelled |
| PathRace.DecrementActive | crates/rustgo-path/src/race.rs:199-205 | the counter of the attempt's class goes down by one; the subtraction never saturates |
| FrameCodec.ChunkingDoesNotMatter | crates/rustgo-protocol/src/frame.rs:90-106 | feeding bytes in any split gives the same frames, the same first error and the same unread bytes as decoding at once |
| FrameCodec.StreamRoundTrip | crates/rustgo-protocol/src/frame.rs:62-106 | any frames encoded and cut anywhere arrive as exactly those frames |
| FrameCodec.FrameRoundTrip | crates/rustgo-protocol/src/frame.rs:62-106 | an encoded frame decodes to itself whatever follows |
| FrameCodec.ExactMeansAllConsumed | crates/rustgo-protocol/src/frame.rs:108-134 | the exact decoder succeeds exactly when the stream decoder consumes all input |
| FrameCodec.DecodeStable | crates/rustgo-protocol/src/frame.rs:90-106 | a decided outcome does not depend on later bytes |
| FrameCodec.DecodedReencodes | crates/rustgo-protocol/src/frame.rs:62-106 | decoded datagram and opaque frames encode back to the bytes consumed |
| FrameCodec.HeaderReencodes | crates/rustgo-protocol/src/frame.rs:136-158 | a header that passes inspection is the header the encoder writes |
| FrameCodec.InputBuffer.Next | crates/rustgo-protocol/src/frame.rs:90-106 | a whole valid frame is consumed; errors and partial frames consume nothing |
| FrameCodec.UdpRoundTrip | crates/rustgo-protocol/src/frame.rs:367-391 | decoding undoes encoding for every datagram the encoder accepts |
| FrameCodec.UdpReencodes | crates/rustgo-protocol/src/frame.rs:393-435 | encoding undoes decoding for every payload the decoder accepts |
| FrameCodec.PayloadRoundTrip | crates/rustgo-protocol/src/frame.rs:203-365 | payload encoding and decoding are inverse, given the round-trip law of the serialisation library |
| FrameCodec.MaxPayload | crates/rustgo-protocol/src/message.rs:321-357 | every message bound fits the 32-bit length field |
| FrameLayout.BoundsAreTheTable | crates/rustgo-protocol/src/message.rs:321-357 | the bound of each of the 37 messages |
| FrameLayout.FrameEncodesIff | crates/rustgo-protocol/src/frame.rs:62-88 | a frame is encoded exactly when it has no flags and its payload exists and is within the codec's and the message's bound |
| FrameLayout.FrameLayoutIs | crates/rustgo-protocol/src/frame.rs:62-88 | an encoded frame is "RSGO", version, message, flags and length, each big-endian at its place, and the payload |
| FrameLayout.HeaderAcceptedIff | crates/rustgo-protocol/src/frame.rs:136-181 | a header is accepted exactly when magic, message number, flags and both length bounds are right, with its fields at their places |
| FrameLayout.HeaderRefusedBecause | crates/rustgo-protocol/src/frame.rs:136-181 | a refused header is refused for the first thing that is wrong with it |
| FrameLayout.FrameRefusedBecause | crates/rustgo-protocol/src/frame.rs:62-88 | a frame is not encoded for the first thing that is wrong with it |
| FrameLayout.UdpEncodesIff | crates/rustgo-protocol/src/frame.rs:367-391 | a datagram is encoded exactly when tunnel and session are set, in its fixed layout |
| FrameLayout.UdpDecodesIff | crates/rustgo-protocol/src/frame.rs:393-435 | a payload decodes exactly when it is the layout of a datagram that can be encoded, the unused address bytes zero |
| FrameLayout.UdpRefusedBecause | crates/rustgo-protocol/src/frame.rs:393-435 | a refused datagram is too long or malformed |
| FrameLayout.ExactRefusals | crates/rustgo-protocol/src/frame.rs:108-134 | the exact decoder reports truncation exactly when the stream decoder waits for more, with the bytes it waits for, and otherwise the trailing bytes |
| FrameLayout.DrainStops | crates/rustgo-protocol/src/frame.rs:90-106 | decoding a stream stops only at unread bytes that hold no whole frame, or at a refused one |
| Projection.TotalsAgree | crates/rustgo-observability/src/store.rs:556-597 | in every trace server totals are the saturated sum of client totals, and each client total covers the saturated sum over its sessions |
| Projection.OpenSessionsAreCurrent | crates/rustgo-observability/src/store.rs:429-484 | every open session belongs to its client's current generation |
| Projection.StaleEventsDoNotMatter | crates/rustgo-observability/src/store.rs:266-427 | dropping all events of stale generations from any trace gives the same projection |
| Projection.GenerationsMatch | crates/rustgo-observability/src/store.rs:429-441 | the projected generation is the greatest authenticated one of the trace |
| ProjectionHistory.TrafficMatches | crates/rustgo-observability/src/store.rs:556-574 | after every trace a client's total is the saturated sum of every delta reported while its generation was online, across reconnects, and the server's total the saturated sum over all clients, both defined from the events alone |
| ProjectionHistory.OnlineMatches | crates/rustgo-observability/src/store.rs:266-285 | after every trace a client counts as online exactly when it last joined with that generation and has not disconnected since |
| ProjectionHistory.SessionsMatch | crates/rustgo-observability/src/store.rs:487-554 | after every trace a session that is shown is exactly as its own events say, and every open one is shown |
| ProjectionHistory.ProfilesMatch | crates/rustgo-observability/src/store.rs:266-332 | after every trace each client shows exactly what its own events say |
| ProjectionHistory.TimesMatch | crates/rustgo-observability/src/store.rs:599-603 | the snapshot's time is the latest time of any accepted event and the server's metrics are the last sample |
| Projection.BoundedKeepsNewest | crates/rustgo-observability/src/store.rs:605-620 | the closed sessions that remain are exactly the 4096 newest; open ones are never evicted |
| Projection.TracesKeepInv | crates/rustgo-observability/src/store.rs:266-620 | every trace keeps totals, generations and the bound |
| Projection.DeltaKeepsInv | crates/rustgo-observability/src/store.rs:556-574 | a counter delta keeps the totals, saturation included |
| Projection.SaturatingSum | crates/rustgo-observability/src/model.rs:275-280 | saturating the parts and saturating the whole agree |
| LiveProjection.Live.Apply | crates/rustgo-observability/src/store.rs:266-427 | every event leaves exactly the index-free fold's state, with the terminal index exact |
| LiveProjection.Live.Replay | crates/rustgo-observability/src/store.rs:266-427 | a whole trace yields the folded state |
| LiveProjection.Live.RecordTerminal | crates/rustgo-observability/src/store.rs:605-620 | one insertion keeps the newest entries and evicts exactly the others; the eviction guard is always true |
| LiveProjection.Live.RecordAll | crates/rustgo-observability/src/store.rs:445-458 | recording replaced sessions one by one ends with the 4096 newest of all, in any order |
| LiveProjection.Live.CloseSessions | crates/rustgo-observability/src/store.rs:447-454 | exactly the open sessions of the client are closed and listed |
| LiveProjection.Live.Authenticate | crates/rustgo-observability/src/store.rs:429-484 | an older or equal generation is ignored; a newer one closes the old sessions and carries totals over |
| LiveProjection.Live.OpenSession | crates/rustgo-observability/src/store.rs:487-526 | reopening an id removes its terminal entry |
| LiveProjection.Live.CloseSession | crates/rustgo-observability/src/store.rs:528-554 | only an open session of the current client and kind is closed |
| LiveProjection.Live.AddCounters | crates/rustgo-observability/src/store.rs:556-574 | client, server and open session counters advance together |
| TerminalIndex.NewestComposes | crates/rustgo-observability/src/store.rs:605-620 | keeping the newest after every insertion is keeping the newest of everything |
| TerminalIndex.NewestIsUnique | crates/rustgo-observability/src/store.rs:605-620 | the kept set is determined |
| TerminalIndex.OrderIsTotal | crates/rustgo-observability/src/store.rs:605-620 | closed sessions are ordered strictly by time and then by id |

## Left out

- SQLite itself, schema validation, version 4 and 5 migrations, bootstrap of a new store, vacuum and checkpoint internals: foreign code or plumbing; a checkpoint outcome is a choice of the worker model.
- Virtual-machine step budgets and wall-clock deadlines of maintenance: an interrupted turn is a step that changes nothing.
- Query results: no claim is made that a query sees every earlier batch, because control commands can be taken while batches wait for a retry.
- Empty batches and batches with too many records: refused before they count as offered.
- Temporary files of a durable write, symbolic links and handle checks against hostile replacement: the disk changes only by atomic moves and replacements.
- HistoryReplay.RetryChangesNothingIff: like the sequences of `HistoryRetries`, is stated for clocks that read no earlier than at the commit, because an earlier clock admits samples that were late before; for any clock PersistIsNoopIff gives the condition.
- Rounding of `f64` means: values are exact reals.
- Ed25519, X25519, HKDF, HMAC, SHA-256 and ChaCha20-Poly1305: ideal terms; the handshake tag and the candidate confirmation are not modelled.
- Eventual progress of the path manager: `PathProgress` states what each step achieves, not that it is ever taken, since an aborted recheck may leave the state at Rechecking.
- Timeouts of single path attempts: a timed-out attempt is one that ended without a path.
- Postcard encodings: an abstract pair with the round-trip law, so a decoded record need not re-encode to the same bytes.
- QUIC, TLS, sockets, NAT prediction, rendezvous and handshake phase machines, configuration, user interface and deployment: input and output over libraries that are not part of this model, or short one-function facts.
- The read-only snapshot counts of the projection: easy counts over the state.
