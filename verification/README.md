# Verification of the orm engine

A Dafny 4.11 model of the parts of the engine whose correctness no single function shows, with proofs. One module per
file. Tables are maps and sequences, a transaction is one step, and between two statements other processes may commit;
a crash may follow any statement. Where the code updates state, so does the model: a class holds the tables or the
handle, its methods follow the statements of the code, and each method is proved against a specification function or
an invariant.

- **Event store** (`EventStore`, `EventSteps`, `EventRuns`, `ArchiveRace`, `Housekeeping`, `Loading`, `UniqueKeys`,
  `Appending`, `AppendRoutes`, `AppendRace`, `Projection`, `Reactors`): hot log, archive, snapshots, read model and
  checkpoints of one event-sourced model. `Apply` is an uninterpreted function that may refuse an event. The reference
  is `EventStore.Replay`, the fold of all events of an aggregate, archived or not. `EventRuns` runs atomic steps in any
  order; `AppendRace` interleaves the statements of any number of appends with the workers' steps and shows exactly when
  the store goes through such a run; `Appending` and `Housekeeping` are the code as one process runs it.
- **Online migration** (`Migrator`, `DrainRace`, `Keyset`): triggers, backfill, drain and finalization of one replaced
  table, with old instances writing between any two statements; several drainers of one queue.
- **Field encryption** (`Crypto`, `EncryptBackfill`): the ciphertext frame and the in-place backfill. AES-GCM is a
  parameter that opens what it sealed.
- **Transfer** (`TransferStream`, `TenantExport`, `TenantImport`, `TenantStatus`, `TransferProof`, `TransferLive`): the
  record stream of a tenant, its export, also while it is written, its import in batches, the status protocol, and the
  round trip.
- **Region move** (`RegionMove`): moving hot events to another region.
- **Compilers and graphs** (`SqlText`, `SqlReader`, `QueryBuilder`, `QueryProof`; `OnDelete`; `ModelOrder`; `EventTypes`,
  `Upcasting`): conditions to WHERE text and arguments, measured against a reader with SQL precedence and three-valued
  logic; emulated cascade and set-null; the topological sort; the static upcaster check.

`dafny verify dfyconfig.toml` checks the project. `Wrappers` and `Decimal` hold an option type and decimal digits.

## Where the code does not do what one would expect

Each has a lemma or a postcondition that says exactly when.

- A dual-write queue that begins with 200 entries of another generation stops the drain, which then reports success;
  finalization drops the old table with changes still queued (`DrainsAllIffNoneStuck`, `StuckEntryLosesRow`).
- A crash in phase finalizing leaves the schema state there: `FinalizeMigration` of that version answers
  `ErrMigrationPending` ever after, and `runUpgrade` leaves the phase alone. Once the old table is dropped, every later
  `runUpgrade` to that version or beyond fails, since it creates the triggers of a table that is gone
  (`FinalizeMigration`, `RunUpgrade`, `StrandedForGood`).
- `Or()` of no conditions compiles to a text that always holds, while `In()` of no values never does
  (`OrIsDisjunction`, `InIsAnyEq`).
- `AtVersion(v)` with v <= 0 is the current state (`AtVersion`). After a load from a snapshot at the log top `UpdatedAt`
  is empty (`FoldInto`).
- A value written between the SELECT and the UPDATE of its row by the encryption backfill is lost if the backfill
  rewrites the cell (`ConcurrentWriteSurvives`).
- A tenant with a row of a self-referencing model that refers to a later primary key has an export that no import
  accepts, since rows are inserted in key order under an immediate foreign key (`LoadsIff`, `ForwardParentIsLost`).
- The unique keys of Append guard the hot log only. An archive run between the reads of an attempt and its commit can
  hide the events they would collide with: then a version exists twice (`OvertakenHandleBreaksLog`), or, without the
  region's advisory lock, a sequence is given twice (`StaleMaximumBreaksLog`). `CommitKeepsLogIff` is the exact
  condition of one commit, `KeepsLogIff` that of a whole interleaving. No such commit happens while no aggregate gets
  two new snapshots within one attempt (`Append`, `CalmRunIsClear`).
- With snapshots switched off, `Load` folds the hot log alone, from the zero state. After events of the aggregate were
  archived under an earlier setting it starts in the middle of the log (`HotLogAloneIff`, `Load`).
- The worker's drain and that of finalization run under different leases. A worker that stalls between reading an old row
  and writing the new one overwrites it with the old state after finalization is through (`StalledDrainerOverwrites`,
  `StalledDeleteLosesRow`; `OrderlyConverges` and `LateWriteIff` say when not).
- An export reads events and snapshots one after the other. A snapshot taken meanwhile of an event appended meanwhile
  leaves the restored aggregate with a version its log lacks (`SnapshotAboveEvents`, `FoundIsGoodIff`).
- Whether a cascade is refused when the restricting row goes itself depends on the order in which models are registered
  (`OrderDecides`).
- The emulated cascade deletes children only after its recursion, so rows that cascade on each other in a cycle make it
  recurse for ever (`DeleteLoops`; `Delete` says on which tables it ends).
- Reconciling repairs exactly the missing and lagging rows; a row that is wrong at the log top is only repaired by a rebuild
  (`BehindOrFull`, `RebuildProjection`).

## Model

| member | source | states |
|---|---|---|
| EventStore.NewestIsHot | projection.go:598-603 | Archiving below the second-youngest snapshot always leaves an aggregate's newest event in the hot log, so the top read there is the top of hot and archive together, whose versions are exactly 1..top |
| EventStore.HotMaxIsIssuedMax | registry.go:292-304 | MAX(seq) over the hot log alone is the largest sequence ever issued in the region, and the issued ones are exactly 1..MAX |
| EventSteps.InsertKeepsLog | aggregate.go:312-322 | An event that continues its aggregate and its region keeps the log gapless, pinned, ordered, unique and replayable, and replay grows by one Apply |
| EventSteps.InsertedKeepsLog | aggregate.go:309-334 | The same for all events of one Append, whose replay is the payloads applied in order |
| EventSteps.InsertedRows | aggregate.go:312-322 | The new rows carry consecutive versions, consecutive region sequences and the payloads in the order given |
| EventSteps.AppendedLog | aggregate.go:277-353 | A committed Append extends hot plus archive by exactly its events, loses none, and replay of the new top is the handle's memory with the payloads applied |
| EventSteps.AppendKeepsLogInv | aggregate.go:277-353 | Append keeps every log invariant though it looks at the hot log only |
| EventSteps.AppendKeepsRows | aggregate.go:344-352 | After the upsert of Append every read-model row is still the fold of its version's events |
| EventSteps.AppendGrows | aggregate.go:344-352 | Rows that stood at their log top still do, and an aggregate that grew has its row at the new top |
| EventRuns.PrunedKeepsNewest | projection.go:580-593 | Pruning never removes the newest snapshot |
| EventRuns.SnapshotKeepsLog | projection.go:576-594 | Storing a snapshot and pruning keep the log invariants, in particular every archived event and every archive bound in use stays below some stored snapshot |
| EventRuns.BoundBelowNewest | projection.go:614-637 | The archive bound is a stored snapshot with a newer one above it |
| EventRuns.ArchiveConserves | projection.go:674-690 | An archive transaction, also with a stale bound and checkpoint, only moves rows, and only rows below a stored snapshot |
| EventRuns.StepExtends | aggregate.go:277-353 | No step of any kind changes or loses an event |
| EventRuns.RunKeepsLog | projection.go:111-152 | Over any run of appends, snapshots, late projections, bound reads, archive moves and checkpoint writes the log invariants hold and the log only grows |
| EventRuns.RunKeepsInv | projection.go:111-152 | Over any such run every read-model row is right and stands at its log top |
| EventRuns.NeverLeavesHome | aggregate.go:283-298 | All events of an aggregate lie in the region of its first event, whatever regions later callers name |
| EventRuns.HotLogIsEnough | registry.go:292-304 | In every reachable store the hot log tells each aggregate's top, each region's maximum and that no sequence is given twice |
| EventRuns.RowsOverRuns | projection.go:241-280 | With a worker's fold and its upsert apart, a row never goes back and always is the fold of exactly its version's events |
| EventRuns.RowAtTop | aggregate.go:344-352 | In every reachable store exactly the aggregates of the log have a row, and it stands at the log top |
| EventRuns.RunGrows | projection.go:576-594 | Over any run archived events stay archived and the newest snapshot of an aggregate never gets older |
| Housekeeping.PrunedKeepsAtMost | projection.go:584-592 | Pruning leaves at most the number of snapshots to keep, at least one |
| Housekeeping.LateSnapshot | projection.go:545-594 | A snapshot whose fold is older than its write still stores full replay of its version, whatever was appended between |
| Housekeeping.SnapshotAggregate | projection.go:545-594 | With foreign commits between fold and write: the log invariants hold, a snapshot at or above the old top is stored, and no more than the number to keep remain |
| Housekeeping.MaybeSnapshot | projection.go:435-543 | After a pass no aggregate has as many events, of those there were, beyond its newest snapshot as the event-count rule allows, nor any at all if its newest snapshot, or without one its oldest hot event, is as old as the age rule allows |
| Housekeeping.MaybeArchive | projection.go:604-691 | With foreign commits between bounds, checkpoints, home region and move: nothing is lost, and everything that was due at the start is archived and no longer hot |
| Loading.SelectConsecutive | aggregate.go:160-177 | The event query returns the events of its range, each once, in version order |
| ArchiveRace.RunKeepsBelow | projection.go:614-690 | With at most one new snapshot nothing above the snapshot once read is archived, whatever bounds archivers still use |
| ArchiveRace.RunStaysTrailing | projection.go:604-691 | The same for every aggregate at once: over any run that gives none a second new snapshot, archiving stays below where each log stood when the run began |
| ArchiveRace.LaterIsHot | projection.go:604-691 | Hence every event archived by then was already there when the run began: no later version and no later sequence is hidden from the keys of the hot log |
| Loading.RaceLeavesRestHot | aggregate.go:131-171 | Between the two statements of Load any appends, archive runs and at most one new snapshot leave every event above the snapshot read hot |
| Loading.SecondRead | aggregate.go:126-177 | The second statement returns all events after the snapshot read first, none missing, and the snapshot is full replay of its version |
| Loading.ArchiverOvertakes | projection.go:614-690 | Exactly when an archive pass takes the event after version v from the hot log: the second-youngest snapshot is newer than v and the checkpoint covers the event |
| Loading.Aggregate.ApplyRows | aggregate.go:179-206 | The row loop folds exactly the rows before the first one after the time limit, and fails exactly when Apply refuses one of them |
| Loading.Aggregate.FoldInto | aggregate.go:126-207 | Newest snapshot plus hot events, in two statements with commits between, fold to full replay at the second read; with snapshots off and no limit it is the fold of the hot log alone, full replay where nothing of the aggregate is archived; updatedAt is set exactly when an event was applied |
| Loading.FoldIsReplay | aggregate.go:179-206 | Folding all events after a start up to the time limit is full replay of the prefix reached, and that is the longest one within the limit |
| Loading.HotLogAloneIff | aggregate.go:131-157 | With snapshots off Load reads every event of the aggregate exactly when none of them is archived; then its fold is full replay |
| Loading.Rebuild | aggregate.go:464-484 | Time travel is full replay of the longest prefix within version and time limit, and not found exactly when that is empty; where snapshots are off and no limit is given it is the fold of the hot log |
| Loading.Load | aggregate.go:94-121 | Load is full replay of the whole log and not found exactly when there are no events; with snapshots off it is the fold of the hot events, which is that where nothing of the aggregate is archived |
| Loading.AtVersion | aggregate.go:455-457 | AtVersion(v) is the fold of the first min(v, n) events for v >= 1, and of all for v <= 0 |
| Loading.AtTime | aggregate.go:460-462 | AtTime(t) is the fold of the longest prefix with no event after t |
| Appending.FirstRead | aggregate.go:287-304 | The optimistic check passes only for a handle at the log top |
| UniqueKeys.GeoColumnIsFree | schema.go:270-284 | With the region as third column the primary key refuses no less: an aggregate has one region and nobody else knows the id of a new one |
| UniqueKeys.NothingCameBetween | aggregate.go:305-324 | If neither unique key of the hot log is taken and no archived event would have taken one, the handle still stands at the top and the region maximum is the one read |
| UniqueKeys.CommitKeepsLogIff | aggregate.go:312-353 | A commit that both keys let pass keeps the log exactly when no archived event of the aggregate has one of its versions and none of the region one of its sequences |
| UniqueKeys.CommitIsAppended | aggregate.go:312-353 | With current reads the commit is the atomic Append step |
| UniqueKeys.OvertakenInsertPasses | aggregate.go:291-322 | The primary key of the hot log lets an overtaken handle's events pass exactly when all events they collide with are archived |
| AppendRoutes.OvertakenHandleBreaksLog | aggregate.go:287-347 | A run out of the empty store: two events and an archive run come after the optimistic check, both keys let the insert pass, and a version exists twice |
| AppendRoutes.StaleMaximumBreaksLog | postgres.go:323-333 | Another one, without advisory locks: two events of another aggregate and an archive run come after MAX(seq) is read, both keys pass, and a sequence of the region is given twice |
| Appending.NothingHidden | aggregate.go:305-324 | While no aggregate the window depends on gets two new snapshots, nothing archived since the reads is in the way of either key; under the region's lock that is the handle's own aggregate alone |
| Appending.StillCurrent | aggregate.go:305-324 | With nothing archived in the way a free pair of keys means that both reads are current |
| Appending.CommitIsRightIff | aggregate.go:312-353 | The commit of an attempt keeps the log exactly when nothing archived is in the way |
| Appending.CommitIsStep | aggregate.go:312-353 | The commit of an attempt is exactly the Append step: invariants kept, rows in place, memory the fold, read-model row at the top |
| Appending.ApplyInMemory | aggregate.go:332-339 | The Apply loop succeeds exactly when every payload is accepted in turn, and leaves their fold |
| Appending.Append | aggregate.go:231-413 | Statement by statement with any foreign commits, snapshots and archive runs between, up to nine attempts: a commit leaves the log right exactly when no event it would collide with is archived, which is so whenever no aggregate gets two new snapshots in one attempt; then the handle is at the new top with the fold of the whole log and its row there, the new events in order; a conflict means it was overtaken; alone it conflicts exactly when overtaken before and else commits exactly when Apply accepts |
| AppendRace.CommitIsAtomic | aggregate.go:312-353 | In any interleaving, a commit that passes both keys with no archived event in its way is the atomic Append step at the log top |
| AppendRace.CommitKeepsInv | aggregate.go:312-353 | Such a commit keeps the log, every other process's knowledge and the record of commits right |
| AppendRace.StepKeepsInv | aggregate.go:277-383 | Every statement of every process, workers included, keeps the invariant and changes the store by at most one atomic step, unless it is a commit with an archived event in its way |
| AppendRace.Linearizes | aggregate.go:277-383 | However the statements of appends and workers interleave, the store goes through the run of atomic steps given by the order of commits, as long as no commit passes the keys with an archived event in its way |
| AppendRace.KeepsLogIff | aggregate.go:277-383 | An interleaving keeps the log right after every step exactly then |
| AppendRace.CalmRunIsClear | projection.go:604-691 | That is so in every interleaving in which no aggregate gets two new snapshots within one running attempt |
| AppendRace.CommittedLogIsGapless | aggregate.go:355-383 | Hence an aggregate's versions, archived ones included, are exactly 1..n, a region's sequences exactly 1..MAX of the hot log, none twice, and exactly the logged aggregates have a row, at their top |
| AppendRace.OneWinnerPerVersion | aggregate.go:300-302 | Of two appends of one aggregate from the same version at most one commits |
| AppendRace.HandlesAreFolds | aggregate.go:365-383 | A handle that is not stale never runs ahead of the log and its memory is the fold of its version's events: no retry applies anything twice |
| AppendRace.ConflictHasWinner | aggregate.go:542-551 | A version conflict is only reported when the log is beyond the handle's version |
| Projection.LateUpsert | projection.go:241-280 | Writing the row of an old fold keeps all rows right and leaves the aggregate's row at the log top |
| Projection.ProjectAggregate | projection.go:225-239 | Afterwards the aggregate's row stands at the log top, whatever was appended between fold and upsert |
| Projection.Scan | projection.go:172-206 | The scan meets every aggregate with a hot event beyond the checkpoint once, and its last sequence is the highest seen |
| Projection.PastStays | projection.go:172-178 | Foreign commits, archiving included, never hide an aggregate from the scan of the hot log |
| Projection.ProcessGeo | projection.go:163-221 | Every aggregate with events beyond the region's checkpoint has its row at the log top afterwards, and no other checkpoint moves |
| Projection.ProcessProjection | projection.go:154-222 | The same over all regions |
| Projection.RebuildProjection | projection.go:734-752 | From any contents of the read model, however wrong, exactly one right row per aggregate at its log top results, though only hot events are scanned |
| Projection.BehindOrFull | projection.go:290-332 | The reconcile query finds exactly the aggregates whose row is missing or behind |
| Projection.ReconcileProjection | projection.go:290-343 | Afterwards every aggregate of the log has its row at the log top, and rows that were right stay right |
| Reactors.DeliveredStays | projection.go:392-410 | Later commits and archiving do not change which events the first s deliveries are |
| Reactors.View.Deliver | projection.go:411-426 | Handler and checkpoint move together or not at all |
| Reactors.View.DeliverBatch | projection.go:404-427 | A fetched batch is delivered event by event, in order, up to a failure |
| Reactors.View.ProcessReactor | projection.go:379-428 | Under any failures and crashes the deliveries per region stay exactly the matching events up to the checkpoint, in order; a finished pass reaches the end of every region, an undisturbed one finishes or advances |
| Reactors.View.RebuildView | projection.go:756-773 | From no checkpoint on the same holds for the whole log, archive included |
| Migrator.WriteKeepsInv | migrator.go:255-271 | Any write of an old instance, queued by its trigger, keeps: a key the cursor has passed and with no queued change has exactly the transformed old row |
| Migrator.CopiedRows | migrator.go:324-389 | A copied batch holds the transformation of each of its rows and leaves every other row alone |
| Migrator.CopyKeepsInv | migrator.go:404-431 | The backfill transaction keeps the invariant although its rows were read earlier and old instances wrote since |
| Migrator.FinishKeepsInv | migrator.go:411-433 | An empty batch may end the backfill although rows were inserted beyond the cursor since |
| Migrator.ApplyKeepsInv | migrator.go:525-543 | Applying a queued change while it is still queued keeps the invariant |
| Migrator.InStepOrQueued | migrator.go:505-517 | When an applied entry is dequeued its key is in step, or a later change of it is queued |
| Migrator.DequeueKeepsInv | migrator.go:510-513 | Hence dequeuing keeps the invariant |
| Migrator.DrainedStep | migrator.go:504-517 | Applying the first own entry is one step of the walk over the whole queue, also across batches |
| Migrator.DrainsAllIffNoneStuck | migrator.go:505-520 | The drain leaves no own entry behind exactly when none has 200 entries of other generations before it |
| Migrator.StuckEntryLosesRow | migrator.go:514-520 | A queue with 200 foreign entries first: the drain reports success and a row of an old instance is missing in the new table |
| Migrator.EarlyDrainResurrects | migrator.go:404-431 | Why the drain waits for the end of the backfill: on a run where it does not, a deleted row comes back for good |
| Migrator.Migration.BackfillReplace | migrator.go:393-432 | With writes of old instances and a crash between any two statements the invariant holds, the loop ends, and undisturbed runs succeed |
| Migrator.Migration.ApplyQueued | migrator.go:505-543 | One entry read, written and removed in separate statements keeps the invariant |
| Migrator.Migration.DrainBatch | migrator.go:478-518 | One batch keeps the invariant, shrinks the queue or finds others only, and without writes leads where the whole walk leads |
| Migrator.Migration.DrainDualWrite | migrator.go:470-523 | The drain of one drainer ends; without writes it is exactly the walk of the queue |
| DrainRace.StepKeepsInv | migrator.go:505-543 | With any number of drainers, every statement keeps each key in step or queued, if a drainer starts on an entry only while it is queued, first of its key, and alone on the key |
| DrainRace.OrderlyConverges | migrator.go:470-610 | Then, whatever crashes and writes fall between, an empty queue means that the new table is the transformed old one, before the drop of the old table and after it |
| DrainRace.LateWriteIff | migrator.go:525-543 | A drainer that stalled and writes after all was in step leaves it so exactly when the row it read gives the present new row, or, for a delete, the old table has no such row |
| DrainRace.StalledDrainerOverwrites | projection.go:147-149 | The worker stalls between reading and writing, finalization drains under its own lease and drops the old table, then the worker writes: a change of an old instance is lost |
| DrainRace.StalledDeleteLosesRow | projection.go:147-149 | The same with a delete: a row inserted anew is lost |
| Migrator.Migration.RunUpgrade | migrator.go:133-231 | The phase order keeps triggers before any read and the backfill before dual-write, over crashes and resumptions; undisturbed it succeeds exactly when the version is reached, the table's step is not due, or the old table still exists; a migration that is finalizing is left as it is |
| Migrator.Migration.FinalizeMigration | migrator.go:551-610 | Refuses exactly as documented; with a crash after any statement the old table is either untouched or dropped, and then the new one is exactly its transformation, unless an entry was stuck; on success it is dropped and no own change is queued |
| Migrator.Migration.StrandedForGood | migrator.go:183-194 | After a crash between the DROP TABLE and the last phase change no later upgrade to that version or beyond, nor its finalization, ever succeeds: the triggers have no table |
| Keyset.BatchIsStretch | migrator.go:276-320 | A keyset batch is the complete stretch of the table from the cursor to its own last key; it is empty exactly at the end |
| Crypto.FrameInjective | crypto.go:46-73 | A ciphertext frame is read in one way only |
| Crypto.DecryptEncrypted | crypto.go:49-106 | What one provider encrypted, every provider decrypts that still resolves the key id to the same key |
| Crypto.DecryptsIff | crypto.go:76-106 | Decryption yields a text exactly on frames whose key id resolves and whose sealed part opens to it |
| EncryptBackfill.PlainKept | encrypt.go:175-187 | After a cell's update a stored plaintext is what the cell decrypts to exactly when it was not taken for ciphertext of something else; then it is left as it was |
| EncryptBackfill.CellUpdateDone | encrypt.go:154-197 | A cell's update leaves NULL and valid ciphertext alone, makes a plaintext decrypt to itself and the index its hash |
| EncryptBackfill.ConcurrentWriteSurvives | encrypt.go:125-221 | A value written between SELECT and UPDATE survives exactly when the cell read was NULL or ciphertext, or held the same text |
| EncryptBackfill.RowUpdate | encrypt.go:142-198 | The field loop finishes every field of a row |
| EncryptBackfill.Backfill.BackfillEncrypt | encrypt.go:101-232 | From any checkpoint, over a crash between any statements and others writing in the old form and the new between any two: the loop ends; a finished run has every row nobody wrote since its batch was read encrypted and indexed, keeps what others wrote behind it, and where a write fell between SELECT and UPDATE leaves the row written under the update of the row read; alone it encrypts all |
| EncryptBackfill.WriteKeepsInv | encrypt.go:121-228 | A write of somebody else at any moment keeps what holds of the table, the cursor and the writes so far |
| EncryptBackfill.BatchKeepsInv | encrypt.go:214-226 | So does the transaction of a batch on rows that others have written, inserted or deleted since its SELECT |
| EncryptBackfill.RacedText | encrypt.go:139-221 | In a raced row, cell by cell, the text written survives exactly when the cell read was NULL or ciphertext, or held that text |
| EncryptBackfill.Backfill.RunToEnd | migration.go:180-204 | After any number of crashed attempts a run that comes through leaves the same; alone, every non-null field decrypting to its plaintext, valid ciphertext byte-identical, each index the hash |
| SqlText.LexRender | query.go:122-173 | The words of a WHERE text can be read back from its characters |
| SqlText.RebindDollar | driver.go:134-152 | The scan over the bytes is the left-to-right numbering of holes outside literals |
| SqlText.RebindNumbers | driver.go:134-160 | Rebinding builder text numbers exactly its holes, left to right |
| QueryProof.PlainReads | query.go:199-229 | The text of a condition on a plain field reads back to an expression with the condition's meaning on every row |
| QueryProof.LookupReads | query.go:265-325 | So does one on a lookup field, also with values that are empty after normalising |
| QueryProof.CondReads | query.go:186-262 | So does every tree under NOT over AND over OR precedence, arguments in order |
| QueryProof.JoinedReads | query.go:230-248 | A joined list reads at the level of its joining word |
| QueryProof.WhereReads | query.go:122-150 | The whole WHERE reads as tenant AND c1 AND .. AND cn, wherever its arguments lie in the statement |
| QueryProof.QueryKeepsMeaning | query.go:122-173 | The text, with ? or rebound to $n, evaluates in three-valued logic to tenant AND c1 AND .. AND cn |
| QueryProof.UpdateKeepsMeaning | query.go:411-476 | The text of a set-based update, with ? or rebound to $n, reads as assigning each column its value on exactly the rows the conditions mean |
| QueryProof.InIsAnyEq | query.go:212-224 | On every row In means what the Or of its equalities means exactly when it has values |
| QueryProof.OrIsDisjunction | query.go:230-248 | The text of an Or, read back, is on every row the disjunction of its children exactly when it has any; that of an empty one is true of every row |
| QueryProof.CompilesIffSupported | query.go:186-325 | Compilation succeeds exactly for known fields, unencrypted ones, and equality on lookup fields with hashable values |
| QueryBuilder.Query.Build | query.go:122-173 | The loop over the conditions builds the text and arguments of the conjunction, or fails without a tenant or when a condition does |
| QueryBuilder.Query.AddWhere | query.go:108-112 | Conditions accumulate in the order of the calls |
| QueryBuilder.Query.UpdateSet | query.go:411-476 | Assignment arguments come before condition arguments |
| OnDelete.Engine.RestrictHit | repo.go:481-494 | Finds a restricting row exactly when there is one |
| OnDelete.Engine.EmulateField | repo.go:551-605 | One reference field: set-null or cascade removes only what is needed and leaves no such reference, also where the recursion has removed some of the rows already; refusal means a needed row is restricted |
| OnDelete.Engine.EmulateOnDelete | repo.go:538-608 | The loops over models and fields are the reference over the flat list of fields; success removes only rows of every cascade-closed set around the ids and leaves no reference to them; refusal means a needed row is restricted; the recursion is no deeper than the longest chain of rows that cascade one on the other |
| OnDelete.CascadeStep | repo.go:567-604 | One cascade, its children's dependants already gone, keeps the state right |
| OnDelete.LeastDeletion | repo.go:510-532 | What a run has removed is the least cascade-closed set, set-null columns into it are NULL, all else is unchanged, and resolving references still resolve |
| OnDelete.Engine.Delete | repo.go:476-532 | Answers and leaves exactly what the reference does, which meets the fields in the order of declarations; deletes exactly the least closed set or changes nothing; never succeeds against a restricting survivor, is only refused when a restricting reference points into the set; it ends on every table whose cascades form no cycle below the row, and only there does it ever delete |
| OnDelete.CascadeSinks | repo.go:567-604 | Every row a successful cascade has removed ends only finite chains of cascading rows |
| OnDelete.RankedIsShallow | repo.go:567-604 | Where the rows below the deleted one can be ranked along their cascades, chains are no longer than the rank |
| OnDelete.DeleteLoops | repo.go:567-604 | A table of one model with two cascading self references on which the recursion never ends, however deep the stack |
| OnDelete.OrderDecides | registry.go:463-466 | The same rows under the same fields: registered in one order the root is deleted with both dependants, in the other the delete is refused |
| ModelOrder.Sorter.Visit | registry.go:581-600 | A visit finishes its model behind its targets, or finds a cycle |
| ModelOrder.Sorter.SortedByDeps | registry.go:578-607 | Succeeds exactly when no reference cycle exists (self references aside), with each model once, targets first |
| ModelOrder.NoCycleInOrder | registry.go:578-607 | A finished order admits no cycle |
| ModelOrder.DependantsGoFirst | import.go:516-533 | Walking the order backwards empties every dependant before its target |
| EventTypes.ParseFullType | event.go:116-134 | parseType(fullType(name, v)) = (name, v) for every name, also one containing .v |
| EventTypes.FullTypeInjective | event.go:116-118 | Different declared events never share a full type |
| Upcasting.CheckChain | upcast.go:100-124 | The chain loop accepts exactly gapless chains whose types fit up to the declared payload type |
| Upcasting.ValidateUpcasters | upcast.go:86-127 | Succeeds exactly when every dictionary type of a declared event has such a chain |
| Upcasting.DecodePayload | upcast.go:41-84 | After a successful check decoding never misses an upcaster nor feeds one a wrong type, and yields the composition of the steps at the declared type |
| Upcasting.ChainLifts | upcast.go:60-83 | Under a sound chain the dynamic loop is the composition of the registered functions |
| RegionMove.SelectBatch | geo.go:507-527 | Picks the first due rows, region by region in sequence order |
| RegionMove.PairKeepsOrder | geo.go:528-556 | Moving a batch keeps sequence order equal to version order, also for an aggregate moved in parts |
| RegionMove.EventLog.MoveEventBatch | geo.go:507-558 | One batch keeps (geo, seq) unique and the order, changes only region and sequence of due rows, and leaves fewer due |
| RegionMove.EventLog.MoveEvents | geo.go:489-504 | The loop ends; stopping after any batch leaves a state from which a re-run finishes |
| RegionMove.EventLog.MoveAfterCrashes | geo.go:489-558 | Any number of runs crashed after any batch and then a full one end in the finished move |
| RegionMove.EventLog.MoveAll | geo.go:480-558 | From a log of pinned aggregates in version order back to one, over any crashes |
| RegionMove.FinishedMove | geo.go:489-558 | Exactly the filtered rows are in the target, in version order, above any checkpoint not above the target's old maximum |
| RegionMove.MoveKeepsReplay | geo.go:536-554 | What an aggregate folds to does not depend on where its events lie |
| TransferStream.CrudOfFails | import.go:371-379 | A row that cannot be inserted cannot be made good by later rows |
| TransferStream.FoldedSame | import.go:420-459 | Folding an imported aggregate does not depend on the sequences its events got |
| TenantImport.InsertTop | import.go:380-399 | The event inserted at MAX + 1 is the region's new maximum |
| TenantImport.NumberStep | import.go:380-399 | Each event gets the next sequence of its region: above the start, rising in stream order, without a gap if no one else appends |
| TenantImport.InsertEvents | import.go:380-399 | The loop with its cached maxima fails exactly on a duplicate event, and else has placed all events in order |
| TenantImport.InsertRows | import.go:371-379 | Inserting a batch fails exactly when the row by row reference does |
| TenantImport.InsertSnaps | import.go:400-410 | Fails exactly on a duplicate snapshot |
| TenantStatus.PrefixFails | import.go:266-271 | What cannot be loaded from a prefix of a stream cannot be loaded from the stream |
| TenantStatus.Tenant.Flush | import.go:367-418 | All of a batch or nothing; the loaded data grows by exactly the batch |
| TenantStatus.Tenant.Reproject | import.go:420-459 | Page by page the read model becomes one fold per aggregate with hot events |
| TenantStatus.Tenant.ReadStream | import.go:185-265 | The reading loop checks the frame of the stream line by line and writes exactly the records read, in batches, whatever others append between |
| TenantStatus.Tenant.RunImport | import.go:185-283 | Wherever the flushes fall and whatever others append between: success means the stream was complete and the data is exactly its contents; an undisturbed run succeeds on every complete, loadable stream |
| TenantStatus.Tenant.BeginImport | import.go:467-482 | Crashed anywhere, the tenant is as before or archived |
| TenantStatus.Tenant.FinishImport | import.go:484-497 | Crashed anywhere before its end, the tenant is not active |
| TenantStatus.Tenant.Import | import.go:47-105 | With a crash after any statement the tenant is active afterwards only with the data it had or with the complete data of the stream; refused as not empty exactly for an active tenant with data; undisturbed it succeeds exactly on complete, loadable streams |
| TenantStatus.Tenant.ImportAfterFailures | import.go:73-105 | After any failed or crashed attempts with any streams a successful import leaves exactly the contents of its own stream, its events in one gapless stretch above what the region then held |
| TenantExport.Export | tenants.go:161-207 | The stream carries every row, every hot and archived event and every snapshot the statements find once, in dependency, key and version order, between header and end, also of a tenant that is being written |
| TenantExport.Section | tenants.go:189-202 | The section of one model carries exactly that model |
| TransferProof.ExportAccepted | tenants.go:174-206 | A full export is accepted |
| TransferProof.PrefixRejected | import.go:266-268 | Every proper record prefix of an export is rejected, whatever the options |
| TransferProof.CrudOfIff | import.go:371-379 | Rows load exactly when each refers only to earlier rows, itself or shared rows |
| TransferProof.RootedIff | registry.go:578-607 | In dependency order a reference is to an earlier row exactly when it does not point to a later key of its own model |
| TransferProof.LoadsIff | import.go:185-283 | A full export can be imported exactly when no row of a self-referencing model refers to a later primary key |
| TransferProof.FoldedIsReplay | import.go:434-459 | Newest imported snapshot plus later events fold to full replay of the exported log |
| TransferProof.RoundTrip | import.go:185-459 | Whatever sequences the events got, importing an export restores all rows, per aggregate the events of hot log and archive, the snapshots, and a read model that is full replay |
| TransferProof.SameImport | import.go:73-105 | Two imports of one stream leave the same tenant up to region sequences, which differ by one offset per model |
| TransferProof.ForwardParentIsLost | schema.go:182-189 | A category whose parent has the later id: a sound tenant whose export can never be imported |
| TransferProof.Restore | tenants.go:161-207 | Export then Import leaves an empty, archived or half imported tenant active and restored exactly when no self reference points forward |
| TransferLive.MixedIsGoodIff | tenants.go:193-200 | Events read first and snapshots read later, with any appends, snapshots and archive runs between, make a sound log exactly when no snapshot stands above the events read |
| TransferLive.FoundIsGoodIff | tenants.go:187-202 | What an export finds of a tenant that is being written is a sound tenant, so that the round trip holds, exactly when rows found refer to rows found and no snapshot stands above the events of its model |
| TransferLive.QuietExportFits | tenants.go:193-200 | No snapshot does if no append falls between the two statements |
| TransferLive.SnapshotAboveEvents | tenants.go:193-200 | An append and its snapshot between them: the restored aggregate loads at a version its log does not have, and its next append leaves a gap for good |

## Left out

- OnDelete.Engine.Delete: how deep the call stack may grow is a parameter.
- EventStore.NewestIsHot: region moves, Purge and the wipe of an import are not steps of the runs, since they delete or
  relocate hot rows.
- Appending.Append: it owns its transaction: an Append inside a caller's transaction that rolls back later is not
  modelled, nor is a handle used after an error without Refresh.
- AppendRace.Linearizes: the advisory lock, which only excludes interleavings, is not modelled there, and a load is one
  step (`Loading` takes it apart).
- Projection.ProjectAggregate: snapshots are on; with them off its fold is that of `HotLogAloneIff`.
- Housekeeping.MaybeSnapshot: the times at which snapshots were taken are an input, and a time that cannot be parsed does
  not occur.
- Reactors.View.ProcessReactor: one worker per view, and no region moves or wipes during the run.
- Projection.RebuildProjection: no other projection worker runs meanwhile; appends, snapshots and archiving may.
- Migrator.Migration.RunUpgrade: one replaced table and one leader; chained versions, batch scripts, leases and
  heartbeats are not modelled, and new instances do not write the new table before finalization. The short window in
  which PostgreSQL drops and recreates a trigger is not modelled.
- Migrator.Migration.DrainDualWrite: starts when the backfill is done, as the order of the phases has it
  (`EarlyDrainResurrects` shows why it must), and is the only drainer; several are the subject of `DrainRace`, which
  leaves out the entries of other tables and the backfill.
- EncryptBackfill.Backfill.BackfillEncrypt: the current key does not change during the backfill and its resumptions.
- QueryProof.QueryKeepsMeaning: ORDER BY, LIMIT and OFFSET, and the encoding of Go values into columns are not modelled;
  column names are plain, as snake-casing makes them.
- TenantStatus.Tenant.Import: one importer per tenant; keys of other tenants never collide with those of the stream;
  unique indexes other than the keys, the tables of a running migration, and the status cache of other processes are not
  modelled.
- TransferProof.RoundTrip: row contents are plaintext values, so re-encryption with the current key and JSON coding are
  identities here; creation times, event ids and replica lists are not carried.
- RegionMove.EventLog.MoveEvents: the archive, snapshots and rows that move with one UPDATE each are not modelled.
- The SQL drivers, DDL, partitions, tablespaces, placement and catalogue resumption: foreign engines.
- Leases, instance heartbeats, randomness, ids, clocks, sleeping and throttling.
- JSON and reflection: encoding and decoding are taken as inverse on modelled values.
- Watch channels, WaitFor, streams, observability, options, the repository's CRUD methods other than Delete.
- Small round trips that would only add easy members: ids as text, quoting, snake-casing.
