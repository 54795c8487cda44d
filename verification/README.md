# Billing inbox: a verified model

The billing inbox of the cloud logger is a single-writer, append-only receipt store on one
bbolt file. This project models it in Dafny and proves what it promises across inserts,
migration, retirement of old bodies, archive capture, an archive cache, a recovery fence and
online compaction, with crashes and reopens at any point.

## How the model is built

**One small database.** `Store` is a key-value database of named buckets, each a map and a
sequence counter, changed by write-sets of four kinds of mutation. `Gateway` is the one write
path: a recording transaction, the commit that adds a generation and a journal entry, and the
replay of journalled write-sets.

**One specification: the accept log.** `Invariant` relates every reachable database to a
sequence of accepted records. Hot events, the two binding formats, receipts, the bounded cache,
captures, the catalog and the retirement operations are views of that sequence.

**Operations as decisions.** `Insertion`, `Migration`, `Retirement`, `Cache`, `Backup` and
`Recovery` give each operation as a function from the database it sees to an error or a
write-set, and prove that the committed result keeps the invariant and takes no promise back.
`Transactions` has the same operations as loops over a recording transaction, each proved to
decide exactly that; `Inbox` is the object with its fields and latches.

**Whole runs.** `Operations` makes one state machine of all operations, captures, session
changes, restarts and cutovers; `Runs` states the results over its histories. `Compaction` is
the compactor against a directory whose pending operations a crash cuts at any point;
`CompactionSafety`, `CompactionSteps` and `CompactionTheorems` prove it. `Service` puts the two
machines together: the domain operations commit on the file that the compactor copies, swaps
and reclaims, and the machine crashes and reopens. Every such run is proved to be a history of
the domain machine, so the results of `Runs` and `Paging` hold for the service. `Staging`
prepares an audited snapshot for recovery and starts that machine from it.

**Exactly when.** Safety alone would also hold of an inbox that refuses everything. `Decisions`
says of each operation, on every reachable store, exactly when it writes and what it leaves;
`Receipts` says which event every receipt time is the clock of; `CompactionProgress` says when
replay and the gate go through and that a compaction runs to its end; `CaptureProgress` says
which records and estimates let a capture succeed.

**Checkers.** `Audit` is the executable audit as loops, `Intervals` its interval arithmetic, and
`AuditTheorems` says how much of it follows from the invariant; `AuditSoundness` says what a
passed audit is worth on any store. `Archive`, `Packing`,
`Capturer`, `CaptureValidity`, `Usage`, `ExportAudit` and `ExportTheorems` cover the archive
set: the manifest, the packing, the canonical usage binding and the verifier's check.

Values are symbolic where the source uses a library: JSON is lossless, a digest is the value it
was taken of, a signature (section 5.1.7 of RFC 8032) verifies exactly for the key and message
it was made with. The clock, the authority's reply, the object store's answer, the size of the
journal and of the events bucket, and the ciphertext are inputs.

## What the proofs found

* **A first publication that is not durable can lose the store's manifest.** `CompactOnline`
  publishes the first active manifest, and if only the directory sync fails it returns. A second
  call finds the manifest, starts its session and marks the store as needing a manifest, while
  the directory entry is still not durable. After a power loss the store refuses to open,
  although its contents are intact (`LostManifest`). In every state of every run, all crash
  points can be reopened if and only if the manifest is durable or not yet demanded
  (`ReopensIff`); a session start keeps that exactly when the manifest it found was durable
  (`StartReopensIff`).
* **A fence raised during an admission is open.** `AdmitRecovery` commits, and clears the flag in
  memory in a second lock section that looks at nothing. If the fence is raised again in between,
  the flag goes down behind the raised fence and an event is accepted there (`TangledRun`). A
  reading behind the fence stands through every continuation if and only if the flag is up and no
  admission is still to clear it (`ReadingStandsIff`). Raising the fence only while no admission is
  between its two sections, as at start-up, is enough (`UntangledHeld`).
* **The audit asks two things no operation enforces.** `InsertEvent` does not compare the event's
  environment with the allowlist, and an abort of an operation this store never saw does not
  compare its range with the head. `AuditExact` and `AuditInductive` prove that in every
  version-2 state these are the only two ways the audit can fail; `ForeignInsertFails` and
  `UnseenAbortFails` are the inputs.

## Model

| member | source | states |
|---|---|---|
| Gateway.MutationTx.Record | billing_lifecycle.go:66-98 | each mutation is applied and recorded in order, so the transaction's database is the base with the recorded write-set applied |
| Gateway.MutationTx.NextSequence | billing_lifecycle.go:99-105 | the next sequence, through a recorded mutation, refused only at the largest uint64 |
| Gateway.CommitEffect | billing_lifecycle.go:113-152 | the effect of one commit bucket by bucket: domain tables as written, generation plus one, one journal entry holding the sealed write-set or the session dropped |
| Gateway.CoreReplay | billing_compaction.go:320-359 | replaying a write-set on two databases that agree outside the journal and the storage keys keeps them in agreement, and is refused on both or on neither |
| Replay.ApplyMutations | billing_compaction.go:320-359 | accepts a write-set exactly when it avoids the journal and every bucket it names exists when reached, and then applies all of it |
| Replay.CollectWriteSets | billing_compaction.go:605-632 | returns the write-sets of a generation range in order, and fails if and only if one of them is missing |
| Replay.ReplaySets | billing_compaction.go:633-645 | one candidate transaction applies all collected write-sets, or none of them |
| Replay.CommitTracks | billing_lifecycle.go:124-149 | while the session lasts, a commit adds exactly the entry that takes the candidate along to the new live database |
| Replay.OverflowLeavesGap | billing_lifecycle.go:136-141 | a commit that finds the journal over its bound drops the session and leaves a generation without an entry |
| Directories.PreservedOpens | billing_inbox.go:79-123 | a directory whose selected file holds every acknowledged mutation opens unless a demanded manifest is missing |
| CompactionSteps.StepKeeps | billing_compaction.go:364-812 | every step of the compaction protocol, at every crash point, keeps the protocol invariant |
| CompactionTheorems.RunKeeps | billing_compaction.go:364-812 | the protocol invariant holds in every state of every run from a fresh store |
| CompactionTheorems.CoreIsContents | billing_compaction.go:706-717 | agreement outside the erased parts is equality of every bucket, key and sequence except the journal bucket and the two storage keys |
| CompactionTheorems.CutoverAgrees | billing_compaction.go:603-760 | for every interleaving of writers, the candidate past the gate and the database a swap installs have the contents of the live database |
| CompactionTheorems.OverflowDooms | billing_lifecycle.go:136-141 | an oversized journal leaves the domain data as it would have been and dooms the compaction |
| CompactionTheorems.OverflowNeverCutsOver | billing_compaction.go:682-699 | a compaction whose session was dropped never passes the gate, although the gate does not look at the session |
| CompactionProgress.ReplayPossibleIff | billing_compaction.go:603-647 | under the protocol invariant a replay batch goes through exactly while the session is there |
| CompactionProgress.GatePossibleIff | billing_compaction.go:676-717 | under the protocol invariant a ready candidate passes the gate exactly when the inbox has not failed, the session was never dropped and at most 32 generations are left |
| CompactionProgress.GateCompletes | billing_compaction.go:676-800 | from there gate, publication and swap go through, and the open file is the candidate with everything acknowledged and a durable manifest |
| CompactionProgress.CompactionCompletes | billing_compaction.go:364-812 | every idle version-2 inbox that can start a session can run a compaction to its end |
| CompactionProgress.AbortPossible | billing_compaction.go:364-812 | before publication a compaction can always be given up |
| CompactionProgress.CleanupPossibleIff | billing_compaction.go:164-197 | an interrupted shadow is cleaned up exactly when the inbox is idle and a manifest is in place |
| CompactionProgress.OpenPossibleIff | billing_inbox.go:79-172 | a stopped inbox opens exactly when a demanded manifest is there and a generation is left to drop an interrupted session; it then serves what was acknowledged |
| CompactionTheorems.CrashLosesNothing | billing_compaction.go:674-812 | at every crash point the surviving directory selects a file with the contents of the last acknowledged database |
| CompactionTheorems.ReopensIff | billing_inbox.go:79-123 | in every state of every run, all crash points can be reopened if and only if the manifest is durable or the store does not demand one |
| CompactionTheorems.UnexposedReopens | billing_inbox.go:79-123 | so a run that started no session under a manifest that was not durable can be reopened at every crash point |
| CompactionTheorems.StartReopensIff | billing_compaction.go:411-449 | after a session start every crash point can be reopened if and only if the active manifest was already durable |
| CompactionTheorems.LostManifest | billing_compaction.go:416-449 | the concrete run, on any version-2 store, in which a failed directory sync, a second attempt and a power loss leave a store that refuses to open with its contents intact |
| CompactionTheorems.NamedFileStays | billing_compaction.go:164-197 | reclaim, interrupted-candidate cleanup and abort never remove, replace or change the file the visible manifest names, between publication and swap included |
| Insertion.InsertKeeps | billing_inbox.go:262-340 | an accepted event appends exactly its record to the accept log and every view follows |
| Insertion.ReinsertionAnswers | billing_inbox.go:262-340 | for any event, from the accept log alone: invalid exactly when malformed, duplicate exactly when some accepted record has its id and digest, conflict exactly when one has its id and another digest, accepted exactly when the id is new and a sequence is left |
| Migration.BackfillRuns | billing_lifecycle.go:220-247 | a batch reads exactly the next records of the log and is never refused on a reachable store |
| Migration.MigrateProgress | billing_lifecycle.go:188-263 | a call keeps the events and the head, lowers the remaining work by min(batch, remaining), and reaches version 2 exactly when none remains |
| Decisions.MigratesExactly | billing_lifecycle.go:188-205 | on a reachable store a migration call is refused by the fence alone, and writes nothing exactly at version 2 |
| Migration.FullyBound | billing_lifecycle.go:223-256 | at version 2 every sequence 1..head has exactly one full binding, receipt id and receipt time, and there are no others |
| Receipts.InsertReceipt | billing_inbox.go:319-331 | from the start of the migration on an insert gives the record it accepts its own clock as receipt time, and changes no other |
| Receipts.MigrateReceipt | billing_lifecycle.go:223-256 | the call that ends the migration gives every legacy record its clock as receipt time; no migration call changes any other |
| Receipts.ReceiptOrigin | billing_lifecycle.go:275-289 | in every history a sequence has the receipt time t if and only if t is the clock of the insert that accepted it or of the call that ended its migration |
| Retirement.CoverageMeans | billing_lifecycle.go:578-603 | for hot records the coverage check passes exactly when a signed set spans the range and every record is old enough |
| Decisions.CoversExactly | billing_lifecycle.go:578-584 | on a reachable store a set covers a range exactly when a catalog entry spans it, and what it spans was accepted |
| Decisions.PlansExactly | billing_lifecycle.go:525-572 | on a reachable store: exactly when a plan is stored, when it is answered again without a write, and when it is unavailable |
| Decisions.PlanRecords | billing_lifecycle.go:557-570 | a stored plan is pending, made for that plan, unsealed, at the floor it was made at |
| Retirement.PlanDecides | billing_lifecycle.go:525-572 | a plan that writes starts right after the floor, ends within the head, passed the coverage check, is new, and is stored pending |
| Retirement.PlanKeeps | billing_lifecycle.go:525-572 | planning keeps the invariant and writes one pending operation; every other bucket and domain key is as before |
| Retirement.ApplyDecides | billing_lifecycle.go:644-695 | an apply that deletes has re-read the same pending operation, starts at the floor, is covered by a verified set and touches only bodies of the retention age |
| Decisions.AppliesExactly | billing_lifecycle.go:644-695 | on a reachable store: exactly when an apply deletes, and when it only repeats a completed one |
| Decisions.ApplyRecords | billing_lifecycle.go:679-693 | the stored operation becomes completed at that time through its own range, sealed over everything it says |
| Retirement.ApplyKeeps | billing_lifecycle.go:661-694 | deletion, floor and sealed receipt commit together; the completed operations keep tiling 1..floor and the hot events stay exactly those above it |
| Retirement.AbortDecides | billing_lifecycle.go:708-758 | an abort that writes replaces a pending or absent operation by a sealed tombstone, never a terminal one |
| Decisions.AbortsExactly | billing_lifecycle.go:708-758 | on a reachable store: exactly when an abort writes |
| Decisions.AbortRecords | billing_lifecycle.go:727-756 | the tombstone is the stored operation, else the one read before, else the plan, sealed as aborted at the floor |
| Retirement.AbortKeeps | billing_lifecycle.go:708-758 | aborting keeps the invariant and writes one aborted operation; every other bucket and domain key is as before |
| Cache.BoundIsOriginal | billing_backup.go:649-656 | a record that the stored binding names is the accepted original |
| Cache.AdmittedMeans | billing_backup.go:642-660 | a record is rehydrated exactly when it continues the batch in the retired part of the set and is the original with its trusted receipt time |
| Cache.CachedLengthMoves | billing_backup.go:661-673 | changing one cached body moves the exact total by the difference of the lengths, and one body never exceeds the total |
| Cache.RehydrateKeeps | billing_backup.go:622-676 | after a rehydrate the counter equals the cached bytes, overwrites included, and is within the configured bound |
| Cache.RehydratesExactly | billing_backup.go:620-676 | on a reachable store a batch is taken if and only if it is 1 to 1000 originals with their trusted times, in sequence, in the retired part of a verified set, and the recount of the cache with each prefix is within the bound |
| Cache.RehydrateStores | billing_backup.go:661-675 | afterwards the cache holds exactly those bodies besides what it held, and the counter is the recount |
| Decisions.RehydrateServes | billing_backup.go:661-675 | afterwards every body of the batch reads as it was accepted |
| Cache.VictimsMeans | billing_backup.go:682-697 | an eviction takes cached sequences up to its bound in ascending order, at most a thousand and all of them when there are fewer; nothing cached below a victim is passed over |
| Cache.EvictNeverUnderflows | billing_backup.go:677-700 | on a reachable store an admitted eviction is never refused by the byte counter |
| Cache.EvictsExactly | billing_backup.go:677-700 | an eviction is taken on every ready reachable store and on no other |
| Cache.EvictionRemoves | billing_backup.go:682-699 | exactly the victims are gone, every other row is as before, and the counter is the recount |
| Cache.EvictionKeeps | billing_backup.go:677-700 | after an eviction the counter equals the bytes that are left |
| Backup.BeginKeeps | billing_backup.go:126-176 | a new set begins only when no other is in flight, and changes nothing recovery looks at |
| Decisions.BeginsExactly | billing_backup.go:126-176 | exactly when a set begins, and that exactly its status is written |
| Backup.AbandonKeeps | billing_backup.go:133-142 | exactly the interrupted set is marked abandoned; every other set, the captured frontier and all other buckets are as before |
| Decisions.AbandonsExactly | billing_backup.go:133-142 | exactly the set being captured can be abandoned |
| Backup.SealScope | billing_backup.go:194-211 | the range packed from an earlier snapshot still continues the sealed ranges of the live store |
| Backup.SealKeeps | billing_backup.go:407-426 | the seal extends the partition of 1..captured_through to the snapshot's head while other operations went on |
| Decisions.SealsExactly | billing_backup.go:418-426 | exactly when a seal is written, and that it stores the manifest and moves the frontier to its high water |
| Backup.UploadKeeps | billing_backup.go:484-508 | sealed to uploaded keeps the partition |
| Decisions.UploadsExactly | billing_backup.go:484-508 | exactly when an upload is recorded, and that the set becomes uploaded and nothing else |
| Backup.VerifyDecides | billing_backup.go:509-545 | a verification that writes had an uploaded set, no catalog entry and a completion that binds exactly that manifest |
| Decisions.VerifiesExactly | billing_backup.go:509-545 | exactly when a verification is recorded, and when it repeats the one on record |
| Decisions.VerifyRecords | billing_backup.go:536-545 | the catalog gains exactly that entry and the set becomes verified |
| Backup.VerifyKeeps | billing_backup.go:509-545 | the catalog is exactly the verified sets |
| Backup.ProtectedPrefix | billing_backup.go:719-734 | the single maximum over verified high waters is the end of a verified prefix without holes |
| Recovery.SetRecoveryKeeps | billing_recovery.go:66-77 | raising the fence changes nothing the approver compares |
| Recovery.AdmitKeeps | billing_recovery.go:95-122 | admission lowers the fence and changes nothing else the approver compared |
| Recovery.AdmitsExactly | billing_recovery.go:95-122 | an approval is admitted if and only if it is valid, the fence is up, and it names exactly this store: environment, id, high water, floor, every operation and every catalog entry |
| Recovery.ApprovalExactly | billing_recovery.go:95-99 | valid exactly when a configured key signed it under its own name for a window of at most fifteen minutes that holds the present |
| Decisions.AdmissionRecorded | billing_recovery.go:111-117 | the approval that was admitted is on record |
| Staging.PreparedOpens | billing_recovery.go:131-207 | staging succeeds exactly for a valid snapshot with a generation left; the staged store opens through its manifest and not without it, fenced, passes the same audit and shows the audited state |
| Staging.StagedHolds | billing_recovery.go:131-207 | the staged store keeps every view of the accept log, and the reading it starts with stands until an admission |
| Operations.TransactKeeps | billing_lifecycle.go:113-157 | any operation in any reachable state keeps the invariant and takes no promise back; a refused one leaves no trace |
| Operations.EventKeeps | billing_inbox.go:157-172 | restarts, session changes, snapshot reads and cutovers do the same |
| Runs.HistoryKeeps | billing_lifecycle.go:113-157 | the invariant holds in every state of every interleaving from a new store |
| Runs.NothingTakenBack | billing_lifecycle.go:275-289 | between any two states head and floor only grow, the accept log is extended, terminal operations, catalog entries and defined receipt times stay as they are |
| Runs.FirstAnswerStands | billing_inbox.go:262-309 | an event with an accepted id is answered the same way in every later state, invalid, duplicate or conflict, and re-insertion changes no bucket |
| Receipts.DeletionJustified | billing_lifecycle.go:661-693 | every body ever deleted was deleted by a confirmed pending apply, inside a verified set, and the insert that accepted it, or the call that ended its migration, had a clock at least the retention period before |
| Runs.CapturesPartition | billing_backup.go:194-211 | in every reachable state at most one set is in flight, each captured sequence is in exactly one sealed, uploaded or verified set, and the floor is within the captured range |
| Runs.RetirementsPartition | billing_lifecycle.go:672-693 | in every reachable state each retired sequence is in exactly one completed operation and the hot events are exactly those after the floor |
| Runs.ReadingStandsIff | billing_recovery.go:66-129 | in every reachable fenced state with room for an event, the reading stands through every continuation without an admission if and only if the flag is up and no admission is still to clear it |
| Runs.UntangledHeld | billing_recovery.go:101-127 | if no fence was raised between the two sections of an admission, a raised fence always has its flag up and no admission pending |
| Runs.ReadingStands | billing_recovery.go:78-122 | in such a run, from a reading behind the fence to the admission nothing the approver compares changes, and an approval is admitted exactly when it is valid and was signed for the store as it was read |
| Runs.TangledRun | billing_recovery.go:101-127 | the concrete run from any state with a valid approval: admission, fence raised again, flag cleared, and an event accepted behind the raised fence |
| Service.DomainCommits | billing_lifecycle.go:115-152 | every write-set an operation decides on is one the storage can commit, journal and replay |
| Service.ActionKeeps | billing_compaction.go:364-812 | operations, compaction steps, crashes and reopens together keep the invariant of the accept log |
| Service.ServiceIsHistory | billing_compaction.go:364-812 | every run with the real compactor, crashes and reopens shows, state by state and in order, the nodes of one history of the domain machine |
| Service.NothingLost | billing_compaction.go:364-812 | across crashes, cutovers and reopens nothing accepted is lost and no promise is taken back |
| Service.ServedAnswer | billing_inbox.go:280-309 | the first answer to an id stands across compactions, crashes and reopens |
| Service.ServedOrigin | billing_lifecycle.go:275-289 | in the running service a receipt time is the clock of the insert or of the end of the migration, and no compaction, crash or reopen makes one |
| Service.ServedDeletion | billing_lifecycle.go:661-693 | no compaction, crash or reopen deletes a body; only a justified apply does, the retention period after the clock that dated the record |
| Service.ServedPages | billing_inbox.go:345-438 | pages polled from the running service, with compactions, crashes and reopens in between, concatenate to exactly the first k accepted records |
| Service.ServedLog | billing_inbox.go:79-172 | whenever the inbox is up, the open file carries every view of the whole accept log |
| Paging.GatherLoop | billing_inbox.go:377-419 | the page loop takes records until the limit, the horizon or the byte bound, and stops at the first unreadable body |
| Paging.PageServes | billing_inbox.go:345-438 | a page is a stretch of the accept log after its cursor, as long as its limit, its horizon and the byte bound let it be; it fails exactly at a retired body that is not cached and that it would need |
| Paging.PageDetermined | billing_inbox.go:377-419 | only one length is possible, and never together with a failure |
| Paging.RefusesExactly | billing_inbox.go:345-375 | a request is refused exactly for a limit out of range or a cursor that is not one of this store within what was accepted; without a cursor it starts at the beginning |
| Paging.PagesAddUp | billing_inbox.go:345-438 | following the cursor through any history, the successful pages concatenate to exactly the first k accepted records |
| Paging.HorizonStays | billing_inbox.go:372-423 | a horizon keeps the high water of its first page, every page in it advances, and its last page ends exactly there |
| Paging.CursorAccepted | billing_inbox.go:368-375 | a cursor once handed out is accepted by every later state |
| Archive.ValidateParts | billingarchive/archive.go:150-168 | the loop accepts exactly the well placed part lists, and its running total stays in range |
| Archive.Validate | billingarchive/archive.go:128-177 | accepts exactly the valid manifests |
| Archive.ValidManifestTiles | billingarchive/archive.go:128-177 | in a valid manifest each byte of each kind is in exactly one part, the snapshot ends exactly at its size, and no running total leaves the set bound or int64 |
| Archive.CompletionBindsScope | billingarchive/archive.go:217-262 | a completion vouches for one manifest only, and what the verifier signs is accepted |
| Packing.ChunksCut | billing_backup.go:307-319 | the snapshot is cut into exactly the estimated number of parts, which add up to its size |
| Packing.GroupedIsGreedy | billing_backup.go:384-394 | packing keeps every line whole and in order, and no part could have taken the first line of the next |
| Packing.PartsWithinEstimate | billing_backup.go:255-266 | greedy packing never makes more parts than the estimate |
| Capturer.SealSnapshot | billing_backup.go:307-319 | the snapshot loop seals consecutive parts, or fails when one seal fails |
| Capturer.PackRecords | billing_backup.go:321-394 | the record loop makes the greedy parts, the ordered bindings and the latest receipt of exactly the range, or nothing |
| Capturer.CaptureSet | billing_backup.go:191-400 | the manifest of a capture as a function of the snapshot it reads |
| CaptureValidity.CaptureValid | billing_backup.go:240-400 | once the estimate admits a capture and every record and seal succeeds, its manifest passes validation and lists at most the permitted parts, also when bbolt stores the events bucket inline and reports no leaf bytes for it |
| CaptureProgress.ReadsExactly | billing_backup.go:340-372 | the capture reads a record exactly when it is hot, from an allowed environment and carries a canonical usage event, and reads the accepted original with its trusted time |
| CaptureProgress.CapturesExactly | billing_backup.go:191-400 | unless encryption fails, a capture succeeds if and only if the store is ready, the estimate admits it and every record of the range can be exported and fits a part; its manifest describes store, range, time and bindings |
| Usage.CheckMeasurements | billingarchive/usage.go:82-89 | accepts exactly distinct, known and bounded measurements |
| Usage.SortedResult | billingarchive/usage.go:66 | measurements come out in metric order and are a permutation |
| Usage.OrderIrrelevant | billingarchive/usage.go:39-75 | the order in which a producer lists measurements never changes the binding |
| Usage.CanonicalStable | billingarchive/usage.go:44-69 | a canonical event is its own canonical form, with the same id |
| Usage.CanonicalExactly | billingarchive/usage.go:39-75 | a canonical form exists exactly when the trimmed, identified event is valid and its times and window survive the loss of precision; it changes nothing else |
| ExportAudit.ValidateExports | billing_export_audit.go:20-103 | the scanner loop decides exactly the declared acceptance |
| ExportAudit.AcceptedExactly | billing_export_audit.go:40-101 | an export is accepted if and only if the readable lines are the records of the range, with stored bytes, trusted times, and the manifest's bindings and latest receipt |
| ExportTheorems.AcceptedIsLog | billing_export_audit.go:55-101 | an accepted export decodes to exactly the accepted records from..through |
| ExportTheorems.OwnExportAccepted | billing_backup.go:340-396 | the export a capture writes for its own snapshot is accepted |
| Intervals.SortByFrom | billing_audit.go:178 | sorts by lower bound and is a permutation |
| Intervals.ContiguousPrefix | billing_audit.go:178-187 | returns the largest n with 1..n inside the union of the ranges |
| Intervals.TiledThrough | billing_audit.go:243-253 | accepts exactly the ranges that partition 1..n, and returns n |
| Audit.ForEach | billing_audit.go:86-96 | a scan accepts exactly when every row is good |
| Audit.CatalogRanges | billing_audit.go:149-177 | the collected ranges cover exactly what some catalog entry spans |
| Audit.TotalBytes | billing_audit.go:191-209 | in whatever order rows are visited, the sum is the cached total |
| Audit.Audit | billing_audit.go:28-269 | the loops decide exactly the declared audit |
| AuditTheorems.AuditExact | billing_audit.go:28-269 | in a reachable version-2 state the audit passes if and only if hot environments are allowed and no operation names a sequence beyond the head |
| AuditSoundness.AuditedIsImage | billing_audit.go:28-269 | any store that passes the audit, reached or not, is the image of one accept log: bindings, hot bodies, receipts, cache, archive and retirements all belong to it, provided deleted bodies were what their bindings say |
| AuditTheorems.AuditInductive | billing_audit.go:28-269 | from a passing state the next one passes exactly unless an insert had a foreign environment or an abort of an unseen operation went beyond the head |
| AuditTheorems.ForeignInsertFails | billing_inbox.go:262-339 | the concrete event that is accepted and makes the audit fail |
| AuditTheorems.UnseenAbortFails | billing_lifecycle.go:727-756 | the concrete abort that is stored and makes the audit fail |
| AuditTheorems.WorkerAgrees | billing_backup.go:719-734 | run on the same reachable store, the worker's maximum and the audit's sort-and-merge loop return the same number, the exact end of what is verified |
| Transactions.InsertInto | billing_inbox.go:275-334 | the insert closure decides what the specification says, and leaves its writes in the transaction |
| Transactions.MigrateInto | billing_lifecycle.go:195-258 | the migration closure with its backfill loop, read through its own writes, decides what the specification says |
| Transactions.Coverage | billing_lifecycle.go:578-603 | the coverage loop returns the first refusal in sequence order |
| Transactions.PlanInto | billing_lifecycle.go:533-570 | the plan closure decides what the specification says |
| Transactions.ApplyInto | billing_lifecycle.go:644-693 | the apply closure with its deletion loop decides what the specification says |
| Transactions.AbortInto | billing_lifecycle.go:708-757 | the abort closure decides what the specification says |
| Transactions.RehydrateInto | billing_backup.go:624-675 | the rehydration loop decides what the specification says |
| Transactions.Seek | billing_backup.go:682-685 | the cursor finds the next cached sequence |
| Transactions.EvictInto | billing_backup.go:677-699 | the eviction loop decides what the specification says |
| Transactions.SealInto | billing_backup.go:418-424 | the seal closure decides what the specification says |
| Transactions.VerifyInto | billing_backup.go:511-545 | the verification closure decides what the specification says |
| Transactions.AdmitInto | billing_recovery.go:95-122 | the admission closure decides what the specification says |
| Transactions.ProtectedHighWater | billing_backup.go:719-734 | the worker's loop returns the maximum high water of the completions that verify, and passes over the others |
| Transactions.CatalogVerifies | billing_backup.go:719-734 | on a reachable store it passes over none, so that maximum is over the whole catalog |
| Inbox.SettledIsTransaction | billing_lifecycle.go:115-157 | what a method leaves behind is one transaction of the state machine, and keeps its invariant |
| Inbox.BillingInbox.constructor | billing_inbox.go:157-161 | an opened inbox serves the stored database and starts recovering exactly when the durable fence is up |
| Inbox.BillingInbox.ClearSession | billing_inbox.go:162-171 | opening drops an interrupted compaction session through the gateway, and writes nothing otherwise |
| Inbox.BillingInbox.Commit | billing_lifecycle.go:115-152 | the commit leaves the specified database, or nothing when generations are used up |
| Inbox.BillingInbox.InsertEvent | billing_inbox.go:262-340 | the new state and answer of an insert, and the latch for every failure that is no verdict on the event |
| Inbox.BillingInbox.Page | billing_inbox.go:345-438 | the page, and the latch exactly when the store was found inconsistent |
| Inbox.BillingInbox.Migrate | billing_lifecycle.go:188-263 | the new state and answer of a migration call |
| Inbox.BillingInbox.PlanRetirement | billing_lifecycle.go:525-572 | the new state and answer of a plan |
| Inbox.BillingInbox.ApplyRetirement | billing_lifecycle.go:644-695 | the new state and answer of an apply, given the earlier reading and the authority's reply |
| Inbox.BillingInbox.AbortRetirementPlan | billing_lifecycle.go:708-758 | the new state and answer of an abort |
| Inbox.BillingInbox.VerifyCatalog | billing_backup.go:509-548 | the new state and answer of a verification |
| Inbox.BillingInbox.SealCapture | billing_backup.go:418-426 | the new state and answer of a seal |
| Inbox.BillingInbox.SaveCapture | billing_backup.go:98-106 | one capture record written through the gateway, without a readiness check |
| Inbox.BillingInbox.Rehydrate | billing_backup.go:624-676 | the new state and answer of a rehydrate |
| Inbox.BillingInbox.EvictCache | billing_backup.go:677-700 | the new state and answer of an eviction |
| Inbox.BillingInbox.SetRecoveryMode | billing_recovery.go:66-77 | the flag in memory goes up inside the closure, even when the commit of the durable fence fails |
| Inbox.BillingInbox.AdmitRecovery | billing_recovery.go:95-122 | the first section: the fence comes down in the transaction, the flag stays |
| Inbox.BillingInbox.ClearRecovering | billing_recovery.go:123-127 | the second section: the flag is cleared whatever the fence says |

## Left out

- JSON bytes, redaction and the flat envelope checks: an event carries the verdict and the length of its text; a stored body is that length plus a fixed envelope, an export line that plus a fixed overhead within the source's allowance.
- Names and digests of parts: a generated part name is its kind and ordinal; any other name is text.
- Encryption, compression and upload: a sealed part is a bounded ciphertext length or a failure, an upload a boolean.
- Free space, file permissions, inode and symlink checks, and bbolt's own page check: environment facts.
- Clock gates of the compactor (30 s catch-up, 750 ms gate) and cancelled contexts: an abort may happen at any step; cancellation between records of a loop is not modelled, since its transaction leaves no trace.
- The audit the compactor runs on its candidate: a failure there is one more reason to abort.
- The bound on the encoded manifest (4 MiB), the range and recovery proofs of the off-cluster verifier, and the flat fields of a recovery approval that Logger only checks for shape.
- Validation of the lifecycle configuration: the model takes a validated configuration that is fixed for the run; the proof of valid manifests states what it uses of it.
- The free text of capture errors, the worker status apart from its protected high water, Prometheus output, HTTP handlers and command-line wiring.
- Corrupted databases beyond the error a method returns: results are about reachable states.
- Ids of new sets are fresh: `Capture` draws sixteen random bytes and the model takes an id no set has.
- Sequence numbers stay below 2^64 - 1 in the loops that run to an inclusive upper bound.
- `ValidateBillingSnapshot` after its audit repeats checks the audit has made; only the audit is modelled.
- Gateway.MutationTx.Record: a missing bucket is a precondition, where the source would panic.
- Inbox.BillingInbox.SaveCapture: the reading of the capture list and the write are one step, since the capture lock spans both.
- Transactions.ProtectedHighWater: a catalog value that does not decode ends the source's scan; here it is passed over. No reachable store has one.
- CompactionSteps.StepKeeps: the gate also refuses while the inbox is recovering; the model lets it go on, which only adds runs.
- Usage.CheckMeasurements: a derived usage id stands for its truncated hash, so two different inputs never share one.
