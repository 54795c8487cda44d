/** `PrepareBillingSnapshotRecovery`: an audited snapshot becomes a store that opens fenced. */
module Staging {
  import opened Types
  import opened Store
  import opened Gateway
  import opened Replay
  import opened Archive
  import opened Directories
  import opened Invariant
  import opened Lifecycle
  import opened Recovery
  import opened Audit
  import opened Operations
  import opened Runs

  /** The audit of a snapshot takes its scope from the manifest. */
  function ScopedTo(cfg: Config, m: Manifest): Config { cfg.(environment := m.environment, sources := m.sources) }

  /** `ValidateBillingSnapshot`, without the digest of the file. */
  ghost predicate SnapshotValid(cfg: Config, m: Manifest, db: Database) {
    && ValidManifest(m) && BaseBuckets <= db.Keys && StoreId(db) == m.storeId && Head(db) == m.highWater
    && AuditOk(ScopedTo(cfg, m), db)
  }

  /** The offline writes to the staged file. */
  function Staged(db: Database): Database {
    ApplyOne(ApplyOne(ApplyOne(ApplyOne(db,
      Put(Meta, Field(MutationGeneration), Num(Generation(db) + 1))),
      Put(Meta, Field(RecoveryFence), Flag)),
      Put(Meta, Field(ManifestRequired), Flag)),
      Delete(Meta, Field(CompactionSession)))
  }

  /** The manifest written next to it: the file keeps its name, whatever its generation. */
  function StagedPointer(db: Database): Pointer {
    Pointer(Anchor, StoreId(db), StorageGenerationOf(db), Generation(db) + 1)
  }

  datatype StagedStore = StagedStore(db: Database, pointer: Pointer, reading: RecoveryState)

  ghost function Prepared(cfg: Config, m: Manifest, db: Database): Result<StagedStore> {
    if !SnapshotValid(cfg, m, db) || Generation(db) >= MAX_UINT64 then Err(Unavailable)
    else Ok(StagedStore(Staged(db), StagedPointer(db), ReadState(ScopedTo(cfg, m), Staged(db))))
  }

  // ---- what the writes change ------------------------------------------------------------------------

  const StagedKeys: set<MetaField> := {MutationGeneration, RecoveryFence, ManifestRequired, CompactionSession}

  /** `d` is `db` a generation later, fenced, and without a session. */
  ghost predicate FencedCopy(d: Database, db: Database) {
    && d.Keys == db.Keys && (forall b :: b != Meta ==> TableOf(d, b) == TableOf(db, b))
    && (forall f :: f !in StagedKeys ==> Get(d, Meta, Field(f)) == Get(db, Meta, Field(f)))
    && Get(d, Meta, Field(MutationGeneration)) == Some(Num(Generation(db) + 1))
    && Get(d, Meta, Field(ManifestRequired)) == Some(Flag) && Fenced(d) && !HasSession(d)
    && (MetaRowsOk(Rows(db, Meta)) ==> MetaRowsOk(Rows(d, Meta)))
  }

  lemma StagedFields(db: Database)
    requires Meta in db
    ensures var d := Staged(db);
      && d.Keys == db.Keys && (forall b :: b != Meta ==> TableOf(d, b) == TableOf(db, b))
      && Rows(d, Meta) == Rows(db, Meta)[Field(MutationGeneration) := Num(Generation(db) + 1)][Field(RecoveryFence) := Flag]
                          [Field(ManifestRequired) := Flag] - {Field(CompactionSession)}
  {}

  lemma StagedCopy(db: Database)
    requires Meta in db
    ensures FencedCopy(Staged(db), db)
  {
    hide Staged;
    StagedFields(db);
  }

  lemma CopyReadings(d: Database, db: Database)
    requires FencedCopy(d, db)
    ensures EraOf(d) == EraOf(db) && StoreId(d) == StoreId(db) && Floor(d) == Floor(db) && Head(d) == Head(db)
    ensures AgeFloor(d) == AgeFloor(db) && Generation(d) == Generation(db) + 1
    ensures forall f :: f !in StagedKeys ==> MetaNum(d, f) == MetaNum(db, f)
    ensures forall b :: b != Meta ==> Rows(d, b) == Rows(db, b)
    ensures StorageGenerationOf(d) == StorageGenerationOf(db)
  {
    hide MetaRowsOk;
    assert Get(d, Meta, Field(SchemaVersion)) == Get(db, Meta, Field(SchemaVersion));
  }

  // ---- the staged store passes the audit ---------------------------------------------------------------

  lemma CopyMeta(d: Database, db: Database)
    requires FencedCopy(d, db) && MetaAudit(db)
    ensures MetaAudit(d)
  {
    hide MetaRowsOk;
    CopyReadings(d, db);
    forall f | f in {LegacyThrough, BackfilledThrough, ArchiveFloor, CapturedThrough, CacheBytes}
      ensures Get(d, Meta, Field(f)) == Get(db, Meta, Field(f)) {}
    assert Get(d, Meta, Field(LegacyAgeFloor)) == Get(db, Meta, Field(LegacyAgeFloor));
  }

  lemma CopySequences(cfg: Config, d: Database, db: Database)
    requires FencedCopy(d, db) && SequencesAudit(cfg, db)
    ensures SequencesAudit(cfg, d)
  {
    hide MetaRowsOk, FencedCopy;
    CopyReadings(d, db);
    ReceiptFrame(d, db);
    SameTable(d, db, ReceiptIds);
    SameTable(d, db, Ids);
    SameTable(d, db, Events);
    forall n | 1 <= n <= Head(d) ensures SequenceGood(cfg, d, n) { assert SequenceGood(cfg, db, n); }
  }

  lemma SameTable(d: Database, db: Database, b: BucketName)
    requires Rows(d, b) == Rows(db, b)
    ensures forall k :: Get(d, b, k) == Get(db, b, k)
  {}

  lemma CopyRows(cfg: Config, d: Database, db: Database)
    requires FencedCopy(d, db)
    requires IdsAudit(db) && EventsAudit(db) && CatalogAudit(cfg, db) && CacheAudit(db) && OperationsAudit(cfg, db)
    ensures IdsAudit(d) && EventsAudit(d) && CatalogAudit(cfg, d) && CacheAudit(d) && OperationsAudit(cfg, d)
  {
    hide FencedCopy, IdGood, EntryGood, OperationGood, CatalogCovers, CompletedTile, CacheAudit, Rows, Head, Floor,
         StoreId, SequenceKey;
    CopyReadings(d, db);
    CopyCache(d, db);
  }

  lemma CopyCache(d: Database, db: Database)
    requires FencedCopy(d, db) && CacheAudit(db)
    ensures CacheAudit(d)
  {
    hide FencedCopy, CachedLength, Rows, Floor, MetaNum;
    CopyReadings(d, db);
    SameTable(d, db, Ids);
    CopiedBytes(d, db);
  }

  lemma CopiedBytes(d: Database, db: Database)
    requires FencedCopy(d, db)
    ensures MetaNum(d, CacheBytes) == MetaNum(db, CacheBytes)
  {
    hide MetaRowsOk;
  }

  lemma JournalGrows(rows: Rowset, g: nat)
    requires JournalWithin(rows, g)
    ensures JournalWithin(rows, g + 1)
  {}

  lemma CopyAudited(cfg: Config, d: Database, db: Database)
    requires FencedCopy(d, db) && AuditOk(cfg, db)
    ensures AuditOk(cfg, d)
  {
    hide FencedCopy, MetaAudit, IdsAudit, SequencesAudit, EventsAudit, CatalogAudit, CacheAudit, OperationsAudit,
         ReceiptsAudit, JournalWithin;
    CopyReadings(d, db);
    CopyMeta(d, db);
    CopySequences(cfg, d, db);
    CopyRows(cfg, d, db);
    JournalGrows(Rows(db, MutationJournal), Generation(db));
  }

  // ---- and keeps every view of the log -----------------------------------------------------------------

  lemma CopySchema(d: Database, db: Database)
    requires FencedCopy(d, db) && SchemaOk(db)
    ensures SchemaOk(d)
  {
    hide MetaNum, StoreId, EraOf, AgeFloor, MetaRowsOk, Rows, EraOk;
    CopyReadings(d, db);
    JournalGrows(Rows(db, MutationJournal), Generation(db));
    forall f | f in {LegacyThrough, BackfilledThrough, LegacyAgeFloor, Identity, SchemaVersion}
      ensures Get(d, Meta, Field(f)) == Get(db, Meta, Field(f)) {}
  }

  lemma CopyKeeps(cfg: Config, d: Database, db: Database, log: Log)
    requires FencedCopy(d, db) && Inv(cfg, db, log)
    ensures Inv(cfg, d, log)
  {
    hide FencedCopy, SchemaOk, LedgerOk, ProtocolOk;
    CopyReadings(d, db);
    CopySchema(d, db);
    CopyLedger(d, db, log);
    CopyProtocol(cfg, d, db);
  }

  lemma CopyLedger(d: Database, db: Database, log: Log)
    requires FencedCopy(d, db) && LedgerOk(db, log)
    ensures LedgerOk(d, log)
  {
    hide FencedCopy, IdsOk, HotOk, ReceiptIdsOk, ReceiptTimesOk, CacheOk;
    CopyReadings(d, db);
    CopiedBytes(d, db);
  }

  lemma CopyProtocol(cfg: Config, d: Database, db: Database)
    requires FencedCopy(d, db) && ProtocolOk(cfg, db)
    ensures ProtocolOk(cfg, d)
  {
    hide FencedCopy, CapturesOk, CatalogOk, OperationsOk;
    CopyReadings(d, db);
    CopiedFrontier(d, db);
  }

  lemma CopiedFrontier(d: Database, db: Database)
    requires FencedCopy(d, db)
    ensures MetaNum(d, CapturedThrough) == MetaNum(db, CapturedThrough)
  {
    hide MetaRowsOk;
  }

  lemma CopyReading(cfg: Config, d: Database, db: Database)
    requires FencedCopy(d, db)
    ensures SameReading(ReadState(cfg, d), ReadState(cfg, db))
  {
    hide FencedCopy;
    CopyReadings(d, db);
  }

  /** The store opens with the manifest in place, and not without it. */
  predicate OpensOnlyThrough(d: Database, pointer: Pointer) {
    var files := map[0 := DbFile(d), 1 := ManifestFile(pointer)];
    Opens(map[Anchor := 0, ActiveManifest := 1], files) && !Opens(map[Anchor := 0], files)
  }

  lemma CopyOpens(d: Database, db: Database)
    requires FencedCopy(d, db)
    ensures OpensOnlyThrough(d, StagedPointer(db))
  {
    hide MetaRowsOk;
    CopyReadings(d, db);
  }

  // ---- the main result -------------------------------------------------------------------------------------

  /** Staging succeeds exactly for a valid snapshot with a generation left. The staged store
      then opens through its manifest and not without it, starts fenced, passes the same
      audit, and shows the approver exactly the state of the audited snapshot. */
  lemma PreparedOpens(cfg: Config, m: Manifest, db: Database)
    ensures Prepared(cfg, m, db).Ok? <==> SnapshotValid(cfg, m, db) && Generation(db) < MAX_UINT64
    ensures Prepared(cfg, m, db).Ok? ==>
      var st := Prepared(cfg, m, db).value;
      && OpensOnlyThrough(st.db, st.pointer) && SnapshotValid(cfg, m, st.db)
      && st.reading.fenced && SameReading(st.reading, ReadState(ScopedTo(cfg, m), db))
  {
    hide Staged, FencedCopy, AuditOk, ReadState, OpensOnlyThrough, StagedPointer;
    if Prepared(cfg, m, db).Ok? {
      StagedCopy(db);
      CopyAudited(ScopedTo(cfg, m), Staged(db), db);
      CopyReadings(Staged(db), db);
      CopyReading(ScopedTo(cfg, m), Staged(db), db);
      CopyOpens(Staged(db), db);
      CopyShape(ScopedTo(cfg, m), Staged(db), db);
    }
  }

  lemma CopyShape(cfg: Config, d: Database, db: Database)
    requires FencedCopy(d, db)
    ensures d.Keys == db.Keys && ReadState(cfg, d).fenced
  {}

  /** Opened, the staged snapshot is a state of the machine with the accept log of the store
      it was taken from; its fence is held, so its reading stands until the admission. */
  lemma StagedHolds(cfg: Config, db: Database, log: Log)
    requires Inv(cfg, db, log)
    ensures var n := Node(Staged(db), log, Fenced(Staged(db)), 0, NoRun); NodeInv(cfg, n) && ReadingHolds(cfg, n)
  {
    hide Staged, FencedCopy, Next, ReadState, Views, Fenced;
    var n := Node(Staged(db), log, Fenced(Staged(db)), 0, NoRun);
    CopyMetaExists(cfg, db, log);
    StagedCopy(db);
    CopyKeeps(cfg, Staged(db), db, log);
    CopyFenced(Staged(db), db);
    forall ss: seq<Node>, es: seq<Event> | Runs.Continues(cfg, n, ss, es) ensures ReadState(cfg, ss[|es|].db) == ReadState(cfg, n.db) {
      HeldStands(cfg, n, ss, es, |es|);
    }
  }

  lemma CopyFenced(d: Database, db: Database)
    requires FencedCopy(d, db)
    ensures Fenced(d)
  {}

  lemma CopyMetaExists(cfg: Config, db: Database, log: Log)
    requires Inv(cfg, db, log)
    ensures Meta in db
  {
    hide LedgerOk, ProtocolOk;
  }
}
