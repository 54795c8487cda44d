/** The inductive invariant of the inbox database. Its specification is the accept log: an
    append-only sequence of records, record i+1 at index i. The database spreads that log
    over hot events, bindings, receipts, a bounded cache and verified archive sets. */
module Invariant {
  import opened Types
  import opened Store
  import opened Gateway
  import opened Replay
  import opened Archive

  type Log = seq<BillingRecord>
  type Rowset = map<Key, Value>

  // ---- the migration era --------------------------------------------------------------------

  datatype Era = Era(version: Version, legacy: nat, backfilled: nat) {
    /** Record `n` has a self-contained binding, a receipt id and a receipt time. */
    predicate Full(n: nat) {
      version == V2 || (version == Migrating && (n <= backfilled || n > legacy))
    }
  }

  function VersionOf(db: Database): Version {
    match Get(db, Meta, Field(SchemaVersion)) case Some(Tag(v)) => v case _ => V1
  }

  function EraOf(db: Database): Era {
    Era(VersionOf(db), MetaNum(db, LegacyThrough), MetaNum(db, BackfilledThrough))
  }

  function AgeFloor(db: Database): nat {
    match Get(db, Meta, Field(LegacyAgeFloor)) case Some(Clock(t)) => t case _ => 0
  }

  predicate EraOk(era: Era, head: nat, ageFloor: nat) {
    match era.version
    case V1 => era.legacy == 0 && era.backfilled == 0
    case Migrating => era.backfilled <= era.legacy <= head
    case V2 => era.backfilled == era.legacy <= head && ageFloor > 0
  }

  // ---- the log and its views -------------------------------------------------------------------

  predicate LogOk(log: Log) { forall i :: 0 <= i < |log| ==> Decodes(log[i], i + 1) }

  function IdValue(r: BillingRecord, era: Era): Value {
    if era.Full(r.sequence) then Bound(BindingOf(r)) else Num(r.sequence)
  }

  function SequenceOfId(v: Value): nat {
    match v case Num(n) => n case Bound(b) => b.sequence case _ => 0
  }

  /** The ids bucket is the inverse of the log. */
  predicate IdKnown(ids: Rowset, k: Key, log: Log) requires k in ids {
    var n := SequenceOfId(ids[k]);
    k.Name? && 1 <= n <= |log| && log[n - 1].event.id == k.id
  }

  predicate IdsOk(ids: Rowset, log: Log, era: Era) {
    && (forall i :: 0 <= i < |log| ==>
          Name(log[i].event.id) in ids && ids[Name(log[i].event.id)] == IdValue(log[i], era))
    && (forall k {:trigger IdKnown(ids, k, log)} :: k in ids ==> IdKnown(ids, k, log))
  }

  /** Hot events are exactly the sequences above the floor, with their original bodies. */
  predicate HotOk(events: Rowset, log: Log, floor: nat) {
    && (forall k <- events :: k.Seq? && floor < k.n <= |log|)
    && (forall n :: floor < n <= |log| ==> Seq(n) in events && events[Seq(n)] == Body(log[n - 1]))
  }

  predicate ReceiptIdsOk(receiptIds: Rowset, log: Log, era: Era) {
    && (forall k <- receiptIds :: k.Seq? && 1 <= k.n <= |log| && era.Full(k.n))
    && (forall n :: 1 <= n <= |log| && era.Full(n) ==>
          Seq(n) in receiptIds && receiptIds[Seq(n)] == Text(log[n - 1].event.id))
  }

  /** Legacy records carry the mark of the migration, all others the clock of their insert. */
  predicate TimeValueOk(v: Value, n: nat, legacy: nat) {
    if n <= legacy then v.LegacyClock? else v.Clock? && v.t > 0
  }

  predicate ReceiptTimesOk(times: Rowset, head: nat, era: Era) {
    && (forall k <- times :: k.Seq? && 1 <= k.n <= head && era.Full(k.n))
    && (forall n :: 1 <= n <= head && era.Full(n) ==>
          Seq(n) in times && TimeValueOk(times[Seq(n)], n, era.legacy))
  }

  function BodyLength(rows: Rowset, k: Key): nat {
    if k in rows && rows[k].Body? then rows[k].r.Length() else 0
  }

  function CachedLength(cache: Rowset, high: nat): nat {
    if high == 0 then 0 else CachedLength(cache, high - 1) + BodyLength(cache, Seq(high))
  }

  /** Cached bodies are retired originals, and the byte counter is their total. */
  predicate CacheOk(cache: Rowset, log: Log, floor: nat, bytes: nat) {
    && floor <= |log|
    && (forall k <- cache :: k.Seq? && 1 <= k.n <= floor && cache[k] == Body(log[k.n - 1]))
    && bytes == CachedLength(cache, floor)
  }

  // ---- captures and catalog ---------------------------------------------------------------------

  predicate Held(st: CaptureState) { st == Sealed || st == Uploaded || st == Verified }
  predicate Active(st: CaptureState) { st == Capturing || st == Sealed || st == Uploaded }

  predicate HasManifest(captures: Rowset, k: Key) {
    k in captures && captures[k].Capture? && Held(captures[k].p.state) && captures[k].p.manifest.Some?
  }

  function ManifestAt(captures: Rowset, k: Key): Manifest requires HasManifest(captures, k) {
    captures[k].p.manifest.value
  }

  predicate CaptureHolds(captures: Rowset, k: Key, n: nat) {
    HasManifest(captures, k) && ManifestAt(captures, k).Spans(n)
  }

  predicate CaptureShape(cfg: Config, captures: Rowset, k: Key, storeId: string, captured: nat)
    requires k in captures
  {
    && k.Name? && captures[k].Capture? && captures[k].p.setId == k.id
    && (captures[k].p.state == Capturing || captures[k].p.state == Abandoned ==> captures[k].p.manifest == None)
    && (Held(captures[k].p.state) ==>
          && HasManifest(captures, k)
          && (var m := ManifestAt(captures, k);
              && ValidManifest(m) && m.setId == k.id && m.storeId == storeId
              && m.environment == cfg.environment
              && m.highWater <= captured && (m.recordCount > 0 ==> m.through == m.highWater)))
  }

  /** An unverified sealed set ends at the captured frontier, above every verified one. */
  predicate Frontier(captures: Rowset, k: Key, captured: nat) requires HasManifest(captures, k) {
    captures[k].p.state != Verified ==>
      && ManifestAt(captures, k).highWater == captured
      && (ManifestAt(captures, k).recordCount > 0 ==>
            forall j <- captures :: HasManifest(captures, j) && j != k ==>
              ManifestAt(captures, j).highWater < ManifestAt(captures, k).from)
  }

  ghost predicate SomeCapture(captures: Rowset, n: nat) { exists k <- captures :: CaptureHolds(captures, k, n) }

  /** One set at a time is in flight, and the sealed ranges partition 1..captured. */
  ghost predicate CapturesOk(cfg: Config, captures: Rowset, storeId: string, captured: nat) {
    && (forall k <- captures :: CaptureShape(cfg, captures, k, storeId, captured))
    && (forall j <- captures, k <- captures ::
          captures[j].Capture? && captures[k].Capture? && Active(captures[j].p.state) && Active(captures[k].p.state)
          ==> j == k)
    && (forall k <- captures :: HasManifest(captures, k) ==> Frontier(captures, k, captured))
    && (forall n: nat :: SomeCapture(captures, n) <==> 1 <= n <= captured)
    && (forall n: nat, j, k :: CaptureHolds(captures, j, n) && CaptureHolds(captures, k, n) ==> j == k)
  }

  predicate CatalogEntryOk(cfg: Config, catalog: Rowset, captures: Rowset, k: Key) requires k in catalog {
    && k.Name? && catalog[k].Entry?
    && (var c := catalog[k].c;
        && CompletionOk(c.completion, c.manifest, c.manifestBytes, cfg.keys)
        && k in captures && captures[k] == Capture(CaptureStatus(k.id, Verified, Some(c.manifest))))
  }

  predicate CatalogHolds(catalog: Rowset, k: Key, n: nat) {
    k in catalog && catalog[k].Entry? && catalog[k].c.manifest.Spans(n)
  }

  ghost predicate SomeCatalog(catalog: Rowset, n: nat) { exists k <- catalog :: CatalogHolds(catalog, k, n) }

  /** The catalog is the verified captures, and it covers everything retired. */
  ghost predicate CatalogOk(cfg: Config, catalog: Rowset, captures: Rowset, floor: nat) {
    && (forall k <- catalog :: CatalogEntryOk(cfg, catalog, captures, k))
    && (forall k <- captures :: captures[k].Capture? && captures[k].p.state == Verified ==> k in catalog)
    && (forall n: nat :: 1 <= n <= floor ==> SomeCatalog(catalog, n))
  }

  // ---- retirement operations ---------------------------------------------------------------------

  predicate OperationOk(cfg: Config, k: Key, v: Value, storeId: string, floor: nat) {
    && k.Name? && v.Operation?
    && (var st := v.o;
        && st.operationId == k.id && st.environment == cfg.environment && st.storeId == storeId
        && LowerHex(st.planDigest, 32) && 0 < st.from <= st.through && st.through - st.from < 1000
        && (st.state == Pending ==> st.receipt == Unsealed && st.completedAt == 0)
        && (st.Terminal() ==> st == SealStatus(st) && st.completedAt > 0 && st.retiredThrough <= floor)
        && (st.state == Completed ==> st.retiredThrough == st.through))
  }

  predicate OperationHolds(operations: Rowset, k: Key, n: nat) {
    k in operations && operations[k].Operation? && operations[k].o.Spans(n)
  }

  ghost predicate SomeOperation(operations: Rowset, n: nat) {
    exists k <- operations :: OperationHolds(operations, k, n)
  }

  /** Completed retirements partition 1..floor. */
  ghost predicate OperationsOk(cfg: Config, operations: Rowset, storeId: string, floor: nat) {
    && (forall k <- operations :: OperationOk(cfg, k, operations[k], storeId, floor))
    && (forall n: nat :: SomeOperation(operations, n) <==> 1 <= n <= floor)
    && (forall n: nat, j, k :: OperationHolds(operations, j, n) && OperationHolds(operations, k, n) ==> j == k)
  }

  // ---- meta and journal ----------------------------------------------------------------------------

  predicate MetaValueOk(f: MetaField, v: Value) {
    match f
    case Identity | CompactionSession | StorageGeneration => v.Text?
    case SchemaVersion => v.Tag?
    case MutationGeneration | LegacyThrough | BackfilledThrough | ArchiveFloor | CapturedThrough | CacheBytes => v.Num?
    case LegacyAgeFloor => v.Clock?
    case RecoveryFence | ManifestRequired => v.Flag?
    case RecoveryAdmission => v.Approval?
  }

  predicate MetaRowsOk(meta: Rowset) {
    && (forall k <- meta :: k.Field? && MetaValueOk(k.f, meta[k]))
    && Field(Identity) in meta && Field(SchemaVersion) in meta
  }

  const BaseBuckets: set<BucketName> := {Meta, Events, Ids}
  const AllBuckets: set<BucketName> :=
    {Meta, Events, Ids, ReceiptTimes, ReceiptIds, Catalog, ArchiveCache, Operations, MutationJournal, Captures}

  predicate BucketsOk(db: Database) {
    if VersionOf(db) == V1 then db.Keys == BaseBuckets else db.Keys == AllBuckets
  }

  /** Before version 2 nothing has been captured, retired or cached. */
  predicate QuietBeforeV2(db: Database) {
    VersionOf(db) != V2 ==>
      && Floor(db) == 0 && MetaNum(db, CapturedThrough) == 0 && MetaNum(db, CacheBytes) == 0
      && !HasSession(db)
      && Rows(db, Catalog) == map[] && Rows(db, Operations) == map[] && Rows(db, ArchiveCache) == map[]
  }

  predicate MetaOk(db: Database) {
    && MetaRowsOk(Rows(db, Meta))
    && (VersionOf(db) != V1 ==> Field(LegacyThrough) in Rows(db, Meta))
    && (VersionOf(db) == V2 ==> Field(BackfilledThrough) in Rows(db, Meta))
    && (VersionOf(db) != V2 ==> Field(LegacyAgeFloor) !in Rows(db, Meta))
  }

  /** The views that carry the log. */
  predicate LedgerOk(db: Database, log: Log) { LedgerIn(db, log, EraOf(db)) }

  predicate LedgerIn(db: Database, log: Log, era: Era) {
    && LogOk(log) && |log| == Head(db)
    && IdsOk(Rows(db, Ids), log, era)
    && HotOk(Rows(db, Events), log, Floor(db))
    && ReceiptIdsOk(Rows(db, ReceiptIds), log, era)
    && ReceiptTimesOk(Rows(db, ReceiptTimes), |log|, era)
    && CacheOk(Rows(db, ArchiveCache), log, Floor(db), MetaNum(db, CacheBytes))
  }

  /** The archive and retirement protocols. */
  ghost predicate ProtocolOk(cfg: Config, db: Database) {
    && CapturesOk(cfg, Rows(db, Captures), StoreId(db), MetaNum(db, CapturedThrough))
    && CatalogOk(cfg, Rows(db, Catalog), Rows(db, Captures), Floor(db))
    && OperationsOk(cfg, Rows(db, Operations), StoreId(db), Floor(db))
    && Floor(db) <= MetaNum(db, CapturedThrough) <= Head(db)
  }

  predicate SchemaOk(db: Database) {
    && BucketsOk(db) && MetaOk(db) && QuietBeforeV2(db)
    && EraOk(EraOf(db), Head(db), AgeFloor(db))
    && JournalWithin(Rows(db, MutationJournal), Generation(db))
  }

  ghost predicate Views(cfg: Config, db: Database, log: Log) {
    SchemaOk(db) && LedgerOk(db, log) && ProtocolOk(cfg, db)
  }

  ghost predicate Inv(cfg: Config, db: Database, log: Log) {
    Views(cfg, db, log) && (VersionOf(db) == V2 ==> Generation(db) > 0)
  }

  const StorageKeys: set<MetaField> := {MutationGeneration, CompactionSession, StorageGeneration, ManifestRequired}

  /** `d` differs from `e` at most in the journal and the keys of the storage file. */
  ghost predicate SameViews(d: Database, e: Database) {
    && d.Keys == e.Keys
    && (forall b :: b != Meta && b != MutationJournal ==> TableOf(d, b) == TableOf(e, b))
    && (forall f :: f !in StorageKeys ==> Get(d, Meta, Field(f)) == Get(e, Meta, Field(f)))
    && (HasSession(d) ==> HasSession(e) || VersionOf(e) == V2)
  }

  /** What is read from the fields outside `except`. */
  lemma MetaRead(d: Database, db: Database, except: set<MetaField>)
    requires forall f :: f !in except ==> Get(d, Meta, Field(f)) == Get(db, Meta, Field(f))
    ensures SchemaVersion !in except ==> VersionOf(d) == VersionOf(db)
    ensures LegacyAgeFloor !in except ==> AgeFloor(d) == AgeFloor(db)
    ensures Identity !in except ==> StoreId(d) == StoreId(db)
    ensures CompactionSession !in except ==> HasSession(d) == HasSession(db)
    ensures forall f :: f !in except ==> MetaNum(d, f) == MetaNum(db, f)
  {
    hide TableOf;
    assert SchemaVersion !in except ==> Get(d, Meta, Field(SchemaVersion)) == Get(db, Meta, Field(SchemaVersion));
    assert CompactionSession !in except ==> Get(d, Meta, Field(CompactionSession)) == Get(db, Meta, Field(CompactionSession));
  }

  lemma SameReadings(d: Database, e: Database)
    requires SameViews(d, e)
    ensures EraOf(d) == EraOf(e) && StoreId(d) == StoreId(e) && Floor(d) == Floor(e) && Head(d) == Head(e)
    ensures AgeFloor(d) == AgeFloor(e)
    ensures MetaNum(d, CapturedThrough) == MetaNum(e, CapturedThrough)
    ensures MetaNum(d, CacheBytes) == MetaNum(e, CacheBytes)
    ensures Fenced(d) == Fenced(e)
    ensures forall b :: b != Meta && b != MutationJournal ==> Rows(d, b) == Rows(e, b)
  {
    assert Get(d, Meta, Field(SchemaVersion)) == Get(e, Meta, Field(SchemaVersion));
    assert Get(d, Meta, Field(LegacyThrough)) == Get(e, Meta, Field(LegacyThrough));
    assert Get(d, Meta, Field(BackfilledThrough)) == Get(e, Meta, Field(BackfilledThrough));
  }

  lemma LedgerFrame(d: Database, e: Database, log: Log)
    requires SameViews(d, e) && LedgerOk(e, log)
    ensures LedgerOk(d, log)
  {
    SameReadings(d, e);
  }

  lemma ProtocolFrame(cfg: Config, d: Database, e: Database)
    requires SameViews(d, e) && ProtocolOk(cfg, e)
    ensures ProtocolOk(cfg, d)
  {
    SameReadings(d, e);
  }

  lemma SchemaFrame(d: Database, e: Database)
    requires SameViews(d, e) && SchemaOk(e)
    requires MetaRowsOk(Rows(d, Meta)) && JournalWithin(Rows(d, MutationJournal), Generation(d))
    ensures SchemaOk(d)
  {
    hide MetaRowsOk, MetaNum, Rows, Floor, EraOk, StoreId;
    SameReadings(d, e);
    assert Get(d, Meta, Field(LegacyThrough)) == Get(e, Meta, Field(LegacyThrough));
    assert Get(d, Meta, Field(BackfilledThrough)) == Get(e, Meta, Field(BackfilledThrough));
  }

  lemma CommitSameViews(db: Database, ws: seq<Mutation>, overflow: bool)
    requires Meta in db && (HasSession(db) ==> MutationJournal in db) && ws != [] && DomainWrites(ws)
    ensures SameViews(Committed(db, ws, overflow), ApplyAll(db, ws))
  {
    hide DomainWrites, Committed;
    CommitEffect(db, ws, overflow);
    DomainFrame(db, ws);
    assert Get(ApplyAll(db, ws), Meta, Field(CompactionSession)) == Get(db, Meta, Field(CompactionSession));
  }

  /** Nothing but the bucket `name`, the journal and the keys of the storage file differs. */
  ghost predicate Untouched(d: Database, db: Database, name: BucketName) {
    && (forall b :: b != name && b != Meta && b != MutationJournal ==> Rows(d, b) == Rows(db, b)) && Head(d) == Head(db)
    && (forall f :: f !in StorageKeys && f != CapturedThrough ==> Get(d, Meta, Field(f)) == Get(db, Meta, Field(f)))
    && MetaNum(d, CapturedThrough) == MetaNum(db, CapturedThrough)
  }

  lemma UntouchedCommit(db: Database, ws: seq<Mutation>, overflow: bool, name: BucketName)
    requires Meta in db && (HasSession(db) ==> MutationJournal in db) && ws != [] && DomainWrites(ws)
    requires Untouched(ApplyAll(db, ws), db, name)
    ensures Untouched(Committed(db, ws, overflow), db, name)
  {
    hide Committed, ApplyAll, DomainWrites;
    CommitSameViews(db, ws, overflow);
    SameReadings(Committed(db, ws, overflow), ApplyAll(db, ws));
  }

  lemma CommittedMetaRows(db: Database, ws: seq<Mutation>, overflow: bool)
    requires Meta in db && ws != [] && DomainWrites(ws)
    ensures var e := ApplyAll(db, ws);
      var sealing := Rows(e, Meta)[Field(MutationGeneration) := Num(Generation(e) + 1)];
      var d := Rows(Committed(db, ws, overflow), Meta);
      d == sealing || d == sealing - {Field(CompactionSession)}
  {
    hide ApplyAll, DomainWrites, Committed;
    ApplyKeepsBuckets(db, ws);
    CommittedIsSealed(db, ws, overflow);
    var e := ApplyAll(db, ws);
    ApplySnoc(db, ws, Put(Meta, Field(MutationGeneration), Num(Generation(e) + 1)));
    var s := SealedDb(db, ws);
    assert s == ApplyOne(e, Put(Meta, Field(MutationGeneration), Num(Generation(e) + 1)));
  }

  lemma CommittedMeta(db: Database, ws: seq<Mutation>, overflow: bool)
    requires Meta in db && ws != [] && DomainWrites(ws)
    requires MetaRowsOk(Rows(ApplyAll(db, ws), Meta))
    ensures MetaRowsOk(Rows(Committed(db, ws, overflow), Meta))
  {
    hide Committed, ApplyAll, DomainWrites;
    CommittedMetaRows(db, ws, overflow);
  }

  lemma CommittedJournal(db: Database, ws: seq<Mutation>, overflow: bool)
    requires Meta in db && (HasSession(db) ==> MutationJournal in db) && ws != [] && DomainWrites(ws)
    requires HasSession(db) ==> forall w <- ws :: Replayable(w)
    requires JournalWithin(Rows(db, MutationJournal), Generation(db))
    ensures JournalWithin(Rows(Committed(db, ws, overflow), MutationJournal), Generation(Committed(db, ws, overflow)))
    ensures Generation(Committed(db, ws, overflow)) == Generation(db) + 1
  {
    hide Get, Committed;
    CommitEffect(db, ws, overflow);
    if HasSession(db) { assert forall w <- Sealing(db, ws) :: w.bucket != MutationJournal; }
  }

  /** The gateway adds a generation and a journal entry to what the closure did, and no view
      depends on either. */
  lemma GatewayKeeps(cfg: Config, db: Database, ws: seq<Mutation>, overflow: bool, log: Log)
    requires SchemaOk(db) && ws != [] && DomainWrites(ws)
    requires HasSession(db) ==> forall w <- ws :: Replayable(w)
    requires Views(cfg, ApplyAll(db, ws), log)
    ensures Inv(cfg, Committed(db, ws, overflow), log)
  {
    var d, e := Committed(db, ws, overflow), ApplyAll(db, ws);
    assert Meta in db && (HasSession(db) ==> MutationJournal in db);
    CommitSameViews(db, ws, overflow);
    CommittedMeta(db, ws, overflow);
    CommittedJournal(db, ws, overflow);
    LedgerFrame(d, e, log);
    ProtocolFrame(cfg, d, e);
    SchemaFrame(d, e);
  }

  // ---- frames for single operations -----------------------------------------------------------------

  predicate SameTables(d: Database, db: Database, names: set<BucketName>) {
    d.Keys == db.Keys && forall b <- names :: TableOf(d, b) == TableOf(db, b)
  }

  lemma SameMeta(d: Database, db: Database)
    requires TableOf(d, Meta) == TableOf(db, Meta)
    ensures EraOf(d) == EraOf(db) && VersionOf(d) == VersionOf(db) && AgeFloor(d) == AgeFloor(db)
    ensures StoreId(d) == StoreId(db) && Floor(d) == Floor(db) && Generation(d) == Generation(db)
    ensures forall f :: MetaNum(d, f) == MetaNum(db, f)
    ensures HasSession(d) == HasSession(db) && Rows(d, Meta) == Rows(db, Meta)
  {}

  lemma SchemaSame(d: Database, db: Database)
    requires SchemaOk(db) && SameTables(d, db, {Meta, MutationJournal}) && Head(d) >= Head(db)
    requires VersionOf(db) == V2 || SameTables(d, db, {Catalog, Operations, ArchiveCache})
    ensures SchemaOk(d)
  {
    SameMeta(d, db);
    assert VersionOf(db) != V2 ==> TableOf(d, Catalog) == TableOf(db, Catalog);
  }

  lemma ProtocolSame(cfg: Config, d: Database, db: Database)
    requires ProtocolOk(cfg, db) && SameTables(d, db, {Meta, Catalog, Operations, Captures}) && Head(d) >= Head(db)
    ensures ProtocolOk(cfg, d)
  {
    SameMeta(d, db);
    assert TableOf(d, Catalog) == TableOf(db, Catalog) && TableOf(d, Operations) == TableOf(db, Operations)
      && TableOf(d, Captures) == TableOf(db, Captures);
  }
}
