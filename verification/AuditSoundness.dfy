/** What a passed audit is worth: the store is the image of an accept log, whether or not it was
    ever reached by the operations. The one thing the audit cannot see is a body that is gone. */
module AuditSoundness {
  import opened Types
  import opened Store
  import opened Gateway
  import opened Replay
  import opened Archive
  import opened Invariant
  import opened Lifecycle
  import opened Audit

  // ---- the log that the bindings name -----------------------------------------------------------------

  /** Sequence `n` has a receipt id that is bound in full. */
  predicate BoundAt(db: Database, n: nat) {
    match Get(db, ReceiptIds, Seq(n))
    case Some(Text(id)) => (match Get(db, Ids, Name(id)) case Some(Bound(_)) => true case _ => false)
    case _ => false
  }

  /** The record that the binding of sequence `n` was made of. */
  function OriginalOf(db: Database, n: nat): BillingRecord requires BoundAt(db, n) {
    Get(db, Ids, Name(Get(db, ReceiptIds, Seq(n)).value.s)).value.b.record.record
  }

  /** The record of sequence `n` is a decodable original under its own binding and receipt id. */
  predicate OriginalAt(db: Database, n: nat) {
    BoundAt(db, n) &&
    (var r := OriginalOf(db, n); Decodes(r, n) && BindsTo(db, r) && Get(db, ReceiptIds, Seq(n)) == Some(Text(r.event.id)))
  }

  /** Every deleted body was what its binding still says. */
  predicate RetiredOriginals(db: Database) { forall n :: 1 <= n <= Floor(db) ==> OriginalAt(db, n) }

  /** The store is the image of this accept log. */
  ghost predicate ImageOf(cfg: Config, db: Database, log: Log) {
    && LogOk(log) && |log| == Head(db) && Floor(db) <= Head(db)
    && VersionOf(db) == V2 && db.Keys == AllBuckets && Generation(db) > 0
    && EraOf(db).backfilled == EraOf(db).legacy <= Head(db)
    && IdsOk(Rows(db, Ids), log, EraOf(db)) && HotOk(Rows(db, Events), log, Floor(db))
    && ReceiptIdsOk(Rows(db, ReceiptIds), log, EraOf(db)) && TimesDefined(db)
    && CacheOk(Rows(db, ArchiveCache), log, Floor(db), MetaNum(db, CacheBytes))
    && CatalogProves(cfg, db) && OperationsOk(cfg, Rows(db, Operations), StoreId(db), Floor(db))
    && JournalWithin(Rows(db, MutationJournal), Generation(db))
    && (forall n :: Floor(db) < n <= Head(db) ==> AllowedAt(cfg, log, n))
  }

  /** Record `n` came from an allowed source environment. */
  predicate AllowedAt(cfg: Config, log: Log, n: nat) { 1 <= n <= |log| && log[n - 1].event.env in cfg.sources }

  /** Every accepted sequence has a receipt time, and nothing else has a row. */
  predicate TimesDefined(db: Database) {
    && (forall n :: 1 <= n <= Head(db) ==> ReceiptTime(db, n).Some?)
    && forall k <- Rows(db, ReceiptTimes) :: k.Seq? && 1 <= k.n <= Head(db)
  }

  /** Every entry of the catalog is a valid manifest of this store with a signed completion, and
      everything retired is in one of them. */
  ghost predicate CatalogProves(cfg: Config, db: Database) {
    && (forall k <- Rows(db, Catalog) :: EntryProves(cfg, db, k))
    && forall n: nat :: 1 <= n <= Floor(db) ==> SomeCatalog(Rows(db, Catalog), n)
  }

  predicate EntryProves(cfg: Config, db: Database, k: Key) requires k in Rows(db, Catalog) {
    var v := Rows(db, Catalog)[k];
    && k.Name? && v.Entry? && ValidManifest(v.c.manifest) && v.c.manifest.setId == k.id
    && v.c.manifest.storeId == StoreId(db) && v.c.manifest.environment == cfg.environment
    && CompletionOk(v.c.completion, v.c.manifest, v.c.manifestBytes, cfg.keys)
  }

  // ---- from the checks to the log --------------------------------------------------------------------------

  lemma HotOriginal(cfg: Config, db: Database, n: nat)
    requires SequenceGood(cfg, db, n)
    ensures BoundAt(db, n) && ReceiptTime(db, n).Some?
    ensures n > Floor(db) ==> OriginalAt(db, n) && Get(db, Events, Seq(n)) == Some(Body(OriginalOf(db, n)))
    ensures n > Floor(db) ==> OriginalOf(db, n).event.env in cfg.sources
  {
    hide ReceiptTime, Acceptable;
  }

  predicate AllOriginal(db: Database) { forall n :: 1 <= n <= Head(db) ==> OriginalAt(db, n) }

  /** The log of the originals. */
  function LogTo(db: Database, k: nat): (log: Log)
    requires AllOriginal(db) && k <= Head(db)
    ensures |log| == k && forall n :: 1 <= n <= k ==> OriginalAt(db, n) && log[n - 1] == OriginalOf(db, n)
  {
    if k == 0 then [] else assert OriginalAt(db, k); LogTo(db, k - 1) + [OriginalOf(db, k)]
  }

  function LogOf(db: Database): Log requires AllOriginal(db) { LogTo(db, Head(db)) }

  lemma Originals(cfg: Config, db: Database)
    requires SequencesAudit(cfg, db) && RetiredOriginals(db)
    ensures AllOriginal(db)
  {
    hide SequenceGood, OriginalAt;
    forall n | 1 <= n <= Head(db) ensures OriginalAt(db, n) {
      assert SequenceGood(cfg, db, n);
      HotOriginal(cfg, db, n);
    }
  }

  lemma LogDecodes(db: Database)
    requires AllOriginal(db)
    ensures LogOk(LogOf(db))
    ensures Receipted(db, LogOf(db))
  {
    hide Decodes, BindsTo, BoundAt;
    var log := LogOf(db);
    forall i | 0 <= i < |log| ensures Decodes(log[i], i + 1) { assert OriginalAt(db, i + 1); }
    forall n | 1 <= n <= Head(db) ensures ReceiptedAt(db, log, n) { assert OriginalAt(db, n); }
  }

  /** Record `n` is bound in full and its receipt id names it. */
  predicate ReceiptedAt(db: Database, log: Log, n: nat) {
    1 <= n <= |log| && BindsTo(db, log[n - 1]) && Get(db, ReceiptIds, Seq(n)) == Some(Text(log[n - 1].event.id))
  }

  ghost predicate Receipted(db: Database, log: Log) { forall n :: 1 <= n <= Head(db) ==> ReceiptedAt(db, log, n) }

  lemma IdBound(db: Database, log: Log, i: nat)
    requires VersionOf(db) == V2 && LogOk(log) && i < |log| && ReceiptedAt(db, log, i + 1)
    ensures Name(log[i].event.id) in Rows(db, Ids) && Rows(db, Ids)[Name(log[i].event.id)] == IdValue(log[i], EraOf(db))
  {
    hide Acceptable, VersionOf;
  }

  lemma IdNamed(db: Database, log: Log, k: Key)
    requires |log| == Head(db) && Receipted(db, log) && k in Rows(db, Ids)
    requires IdGood(Rows(db, ReceiptIds), Head(db), k, Rows(db, Ids)[k])
    ensures IdKnown(Rows(db, Ids), k, log)
  {
    hide BindsTo, Head;
    assert ReceiptedAt(db, log, Rows(db, Ids)[k].b.sequence);
  }

  lemma IdsAreLog(db: Database, log: Log)
    requires VersionOf(db) == V2 && LogOk(log) && |log| == Head(db) && IdsAudit(db) && Receipted(db, log)
    ensures IdsOk(Rows(db, Ids), log, EraOf(db))
  {
    hide LogOk, VersionOf, IdGood, ReceiptedAt, IdKnown, IdValue, Head, EraOf;
    forall i | 0 <= i < |log| ensures Name(log[i].event.id) in Rows(db, Ids) && Rows(db, Ids)[Name(log[i].event.id)] == IdValue(log[i], EraOf(db)) {
      assert ReceiptedAt(db, log, i + 1);
      IdBound(db, log, i);
    }
    forall k | k in Rows(db, Ids) ensures IdKnown(Rows(db, Ids), k, log) { IdNamed(db, log, k); }
  }

  lemma HotAreLog(cfg: Config, db: Database, log: Log)
    requires |log| == Head(db) && EventsAudit(db) && SequencesAudit(cfg, db)
    requires forall n :: 1 <= n <= Head(db) ==> OriginalAt(db, n) && log[n - 1] == OriginalOf(db, n)
    ensures HotOk(Rows(db, Events), log, Floor(db))
    ensures forall n :: Floor(db) < n <= Head(db) ==> AllowedAt(cfg, log, n)
  {
    hide SequenceGood, OriginalAt, BoundAt, Floor;
    forall n | Floor(db) < n <= Head(db)
      ensures Seq(n) in Rows(db, Events) && Rows(db, Events)[Seq(n)] == Body(log[n - 1]) && AllowedAt(cfg, log, n)
    {
      assert SequenceGood(cfg, db, n);
      HotOriginal(cfg, db, n);
    }
    forall k | k in Rows(db, Events) ensures k.Seq? && Floor(db) < k.n <= |log| { assert SequenceKey(Floor(db), Head(db), k); }
  }

  lemma ReceiptsAreLog(db: Database, log: Log)
    requires VersionOf(db) == V2 && |log| == Head(db) && ReceiptsAudit(Rows(db, ReceiptIds), Head(db))
    requires Receipted(db, log)
    ensures ReceiptIdsOk(Rows(db, ReceiptIds), log, EraOf(db))
  {
    forall n | 1 <= n <= Head(db)
      ensures Seq(n) in Rows(db, ReceiptIds) && Rows(db, ReceiptIds)[Seq(n)] == Text(log[n - 1].event.id)
    {
      assert ReceiptedAt(db, log, n);
    }
    forall k | k in Rows(db, ReceiptIds) ensures k.Seq? && 1 <= k.n <= Head(db) { assert SequenceKey(0, Head(db), k); }
  }

  lemma TimesAreDefined(cfg: Config, db: Database)
    requires SequencesAudit(cfg, db) && ReceiptsAudit(Rows(db, ReceiptTimes), Head(db))
    ensures TimesDefined(db)
  {
    hide SequenceGood, ReceiptTime, Rows, Head;
    forall n | 1 <= n <= Head(db) ensures ReceiptTime(db, n).Some? {
      assert SequenceGood(cfg, db, n);
      HotOriginal(cfg, db, n);
    }
    forall k | k in Rows(db, ReceiptTimes) ensures k.Seq? && 1 <= k.n <= Head(db) { assert SequenceKey(0, Head(db), k); }
  }

  lemma CacheIsLog(db: Database, log: Log)
    requires CacheAudit(db) && Floor(db) <= |log| && LogOk(log) && IdsOk(Rows(db, Ids), log, EraOf(db)) && VersionOf(db) == V2
    ensures CacheOk(Rows(db, ArchiveCache), log, Floor(db), MetaNum(db, CacheBytes))
  {
    hide CachedLength, Acceptable, VersionOf, Floor, MetaNum;
    forall k | k in Rows(db, ArchiveCache) ensures k.Seq? && 1 <= k.n <= Floor(db) && Rows(db, ArchiveCache)[k] == Body(log[k.n - 1]) {
      assert CachedGood(db, k, Rows(db, ArchiveCache)[k]);
      CachedIsLog(db, log, Rows(db, ArchiveCache)[k].r, k.n);
    }
  }

  lemma CachedIsLog(db: Database, log: Log, r: BillingRecord, n: nat)
    requires Decodes(r, n) && BindsTo(db, r) && LogOk(log) && IdsOk(Rows(db, Ids), log, EraOf(db)) && VersionOf(db) == V2
    ensures 1 <= n <= |log| && r == log[n - 1]
  {
    hide Acceptable, VersionOf;
    assert IdKnown(Rows(db, Ids), Name(r.event.id), log);
    assert Decodes(log[n - 1], n);
    assert Name(log[n - 1].event.id) in Rows(db, Ids);
  }

  lemma OperationsTile(cfg: Config, db: Database)
    requires OperationsAudit(cfg, db)
    ensures OperationsOk(cfg, Rows(db, Operations), StoreId(db), Floor(db))
  {
    hide LowerHex, Rows, StoreId, Head, Floor;
    forall k | k in Rows(db, Operations) ensures OperationOk(cfg, k, Rows(db, Operations)[k], StoreId(db), Floor(db)) {
      assert OperationGood(cfg, StoreId(db), Head(db), Floor(db), k, Rows(db, Operations)[k]);
    }
  }

  lemma CatalogIsProved(cfg: Config, db: Database)
    requires CatalogAudit(cfg, db)
    ensures CatalogProves(cfg, db)
  {
    hide ValidManifest, CompletionOk;
    forall k | k in Rows(db, Catalog) ensures EntryProves(cfg, db, k) { assert EntryGood(cfg, StoreId(db), k, Rows(db, Catalog)[k]); }
  }

  lemma MetaReads(db: Database)
    requires MetaAudit(db)
    ensures VersionOf(db) == V2 && db.Keys == AllBuckets && Generation(db) > 0 && Floor(db) <= Head(db)
    ensures EraOf(db).backfilled == EraOf(db).legacy <= Head(db)
  {}

  /** A store that passes the audit is the image of an accept log: bindings, hot bodies, receipts,
      cache, archive and retirements all belong to one sequence of records. */
  lemma AuditedIsImage(cfg: Config, db: Database) returns (log: Log)
    requires AuditOk(cfg, db) && RetiredOriginals(db)
    ensures ImageOf(cfg, db, log)
  {
    hide MetaAudit, IdsAudit, ReceiptsAudit, SequencesAudit, EventsAudit, CatalogAudit, CacheAudit, OperationsAudit, JournalWithin,
         RetiredOriginals, LogOk, IdsOk, HotOk, ReceiptIdsOk, CacheOk, OperationsOk, CatalogProves, TimesDefined, OriginalAt, BindsTo,
         VersionOf, EraOf, Generation, Floor, Receipted, AllOriginal, AllowedAt;
    MetaReads(db);
    Originals(cfg, db);
    log := LogOf(db);
    LogDecodes(db);
    IdsAreLog(db, log);
    HotAreLog(cfg, db, log);
    ReceiptsAreLog(db, log);
    TimesAreDefined(cfg, db);
    CacheIsLog(db, log);
    CatalogIsProved(cfg, db);
    OperationsTile(cfg, db);
  }
}
