/** `auditLifecycleTx`: the executable global check, and how far it follows from the
    invariant of every reachable state. */
module Audit {
  import opened Types
  import opened Store
  import opened Gateway
  import opened Replay
  import opened Archive
  import opened Intervals
  import opened Invariant
  import opened Lifecycle
  import opened Cache

  // ---- the clauses --------------------------------------------------------------------------------

  predicate IsNum(db: Database, f: MetaField) {
    match Get(db, Meta, Field(f)) case Some(Num(_)) => true case _ => false
  }

  predicate IsNumIfSet(db: Database, f: MetaField) { Field(f) in Rows(db, Meta) ==> IsNum(db, f) }

  predicate MetaAudit(db: Database) {
    && HasVersion(db, V2) && db.Keys == AllBuckets
    && IsNum(db, MutationGeneration) && IsNum(db, LegacyThrough) && IsNum(db, BackfilledThrough)
    && Generation(db) != 0
    && IsNumIfSet(db, ArchiveFloor) && IsNumIfSet(db, CapturedThrough) && IsNumIfSet(db, CacheBytes)
    && Floor(db) <= Head(db) && MetaNum(db, LegacyThrough) <= Head(db)
    && MetaNum(db, BackfilledThrough) == MetaNum(db, LegacyThrough)
    && (match Get(db, Meta, Field(LegacyAgeFloor)) case Some(Clock(_)) => true case _ => false)
  }

  predicate IdGood(receiptIds: Rowset, head: nat, k: Key, v: Value) {
    && k.Name? && 0 < |k.id| <= MAX_ID_BYTES && v.Bound? && 1 <= v.b.sequence <= head
    && Seq(v.b.sequence) in receiptIds && receiptIds[Seq(v.b.sequence)] == Text(k.id)
  }

  predicate SequenceKey(low: nat, high: nat, k: Key) { k.Seq? && low < k.n <= high }

  /** The receipts of one sequence and, above the floor, its body. */
  predicate SequenceGood(cfg: Config, db: Database, n: nat) {
    match Get(db, ReceiptIds, Seq(n))
    case Some(Text(id)) =>
      (match Get(db, Ids, Name(id))
       case Some(Bound(b)) =>
         && b.sequence == n && ReceiptTime(db, n).Some?
         && (n > Floor(db) ==>
               match Get(db, Events, Seq(n))
               case Some(Body(r)) => Decodes(r, n) && r.event.id == id && r.event.env in cfg.sources && b == BindingOf(r)
               case _ => false)
       case _ => false)
    case _ => false
  }

  predicate EntryGood(cfg: Config, storeId: string, k: Key, v: Value) {
    && k.Name? && v.Entry? && v.c.manifest.setId == k.id && v.c.manifest.storeId == storeId
    && v.c.manifest.environment == cfg.environment && ValidManifest(v.c.manifest)
    && CompletionOk(v.c.completion, v.c.manifest, v.c.manifestBytes, cfg.keys)
  }

  predicate CachedGood(db: Database, k: Key, v: Value) {
    SequenceKey(0, Floor(db), k) && v.Body? && Decodes(v.r, k.n) && BindsTo(db, v.r)
  }

  predicate OperationGood(cfg: Config, storeId: string, head: nat, floor: nat, k: Key, v: Value) {
    && k.Name? && v.Operation?
    && (var st := v.o;
        && st.operationId == k.id && st.environment == cfg.environment && st.storeId == storeId
        && LowerHex(st.planDigest, 32) && st.from != 0 && st.from <= st.through && st.through - st.from < 1000
        && st.through <= head
        && (match st.state
            case Pending => st.receipt == Unsealed && st.completedAt == 0
            case Completed => SealStatus(st).receipt == st.receipt && st.completedAt != 0
                              && st.retiredThrough <= floor && st.retiredThrough == st.through
            case Aborted => SealStatus(st).receipt == st.receipt && st.completedAt != 0 && st.retiredThrough <= floor))
  }

  predicate JournalGood(generation: nat, k: Key, v: Value) {
    k.Seq? && 0 < k.n <= generation && v.WriteSet? && v.ws != [] && forall w <- v.ws :: w.bucket != MutationJournal
  }

  ghost predicate CatalogCovers(catalog: Rowset, floor: nat) {
    forall n: nat :: 1 <= n <= floor ==> SomeCatalog(catalog, n)
  }

  ghost predicate CompletedTile(operations: Rowset, high: nat) {
    && (forall n: nat :: SomeOperation(operations, n) <==> 1 <= n <= high)
    && (forall n: nat, j, k :: OperationHolds(operations, j, n) && OperationHolds(operations, k, n) ==> j == k)
  }

  predicate IdsAudit(db: Database) {
    (forall k <- Rows(db, Ids) :: IdGood(Rows(db, ReceiptIds), Head(db), k, Rows(db, Ids)[k])) && |Rows(db, Ids)| == Head(db)
  }

  predicate ReceiptsAudit(rows: Rowset, head: nat) { (forall k <- rows :: SequenceKey(0, head, k)) && |rows| == head }

  predicate SequencesAudit(cfg: Config, db: Database) { forall n :: 1 <= n <= Head(db) ==> SequenceGood(cfg, db, n) }

  predicate EventsAudit(db: Database) { forall k <- Rows(db, Events) :: SequenceKey(Floor(db), Head(db), k) }

  ghost predicate CatalogAudit(cfg: Config, db: Database) {
    && (forall k <- Rows(db, Catalog) :: EntryGood(cfg, StoreId(db), k, Rows(db, Catalog)[k]))
    && CatalogCovers(Rows(db, Catalog), Floor(db))
  }

  predicate CacheAudit(db: Database) {
    && (forall k <- Rows(db, ArchiveCache) :: CachedGood(db, k, Rows(db, ArchiveCache)[k]))
    && CachedLength(Rows(db, ArchiveCache), Floor(db)) == MetaNum(db, CacheBytes)
  }

  ghost predicate OperationsAudit(cfg: Config, db: Database) {
    && (forall k <- Rows(db, Operations) :: OperationGood(cfg, StoreId(db), Head(db), Floor(db), k, Rows(db, Operations)[k]))
    && CompletedTile(Rows(db, Operations), Floor(db))
  }

  ghost predicate AuditOk(cfg: Config, db: Database) {
    && MetaAudit(db) && IdsAudit(db)
    && ReceiptsAudit(Rows(db, ReceiptTimes), Head(db)) && ReceiptsAudit(Rows(db, ReceiptIds), Head(db))
    && SequencesAudit(cfg, db) && EventsAudit(db) && CatalogAudit(cfg, db) && CacheAudit(db) && OperationsAudit(cfg, db)
    && JournalWithin(Rows(db, MutationJournal), Generation(db))
  }

  // ---- the loops -----------------------------------------------------------------------------------------

  /** `Bucket.ForEach` with a check that stops at the first failure. */
  method ForEach(rows: Rowset, good: (Key, Value) -> bool) returns (ok: bool)
    ensures ok <==> forall k <- rows :: good(k, rows[k])
  {
    var rest := rows.Keys;
    while rest != {}
      invariant rest <= rows.Keys
      invariant forall k <- rows :: k !in rest ==> good(k, rows[k])
      decreases |rest|
    {
      var k :| k in rest;
      if !good(k, rows[k]) { return false; }
      rest := rest - {k};
    }
    ok := true;
  }

  function CatalogInterval(catalog: Rowset, k: Key): Interval {
    if k in catalog && catalog[k].Entry? then Interval(catalog[k].c.manifest.from, catalog[k].c.manifest.through) else Interval(1, 0)
  }

  /** The ranges of the sets that hold records. */
  method CatalogRanges(catalog: Rowset) returns (ranges: seq<Interval>)
    ensures forall n: nat :: Covers(ranges, n) <==> SomeCatalog(catalog, n)
  {
    var rest := catalog.Keys;
    ranges := [];
    while rest != {}
      invariant rest <= catalog.Keys
      invariant forall n: nat :: Covers(ranges, n) <==> exists k <- catalog :: k !in rest && CatalogHolds(catalog, k, n)
      decreases |rest|
    {
      var k :| k in rest;
      ghost var before := ranges;
      if catalog[k].Entry? && catalog[k].c.manifest.recordCount > 0 {
        var r := CatalogInterval(catalog, k);
        CoversSnoc(ranges, r);
        ranges := ranges + [r];
      }
      rest := rest - {k};
      assert forall n: nat :: Covers(ranges, n) <==> Covers(before, n) || CatalogHolds(catalog, k, n);
    }
    assert forall n: nat :: Covers(ranges, n) <==> SomeCatalog(catalog, n);
  }

  predicate IsCompleted(operations: Rowset, k: Key) {
    k in operations && operations[k].Operation? && operations[k].o.state == Completed
  }

  function OperationInterval(operations: Rowset, k: Key): Interval requires IsCompleted(operations, k) {
    Interval(operations[k].o.from, operations[k].o.through)
  }

  /** `ranges` lists the intervals of the distinct keys `ks`. */
  ghost predicate Lists(ranges: seq<Interval>, ks: seq<Key>, operations: Rowset) {
    && |ranges| == |ks|
    && (forall i :: 0 <= i < |ks| ==> IsCompleted(operations, ks[i]) && ranges[i] == OperationInterval(operations, ks[i]))
    && (forall i, j :: 0 <= i < j < |ks| ==> ks[i] != ks[j])
  }

  method CompletedRanges(operations: Rowset) returns (ranges: seq<Interval>, ghost ks: seq<Key>)
    requires forall k <- operations :: IsCompleted(operations, k) ==> 1 <= operations[k].o.from <= operations[k].o.through
    ensures Lists(ranges, ks, operations) && Proper(ranges)
    ensures forall k :: k in ks <==> IsCompleted(operations, k)
  {
    var rest := operations.Keys;
    ranges, ks := [], [];
    while rest != {}
      invariant rest <= operations.Keys && Lists(ranges, ks, operations) && Proper(ranges)
      invariant forall k :: k in ks <==> IsCompleted(operations, k) && k !in rest
      decreases |rest|
    {
      var k :| k in rest;
      if IsCompleted(operations, k) {
        ranges := ranges + [OperationInterval(operations, k)];
        ks := ks + [k];
      }
      rest := rest - {k};
    }
  }

  lemma HeldIsCovered(ranges: seq<Interval>, ks: seq<Key>, operations: Rowset, n: nat)
    requires Lists(ranges, ks, operations) && forall k :: k in ks <==> IsCompleted(operations, k)
    ensures Covers(ranges, n) <==> SomeOperation(operations, n)
  {
    if Covers(ranges, n) {
      var i :| 0 <= i < |ranges| && ranges[i].Has(n);
      assert OperationHolds(operations, ks[i], n);
    }
    if SomeOperation(operations, n) {
      var k :| k in operations && OperationHolds(operations, k, n);
      assert IsCompleted(operations, k) && k in ks;
      var i :| 0 <= i < |ks| && ks[i] == k;
      assert ranges[i] in ranges && ranges[i].Has(n);
    }
  }

  lemma DisjointHolders(ranges: seq<Interval>, ks: seq<Key>, operations: Rowset, n: nat, j: Key, k: Key)
    requires Lists(ranges, ks, operations) && Disjoint(ranges) && j in ks && k in ks
    requires OperationHolds(operations, j, n) && OperationHolds(operations, k, n)
    ensures j == k
  {
    var a :| 0 <= a < |ks| && ks[a] == j;
    var b :| 0 <= b < |ks| && ks[b] == k;
    assert ranges[a] in ranges && ranges[b] in ranges && ranges[a].Has(n) && ranges[b].Has(n);
    if a < b && ranges[a] == ranges[b] { TwiceCounted(ranges, a, b); }
    if b < a && ranges[a] == ranges[b] { TwiceCounted(ranges, b, a); }
  }

  lemma UniqueHoldersDisjoint(ranges: seq<Interval>, ks: seq<Key>, operations: Rowset)
    requires Lists(ranges, ks, operations) && Proper(ranges)
    requires forall n: nat, j, k :: OperationHolds(operations, j, n) && OperationHolds(operations, k, n) ==> j == k
    ensures Disjoint(ranges)
  {
    forall i, j | 0 <= i < j < |ranges| ensures ranges[i].through < ranges[j].from || ranges[j].through < ranges[i].from {
      assert ranges[i] in ranges && ranges[j] in ranges;
      var n := if ranges[i].from < ranges[j].from then ranges[j].from else ranges[i].from;
      if ranges[i].Has(n) && ranges[j].Has(n) {
        assert OperationHolds(operations, ks[i], n) && OperationHolds(operations, ks[j], n);
      }
    }
    forall i, j | 0 <= i < j < |ranges| ensures ranges[i] != ranges[j] { assert ranges[i] in ranges && ranges[j] in ranges; }
    DistinctCounted(ranges);
    forall a, b | a in ranges && b in ranges && a != b ensures a.through < b.from || b.through < a.from {
      var i :| 0 <= i < |ranges| && ranges[i] == a;
      var j :| 0 <= j < |ranges| && ranges[j] == b;
    }
  }

  lemma TilesMeans(ranges: seq<Interval>, ks: seq<Key>, operations: Rowset, high: nat)
    requires Lists(ranges, ks, operations) && Proper(ranges) && forall k :: k in ks <==> IsCompleted(operations, k)
    ensures Tiles(ranges, high) <==> CompletedTile(operations, high)
  {
    forall n: nat ensures Covers(ranges, n) <==> SomeOperation(operations, n) { HeldIsCovered(ranges, ks, operations, n); }
    if Disjoint(ranges) {
      forall n: nat, j, k | OperationHolds(operations, j, n) && OperationHolds(operations, k, n) ensures j == k {
        DisjointHolders(ranges, ks, operations, n, j, k);
      }
    }
    if CompletedTile(operations, high) { UniqueHoldersDisjoint(ranges, ks, operations); }
  }

  // ---- the byte total, in whatever order the rows are visited ---------------------------------------------------

  function Part(rows: Rowset, keys: set<Key>): Rowset { map k | k in rows && k in keys :: rows[k] }

  lemma NoRows(rows: Rowset, high: nat)
    ensures CachedLength(Part(rows, {}), high) == 0
  {
    CachedLengthFrame(Part(rows, {}), map[], high);
    EmptyLength(high);
  }

  lemma {:induction false} EmptyLength(high: nat)
    ensures CachedLength(map[], high) == 0
  {
    if high > 0 { EmptyLength(high - 1); }
  }

  lemma OneMore(rows: Rowset, keys: set<Key>, k: Key, high: nat)
    requires k in rows && k !in keys && SequenceKey(0, high, k)
    ensures CachedLength(Part(rows, keys + {k}), high) == CachedLength(Part(rows, keys), high) + BodyLength(rows, k)
  {
    CachedLengthMoves(Part(rows, keys), Part(rows, keys + {k}), k.n, high);
  }

  method TotalBytes(rows: Rowset, high: nat) returns (total: nat)
    requires forall k <- rows :: SequenceKey(0, high, k)
    ensures total == CachedLength(rows, high)
  {
    var rest := rows.Keys;
    ghost var done: set<Key> := {};
    total := 0;
    NoRows(rows, high);
    while rest != {}
      invariant rest <= rows.Keys && done == rows.Keys - rest && total == CachedLength(Part(rows, done), high)
      decreases |rest|
    {
      var k :| k in rest;
      OneMore(rows, done, k, high);
      total := total + BodyLength(rows, k);
      rest := rest - {k};
      done := done + {k};
    }
    assert Part(rows, done) == rows;
  }

  // ---- the whole audit ----------------------------------------------------------------------------------------------

  method AuditTables(cfg: Config, db: Database) returns (ok: bool)
    ensures ok <==> MetaAudit(db) && IdsAudit(db) && ReceiptsAudit(Rows(db, ReceiptTimes), Head(db))
                    && ReceiptsAudit(Rows(db, ReceiptIds), Head(db)) && SequencesAudit(cfg, db) && EventsAudit(db)
  {
    hide MetaAudit, IdGood, SequenceGood, SequenceKey, Head, Floor;
    if !MetaAudit(db) { return false; }
    var head, floor, receiptIds := Head(db), Floor(db), Rows(db, ReceiptIds);
    var ids := ForEach(Rows(db, Ids), (k, v) => IdGood(receiptIds, head, k, v));
    if !ids || |Rows(db, Ids)| != head { return false; }
    var times := ForEach(Rows(db, ReceiptTimes), (k, v) => SequenceKey(0, head, k));
    if !times || |Rows(db, ReceiptTimes)| != head { return false; }
    var receipts := ForEach(receiptIds, (k, v) => SequenceKey(0, head, k));
    if !receipts || |receiptIds| != head { return false; }
    for n := 1 to head + 1
      invariant forall i :: 1 <= i < n ==> SequenceGood(cfg, db, i)
    {
      if !SequenceGood(cfg, db, n) { return false; }
    }
    ok := ForEach(Rows(db, Events), (k, v) => SequenceKey(floor, head, k));
  }

  method AuditArchive(cfg: Config, db: Database) returns (ok: bool)
    ensures ok <==> CatalogAudit(cfg, db) && CacheAudit(db)
  {
    hide EntryGood, StoreId, Floor;
    var storeId, floor := StoreId(db), Floor(db);
    var entries := ForEach(Rows(db, Catalog), (k, v) => EntryGood(cfg, storeId, k, v));
    if !entries { return false; }
    var ranges := CatalogRanges(Rows(db, Catalog));
    var covered := ContiguousPrefix(ranges);
    assert CoversPrefix(ranges, floor) <==> CatalogCovers(Rows(db, Catalog), floor);
    if floor > covered { return false; }
    var cached := ForEach(Rows(db, ArchiveCache), (k, v) => CachedGood(db, k, v));
    if !cached { return false; }
    var total := TotalBytes(Rows(db, ArchiveCache), floor);
    ok := total == MetaNum(db, CacheBytes);
  }

  method AuditOperations(cfg: Config, db: Database) returns (ok: bool)
    ensures ok <==> OperationsAudit(cfg, db)
  {
    var storeId, head, floor := StoreId(db), Head(db), Floor(db);
    var operations := Rows(db, Operations);
    var good := ForEach(operations, (k, v) => OperationGood(cfg, storeId, head, floor, k, v));
    if !good { return false; }
    ghost var ks;
    var ranges;
    ranges, ks := CompletedRanges(operations);
    var end := TiledThrough(ranges);
    TilesMeans(ranges, ks, operations, floor);
    ok := end == Some(floor);
  }

  method Audit(cfg: Config, db: Database) returns (ok: bool)
    ensures ok <==> AuditOk(cfg, db)
  {
    var tables := AuditTables(cfg, db);
    if !tables { return false; }
    var archive := AuditArchive(cfg, db);
    if !archive { return false; }
    var operations := AuditOperations(cfg, db);
    if !operations { return false; }
    var generation := Generation(db);
    ok := ForEach(Rows(db, MutationJournal), (k, v) => JournalGood(generation, k, v));
    assert forall k <- Rows(db, MutationJournal) ::
      EntryOk(Rows(db, MutationJournal), k, generation) <==> JournalGood(generation, k, Rows(db, MutationJournal)[k]);
  }
}
