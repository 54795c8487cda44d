/** The life of an archive set: capturing, sealed, uploaded, verified, or abandoned. */
module Backup {
  import opened Types
  import opened Store
  import opened Gateway
  import opened Replay
  import opened Archive
  import opened Invariant
  import opened Lifecycle

  const CLOCK_SKEW: nat := 30_000_000_000

  // ---- the operations -------------------------------------------------------------------------------

  function PutCapture(st: CaptureStatus): Mutation { Put(Captures, Name(st.setId), Capture(st)) }

  function StateOf(db: Database, id: string): Option<CaptureStatus> {
    match Get(db, Captures, Name(id)) case Some(Capture(st)) => Some(st) case _ => None
  }

  predicate AnyActive(captures: Rowset) {
    exists k <- captures :: captures[k].Capture? && Active(captures[k].p.state)
  }

  /** A new set under a fresh random id, once no other set is in flight. */
  function BeginOutcome(db: Database, id: string): Outcome {
    if Captures !in db || AnyActive(Rows(db, Captures)) || Name(id) in Rows(db, Captures) then Refuse(LifecycleConflict)
    else Write([PutCapture(CaptureStatus(id, Capturing, None))])
  }

  /** A set interrupted before its seal. */
  function AbandonOutcome(db: Database, id: string): Outcome {
    if StateOf(db, id) != Some(CaptureStatus(id, Capturing, None)) then Refuse(LifecycleConflict)
    else Write([PutCapture(CaptureStatus(id, Abandoned, None))])
  }

  /** First sequence of the next set, or 0 when there is nothing new. */
  function RangeStart(db: Database): nat {
    var next := MetaNum(db, CapturedThrough) + 1;
    var from := if next <= Floor(db) then Floor(db) + 1 else next;
    if from > Head(db) then 0 else from
  }

  /** The scope of a manifest captured from `snapshot`. */
  predicate ScopeOf(cfg: Config, snapshot: Database, id: string, m: Manifest) {
    && m.environment == cfg.environment && m.storeId == StoreId(snapshot) && m.setId == id
    && m.highWater == Head(snapshot) && m.from == RangeStart(snapshot)
    && m.through == (if m.from > 0 then Head(snapshot) else 0)
    && m.recordCount == (if m.from > 0 then Head(snapshot) - m.from + 1 else 0)
  }

  /** The seal: the manifest was packed from a snapshot read earlier, without the lock. */
  function SealOutcome(db: Database, id: string, m: Manifest): Outcome {
    if StateOf(db, id) != Some(CaptureStatus(id, Capturing, None)) || !ValidManifest(m) then Refuse(LifecycleConflict)
    else Write([PutCapture(CaptureStatus(id, Sealed, Some(m))), Put(Meta, Field(CapturedThrough), Num(m.highWater))])
  }

  /** Every part and the manifest were stored; `stored` is the object store's answer. */
  function UploadOutcome(db: Database, id: string, stored: bool): Outcome {
    match StateOf(db, id)
    case Some(st) =>
      if st.state != Sealed || !stored then Refuse(LifecycleConflict)
      else Write([PutCapture(st.(state := Uploaded))])
    case None => Refuse(LifecycleConflict)
  }

  function VerifyOutcome(cfg: Config, db: Database, id: string, completion: Completion, now: nat): Outcome {
    match Ready(cfg, db)
    case Some(e) => Refuse(e)
    case None =>
      match StateOf(db, id)
      case Some(CaptureStatus(_, state, Some(m))) =>
        if (state != Uploaded && state != Verified) || !CompletionOk(completion, m, m, cfg.keys)
           || completion.payload.verifiedAt > now + CLOCK_SKEW || m.createdAt > now + CLOCK_SKEW
        then Refuse(LifecycleConflict)
        else
          var entry := CatalogEntry(m, m, completion);
          (match Get(db, Catalog, Name(id))
           case Some(v) => if v == Entry(entry) then Write([]) else Refuse(LifecycleConflict)
           case None => Write([Put(Catalog, Name(id), Entry(entry)), PutCapture(CaptureStatus(id, Verified, Some(m)))]))
      case _ => Refuse(LifecycleConflict)
  }

  // ---- the effect --------------------------------------------------------------------------------------

  /** `d` is `db` with other capture and catalog rows and another captured frontier. */
  ghost predicate CapturesWritten(d: Database, db: Database, captures: Rowset, catalog: Rowset, captured: nat) {
    && d.Keys == db.Keys
    && (forall b :: b != Captures && b != Catalog && b != Meta ==> TableOf(d, b) == TableOf(db, b))
    && Rows(d, Captures) == captures && Rows(d, Catalog) == catalog
    && (forall f :: f != CapturedThrough ==> Get(d, Meta, Field(f)) == Get(db, Meta, Field(f)))
    && MetaNum(d, CapturedThrough) == captured && (MetaRowsOk(Rows(db, Meta)) ==> MetaRowsOk(Rows(d, Meta)))
  }

  lemma StatusEffect(db: Database, st: CaptureStatus, ws: seq<Mutation>)
    requires Captures in db && ws == [PutCapture(st)]
    ensures CapturesWritten(ApplyAll(db, ws), db, Rows(db, Captures)[Name(st.setId) := Capture(st)],
                            Rows(db, Catalog), MetaNum(db, CapturedThrough))
    ensures Applicable(db, ws) && ws != [] && DomainWrites(ws) && forall w <- ws :: Replayable(w)
  {
    ApplySingle(db, PutCapture(st));
  }

  lemma SealEffect(db: Database, id: string, m: Manifest, ws: seq<Mutation>)
    requires SealOutcome(db, id, m) == Write(ws) && Captures in db && Meta in db
    ensures CapturesWritten(ApplyAll(db, ws), db, Rows(db, Captures)[Name(id) := Capture(CaptureStatus(id, Sealed, Some(m)))],
                            Rows(db, Catalog), m.highWater)
    ensures Applicable(db, ws) && ws != [] && DomainWrites(ws) && forall w <- ws :: Replayable(w)
    ensures Get(db, Captures, Name(id)) == Some(Capture(CaptureStatus(id, Capturing, None))) && ValidManifest(m)
  {
    hide CapturesWritten, ValidManifest, ApplyAll, ApplyOne;
    var st := CaptureStatus(id, Sealed, Some(m));
    ApplyPair(db, PutCapture(st), FrontierAt(m.highWater));
    StatusWritten(db, st);
    FrontierWritten(ApplyOne(db, PutCapture(st)), db, Rows(db, Captures)[Name(id) := Capture(st)], m.highWater);
  }

  function FrontierAt(n: nat): Mutation { Put(Meta, Field(CapturedThrough), Num(n)) }

  lemma StatusWritten(db: Database, st: CaptureStatus)
    requires Captures in db
    ensures CapturesWritten(ApplyOne(db, PutCapture(st)), db, Rows(db, Captures)[Name(st.setId) := Capture(st)],
                            Rows(db, Catalog), MetaNum(db, CapturedThrough))
  {}

  lemma FrontierWritten(d: Database, db: Database, captures: Rowset, n: nat)
    requires CapturesWritten(d, db, captures, Rows(db, Catalog), MetaNum(db, CapturedThrough)) && Meta in db
    ensures CapturesWritten(ApplyOne(d, FrontierAt(n)), db, captures, Rows(db, Catalog), n)
  {}

  lemma VerifyEffect(db: Database, id: string, m: Manifest, entry: CatalogEntry, ws: seq<Mutation>)
    requires ws == [Put(Catalog, Name(id), Entry(entry)), PutCapture(CaptureStatus(id, Verified, Some(m)))]
    requires Captures in db && Catalog in db
    ensures CapturesWritten(ApplyAll(db, ws), db, Rows(db, Captures)[Name(id) := Capture(CaptureStatus(id, Verified, Some(m)))],
                            Rows(db, Catalog)[Name(id) := Entry(entry)], MetaNum(db, CapturedThrough))
    ensures Applicable(db, ws) && DomainWrites(ws) && forall w <- ws :: Replayable(w)
  {
    hide CapturesWritten, ApplyAll, ApplyOne, Rows, MetaNum;
    var w := Put(Catalog, Name(id), Entry(entry));
    ApplyPair(db, w, PutCapture(CaptureStatus(id, Verified, Some(m))));
    EntryWritten(db, id, entry);
    StatusAfter(ApplyOne(db, w), db, Rows(db, Catalog)[Name(id) := Entry(entry)], CaptureStatus(id, Verified, Some(m)));
  }

  lemma EntryWritten(db: Database, id: string, entry: CatalogEntry)
    requires Captures in db && Catalog in db
    ensures CapturesWritten(ApplyOne(db, Put(Catalog, Name(id), Entry(entry))), db, Rows(db, Captures),
                            Rows(db, Catalog)[Name(id) := Entry(entry)], MetaNum(db, CapturedThrough))
  {}

  lemma StatusAfter(d: Database, db: Database, catalog: Rowset, st: CaptureStatus)
    requires Captures in db && CapturesWritten(d, db, Rows(db, Captures), catalog, MetaNum(db, CapturedThrough))
    ensures CapturesWritten(ApplyOne(d, PutCapture(st)), db, Rows(db, Captures)[Name(st.setId) := Capture(st)], catalog,
                            MetaNum(db, CapturedThrough))
  {}

  lemma CapturesReadings(d: Database, db: Database, captures: Rowset, catalog: Rowset, captured: nat)
    requires CapturesWritten(d, db, captures, catalog, captured)
    ensures EraOf(d) == EraOf(db) && StoreId(d) == StoreId(db) && Floor(d) == Floor(db) && Head(d) == Head(db)
    ensures AgeFloor(d) == AgeFloor(db) && MetaNum(d, CacheBytes) == MetaNum(db, CacheBytes)
    ensures Generation(d) == Generation(db) && HasSession(d) == HasSession(db)
    ensures forall b :: b != Captures && b != Catalog && b != Meta ==> Rows(d, b) == Rows(db, b)
  {
    hide MetaRowsOk, Get, TableOf, VersionOf, AgeFloor, StoreId, HasSession, MetaNum;
    MetaRead(d, db, {CapturedThrough});
  }

  lemma CapturesLedger(d: Database, db: Database, log: Log, captures: Rowset, catalog: Rowset, captured: nat)
    requires LedgerOk(db, log) && CapturesWritten(d, db, captures, catalog, captured)
    ensures LedgerOk(d, log)
  {
    CapturesReadings(d, db, captures, catalog, captured);
  }

  lemma CapturesSchema(d: Database, db: Database, captures: Rowset, catalog: Rowset, captured: nat)
    requires SchemaOk(db) && CapturesWritten(d, db, captures, catalog, captured)
    requires VersionOf(db) == V2 || (captured == MetaNum(db, CapturedThrough) && catalog == Rows(db, Catalog))
    ensures SchemaOk(d)
  {
    CapturesReadings(d, db, captures, catalog, captured);
    assert Get(d, Meta, Field(LegacyThrough)) == Get(db, Meta, Field(LegacyThrough));
    assert Get(d, Meta, Field(BackfilledThrough)) == Get(db, Meta, Field(BackfilledThrough));
    assert Get(d, Meta, Field(LegacyAgeFloor)) == Get(db, Meta, Field(LegacyAgeFloor));
  }

  lemma CapturesProtocol(cfg: Config, d: Database, db: Database, captures: Rowset, catalog: Rowset, captured: nat)
    requires ProtocolOk(cfg, db) && CapturesWritten(d, db, captures, catalog, captured)
    requires CapturesOk(cfg, captures, StoreId(db), captured) && CatalogOk(cfg, catalog, captures, Floor(db))
    requires Floor(db) <= captured <= Head(db)
    ensures ProtocolOk(cfg, d)
  {
    CapturesReadings(d, db, captures, catalog, captured);
  }

  lemma CapturesPromise(d: Database, db: Database, captures: Rowset, catalog: Rowset, captured: nat)
    requires CapturesWritten(d, db, captures, catalog, captured) && KeepsRows(catalog, Rows(db, Catalog))
    ensures Promises(d, db) && Floor(d) == Floor(db)
  {
    hide MetaNum, EraOf, HasSession, Rows;
    CapturesReadings(d, db, captures, catalog, captured);
    ReceiptFrame(d, db);
  }

  /** What the committed state shows of the new tables. */
  ghost predicate CapturesShown(c: Database, db: Database, captures: Rowset, catalog: Rowset, captured: nat) {
    && MetaNum(c, CapturedThrough) == captured && Rows(c, Captures) == captures && Rows(c, Catalog) == catalog
    && Rows(c, Operations) == Rows(db, Operations) && Fenced(c) == Fenced(db) && Floor(c) == Floor(db)
  }

  lemma CapturesAfter(c: Database, d: Database, db: Database, captures: Rowset, catalog: Rowset, captured: nat)
    requires SameViews(c, d) && CapturesWritten(d, db, captures, catalog, captured)
    ensures CapturesShown(c, db, captures, catalog, captured)
  {
    hide MetaNum, Rows;
    SameReadings(c, d);
    CapturesReadings(d, db, captures, catalog, captured);
    assert Rows(c, Captures) == Rows(d, Captures) && Rows(c, Catalog) == Rows(d, Catalog) && Rows(c, Operations) == Rows(d, Operations);
  }

  lemma ShownInFlight(c: Database, db: Database, id: string, v: Value, catalog: Rowset)
    requires CapturesShown(c, db, Rows(db, Captures)[Name(id) := v], catalog, MetaNum(db, CapturedThrough))
    requires !InFlight(db, id)
    ensures InFlightKept(c, db) && Floor(c) == Floor(db) && Fenced(c) == Fenced(db) && Rows(c, Operations) == Rows(db, Operations)
  {}

  lemma CapturesCommit(cfg: Config, db: Database, ws: seq<Mutation>, log: Log, captures: Rowset, catalog: Rowset,
                       captured: nat, overflow: bool)
    requires Inv(cfg, db, log) && CapturesWritten(ApplyAll(db, ws), db, captures, catalog, captured)
    requires VersionOf(db) == V2 || (captured == MetaNum(db, CapturedThrough) && catalog == Rows(db, Catalog))
    requires CapturesOk(cfg, captures, StoreId(db), captured) && CatalogOk(cfg, catalog, captures, Floor(db))
    requires Floor(db) <= captured <= Head(db) && KeepsRows(catalog, Rows(db, Catalog))
    requires ws != [] && Applicable(db, ws) && DomainWrites(ws) && forall w <- ws :: Replayable(w)
    ensures Inv(cfg, Committed(db, ws, overflow), log) && Promises(Committed(db, ws, overflow), db) && Committable(db, ws)
    ensures CapturesShown(Committed(db, ws, overflow), db, captures, catalog, captured)
  {
    var d := ApplyAll(db, ws);
    CapturesLedger(d, db, log, captures, catalog, captured);
    CapturesSchema(d, db, captures, catalog, captured);
    CapturesProtocol(cfg, d, db, captures, catalog, captured);
    CapturesPromise(d, db, captures, catalog, captured);
    CommitKeeps(cfg, db, ws, log, overflow);
    CommitSameViews(db, ws, overflow);
    CapturesAfter(Committed(db, ws, overflow), d, db, captures, catalog, captured);
  }

  // ---- the capture table -----------------------------------------------------------------------------------

  /** Changing the row of a set that holds nothing to a row that holds nothing. */
  lemma HolderlessStep(cfg: Config, captures: Rowset, storeId: string, captured: nat, id: string, st: CaptureState)
    requires CapturesOk(cfg, captures, storeId, captured) && (st == Capturing || st == Abandoned)
    requires Name(id) in captures ==> captures[Name(id)] == Capture(CaptureStatus(id, Capturing, None))
    requires st == Capturing ==> !AnyActive(captures)
    ensures CapturesOk(cfg, captures[Name(id) := Capture(CaptureStatus(id, st, None))], storeId, captured)
  {
    var after := captures[Name(id) := Capture(CaptureStatus(id, st, None))];
    SameHolders(captures, after, id);
    forall k | k in after ensures CaptureShape(cfg, after, k, storeId, captured) {
      if k != Name(id) { assert CaptureShape(cfg, captures, k, storeId, captured); }
    }
    forall k | k in after && HasManifest(after, k) ensures Frontier(after, k, captured) {
      assert HasManifest(captures, k) && Frontier(captures, k, captured);
    }
  }

  lemma SameHolders(captures: Rowset, after: Rowset, id: string)
    requires forall k :: k != Name(id) ==> (k in after <==> k in captures) && (k in captures ==> after[k] == captures[k])
    requires forall n: nat :: CaptureHolds(after, Name(id), n) <==> CaptureHolds(captures, Name(id), n)
    ensures forall n: nat, k :: CaptureHolds(after, k, n) <==> CaptureHolds(captures, k, n)
    ensures forall n: nat :: SomeCapture(after, n) <==> SomeCapture(captures, n)
  {
    forall n: nat, k ensures CaptureHolds(after, k, n) <==> CaptureHolds(captures, k, n) {}
    forall n: nat ensures SomeCapture(after, n) <==> SomeCapture(captures, n) {
      if SomeCapture(after, n) {
        var k :| k in after && CaptureHolds(after, k, n);
        assert CaptureHolds(captures, k, n);
      }
      if SomeCapture(captures, n) {
        var k :| k in captures && CaptureHolds(captures, k, n);
        assert CaptureHolds(after, k, n);
      }
    }
  }

  lemma SealShape(cfg: Config, captures: Rowset, storeId: string, captured: nat, id: string, m: Manifest)
    requires CapturesOk(cfg, captures, storeId, captured) && ValidManifest(m)
    requires m.setId == id && m.storeId == storeId && m.environment == cfg.environment && captured <= m.highWater
    requires m.recordCount > 0 ==> m.through == m.highWater
    ensures var after := captures[Name(id) := Capture(CaptureStatus(id, Sealed, Some(m)))];
      forall k <- after :: CaptureShape(cfg, after, k, storeId, m.highWater)
  {
    var after := captures[Name(id) := Capture(CaptureStatus(id, Sealed, Some(m)))];
    forall k | k in after ensures CaptureShape(cfg, after, k, storeId, m.highWater) {
      if k != Name(id) { assert CaptureShape(cfg, captures, k, storeId, captured); }
    }
  }

  lemma SealHolders(cfg: Config, captures: Rowset, storeId: string, captured: nat, id: string, m: Manifest)
    requires CapturesOk(cfg, captures, storeId, captured)
    requires Name(id) in captures && captures[Name(id)] == Capture(CaptureStatus(id, Capturing, None))
    requires if m.recordCount > 0 then m.from == captured + 1 && m.through == m.highWater >= m.from else captured == m.highWater
    ensures var after := captures[Name(id) := Capture(CaptureStatus(id, Sealed, Some(m)))];
      && (forall n: nat :: SomeCapture(after, n) <==> 1 <= n <= m.highWater)
      && (forall n: nat, j, k :: CaptureHolds(after, j, n) && CaptureHolds(after, k, n) ==> j == k)
  {
    var after := captures[Name(id) := Capture(CaptureStatus(id, Sealed, Some(m)))];
    forall n: nat, k
      ensures CaptureHolds(after, k, n) <==> CaptureHolds(captures, k, n) || (k == Name(id) && m.Spans(n))
    {}
    forall n: nat ensures SomeCapture(after, n) <==> 1 <= n <= m.highWater {
      if SomeCapture(after, n) {
        var k :| k in after && CaptureHolds(after, k, n);
        if CaptureHolds(captures, k, n) { assert SomeCapture(captures, n); }
      }
      if SomeCapture(captures, n) {
        var k :| k in captures && CaptureHolds(captures, k, n);
        assert CaptureHolds(after, k, n);
      }
      if m.Spans(n) { assert CaptureHolds(after, Name(id), n); }
    }
    forall n: nat, j, k | CaptureHolds(after, j, n) && CaptureHolds(after, k, n) ensures j == k {
      if CaptureHolds(captures, j, n) { assert SomeCapture(captures, n); }
      if CaptureHolds(captures, k, n) { assert SomeCapture(captures, n); }
    }
  }

  lemma SealFrontier(cfg: Config, captures: Rowset, storeId: string, captured: nat, id: string, m: Manifest)
    requires CapturesOk(cfg, captures, storeId, captured)
    requires Name(id) in captures && captures[Name(id)] == Capture(CaptureStatus(id, Capturing, None))
    requires m.recordCount > 0 ==> m.from == captured + 1
    ensures var after := captures[Name(id) := Capture(CaptureStatus(id, Sealed, Some(m)))];
      forall k <- after :: HasManifest(after, k) ==> Frontier(after, k, m.highWater)
  {
    var after := captures[Name(id) := Capture(CaptureStatus(id, Sealed, Some(m)))];
    forall k | k in after && HasManifest(after, k) ensures Frontier(after, k, m.highWater) {
      if k != Name(id) {
        assert CaptureShape(cfg, captures, k, storeId, captured);
        assert captures[k].p.state == Verified;
      } else {
        forall j | j in after && HasManifest(after, j) && j != k ensures m.recordCount > 0 ==> ManifestAt(after, j).highWater < m.from {
          assert HasManifest(captures, j) && CaptureShape(cfg, captures, j, storeId, captured);
        }
      }
    }
  }

  /** The seal extends the partition of 1..captured to 1..highWater. */
  lemma SealTable(cfg: Config, captures: Rowset, storeId: string, captured: nat, id: string, m: Manifest)
    requires CapturesOk(cfg, captures, storeId, captured) && ValidManifest(m)
    requires m.setId == id && m.storeId == storeId && m.environment == cfg.environment
    requires Name(id) in captures && captures[Name(id)] == Capture(CaptureStatus(id, Capturing, None))
    requires if m.recordCount > 0 then m.from == captured + 1 && m.through == m.highWater >= m.from else captured == m.highWater
    ensures CapturesOk(cfg, captures[Name(id) := Capture(CaptureStatus(id, Sealed, Some(m)))], storeId, m.highWater)
  {
    SealShape(cfg, captures, storeId, captured, id, m);
    SealHolders(cfg, captures, storeId, captured, id, m);
    SealFrontier(cfg, captures, storeId, captured, id, m);
  }

  /** Sealed to uploaded, or uploaded to verified. */
  lemma ProgressTable(cfg: Config, captures: Rowset, storeId: string, captured: nat, id: string, m: Manifest,
                      was: CaptureState, next: CaptureState)
    requires CapturesOk(cfg, captures, storeId, captured)
    requires Name(id) in captures && captures[Name(id)] == Capture(CaptureStatus(id, was, Some(m)))
    requires (was == Sealed && next == Uploaded) || (was == Uploaded && next == Verified)
    ensures CapturesOk(cfg, captures[Name(id) := Capture(CaptureStatus(id, next, Some(m)))], storeId, captured)
  {
    hide ValidManifest;
    var after := captures[Name(id) := Capture(CaptureStatus(id, next, Some(m)))];
    assert CaptureShape(cfg, captures, Name(id), storeId, captured) && Frontier(captures, Name(id), captured);
    SameHolders(captures, after, id);
    forall k | k in after ensures CaptureShape(cfg, after, k, storeId, captured) {
      if k != Name(id) { assert CaptureShape(cfg, captures, k, storeId, captured); }
    }
    forall k | k in after && HasManifest(after, k) ensures Frontier(after, k, captured) {
      assert HasManifest(captures, k) && CaptureShape(cfg, captures, k, storeId, captured) && Frontier(captures, k, captured);
      assert k != Name(id) ==> captures[k].p.state == Verified;
      forall j | j in after && HasManifest(after, j) ensures HasManifest(captures, j) && ManifestAt(after, j) == ManifestAt(captures, j) {}
    }
  }

  lemma CatalogUntouched(cfg: Config, catalog: Rowset, captures: Rowset, floor: nat, id: string, st: CaptureStatus)
    requires CatalogOk(cfg, catalog, captures, floor) && st.state != Verified
    requires Name(id) in captures ==> captures[Name(id)].Capture? && captures[Name(id)].p.state != Verified
    ensures CatalogOk(cfg, catalog, captures[Name(id) := Capture(st)], floor)
  {
    var after := captures[Name(id) := Capture(st)];
    forall k | k in catalog ensures CatalogEntryOk(cfg, catalog, after, k) {
      assert CatalogEntryOk(cfg, catalog, captures, k);
    }
  }

  lemma StillCovers(after: Rowset, catalog: Rowset, floor: nat)
    requires KeepsRows(after, catalog) && forall n: nat :: 1 <= n <= floor ==> SomeCatalog(catalog, n)
    ensures forall n: nat :: 1 <= n <= floor ==> SomeCatalog(after, n)
  {
    forall n: nat | 1 <= n <= floor ensures SomeCatalog(after, n) {
      assert SomeCatalog(catalog, n);
      var k :| k in catalog && CatalogHolds(catalog, k, n);
      assert CatalogHolds(after, k, n);
    }
  }

  lemma CatalogGains(cfg: Config, catalog: Rowset, captures: Rowset, floor: nat, id: string, c: CatalogEntry)
    requires CatalogOk(cfg, catalog, captures, floor) && Name(id) !in catalog
    requires CompletionOk(c.completion, c.manifest, c.manifestBytes, cfg.keys)
    ensures CatalogOk(cfg, catalog[Name(id) := Entry(c)], captures[Name(id) := Capture(CaptureStatus(id, Verified, Some(c.manifest)))], floor)
    ensures KeepsRows(catalog[Name(id) := Entry(c)], catalog)
  {
    var catalog', captures' := catalog[Name(id) := Entry(c)], captures[Name(id) := Capture(CaptureStatus(id, Verified, Some(c.manifest)))];
    forall k | k in catalog' ensures CatalogEntryOk(cfg, catalog', captures', k) {
      if k != Name(id) { assert CatalogEntryOk(cfg, catalog, captures, k); }
    }
    StillCovers(catalog', catalog, floor);
  }

  // ---- every step keeps the invariant ----------------------------------------------------------------------------

  lemma StatusCommit(cfg: Config, db: Database, log: Log, st: CaptureStatus, ws: seq<Mutation>, overflow: bool)
    requires Inv(cfg, db, log) && st.state != Verified
    requires Name(st.setId) in Rows(db, Captures) ==>
               Rows(db, Captures)[Name(st.setId)].Capture? && Rows(db, Captures)[Name(st.setId)].p.state != Verified
    requires CapturesOk(cfg, Rows(db, Captures)[Name(st.setId) := Capture(st)], StoreId(db), MetaNum(db, CapturedThrough))
    requires CapturesWritten(ApplyAll(db, ws), db, Rows(db, Captures)[Name(st.setId) := Capture(st)],
                             Rows(db, Catalog), MetaNum(db, CapturedThrough))
    requires Applicable(db, ws) && ws != [] && DomainWrites(ws) && forall w <- ws :: Replayable(w)
    ensures var d := Committed(db, ws, overflow);
      && Inv(cfg, d, log) && Promises(d, db) && Committable(db, ws)
      && CapturesShown(d, db, Rows(db, Captures)[Name(st.setId) := Capture(st)], Rows(db, Catalog), MetaNum(db, CapturedThrough))
  {
    hide SchemaOk, LedgerOk, CapturesOk, Committed, Promises, Committable, CapturesWritten;
    CatalogUntouched(cfg, Rows(db, Catalog), Rows(db, Captures), Floor(db), st.setId, st);
    CapturesCommit(cfg, db, ws, log, Rows(db, Captures)[Name(st.setId) := Capture(st)], Rows(db, Catalog),
                   MetaNum(db, CapturedThrough), overflow);
  }

  lemma BeginKeeps(cfg: Config, db: Database, log: Log, id: string, ws: seq<Mutation>, overflow: bool)
    requires Inv(cfg, db, log) && BeginOutcome(db, id) == Write(ws)
    ensures Inv(cfg, Committed(db, ws, overflow), log) && Advances(Committed(db, ws, overflow), db) && Committable(db, ws)
    ensures InFlight(Committed(db, ws, overflow), id) && OnlyCaptures(Committed(db, ws, overflow), db)
  {
    HolderlessStep(cfg, Rows(db, Captures), StoreId(db), MetaNum(db, CapturedThrough), id, Capturing);
    StatusEffect(db, CaptureStatus(id, Capturing, None), ws);
    StatusCommit(cfg, db, log, CaptureStatus(id, Capturing, None), ws, overflow);
    ShownInFlight(Committed(db, ws, overflow), db, id, Capture(CaptureStatus(id, Capturing, None)), Rows(db, Catalog));
  }

  /** What recovery looks at is as before. */
  ghost predicate OnlyCaptures(d: Database, db: Database) {
    Rows(d, Catalog) == Rows(db, Catalog) && Rows(d, Operations) == Rows(db, Operations) && Fenced(d) == Fenced(db) && Floor(d) == Floor(db)
  }

  lemma AbandonKeeps(cfg: Config, db: Database, log: Log, id: string, ws: seq<Mutation>, overflow: bool)
    requires Inv(cfg, db, log) && AbandonOutcome(db, id) == Write(ws)
    ensures Inv(cfg, Committed(db, ws, overflow), log) && Promises(Committed(db, ws, overflow), db) && Committable(db, ws)
    ensures OnlyCaptures(Committed(db, ws, overflow), db) && Untouched(Committed(db, ws, overflow), db, Captures)
    ensures Rows(Committed(db, ws, overflow), Captures) == Rows(db, Captures)[Name(id) := Capture(CaptureStatus(id, Abandoned, None))]
  {
    HolderlessStep(cfg, Rows(db, Captures), StoreId(db), MetaNum(db, CapturedThrough), id, Abandoned);
    StatusEffect(db, CaptureStatus(id, Abandoned, None), ws);
    StatusCommit(cfg, db, log, CaptureStatus(id, Abandoned, None), ws, overflow);
    CapturesUntouched(ApplyAll(db, ws), db, Rows(db, Captures)[Name(id) := Capture(CaptureStatus(id, Abandoned, None))]);
    UntouchedCommit(db, ws, overflow, Captures);
  }

  lemma CapturesUntouched(d: Database, db: Database, captures: Rowset)
    requires CapturesWritten(d, db, captures, Rows(db, Catalog), MetaNum(db, CapturedThrough))
    ensures Untouched(d, db, Captures)
  {
    assert TableOf(d, Events) == TableOf(db, Events);
  }

  lemma KeyIsId(cfg: Config, captures: Rowset, storeId: string, captured: nat, id: string)
    requires CapturesOk(cfg, captures, storeId, captured) && Name(id) in captures
    ensures captures[Name(id)].Capture? && captures[Name(id)].p.setId == id
    ensures Held(captures[Name(id)].p.state) ==> captures[Name(id)].p.manifest.Some?
  {
    assert CaptureShape(cfg, captures, Name(id), storeId, captured);
  }

  lemma UploadKeeps(cfg: Config, db: Database, log: Log, id: string, stored: bool, ws: seq<Mutation>, overflow: bool)
    requires Inv(cfg, db, log) && UploadOutcome(db, id, stored) == Write(ws)
    ensures Inv(cfg, Committed(db, ws, overflow), log) && Advances(Committed(db, ws, overflow), db) && Committable(db, ws)
    ensures OnlyCaptures(Committed(db, ws, overflow), db)
  {
    KeyIsId(cfg, Rows(db, Captures), StoreId(db), MetaNum(db, CapturedThrough), id);
    var st := StateOf(db, id).value;
    ProgressTable(cfg, Rows(db, Captures), StoreId(db), MetaNum(db, CapturedThrough), id, st.manifest.value, Sealed, Uploaded);
    var next := CaptureStatus(id, Uploaded, Some(st.manifest.value));
    StatusEffect(db, next, ws);
    StatusCommit(cfg, db, log, next, ws, overflow);
    ShownInFlight(Committed(db, ws, overflow), db, id, Capture(next), Rows(db, Catalog));
  }

  /** `snapshot` is an earlier state of this store, since when nothing was sealed. */
  ghost predicate SnapshotOf(cfg: Config, snapshot: Database, was: Log, db: Database, log: Log) {
    && Inv(cfg, snapshot, was) && was <= log && VersionOf(snapshot) == V2 && VersionOf(db) == V2
    && Promises(db, snapshot) && MetaNum(snapshot, CapturedThrough) == MetaNum(db, CapturedThrough)
  }

  /** The range packed from the snapshot continues the sealed ranges of the live store. */
  lemma SealScope(cfg: Config, db: Database, log: Log, snapshot: Database, was: Log, id: string, m: Manifest)
    requires SnapshotOf(cfg, snapshot, was, db, log) && ScopeOf(cfg, snapshot, id, m) && Inv(cfg, db, log)
    ensures var captured := MetaNum(db, CapturedThrough);
      if m.recordCount > 0 then m.from == captured + 1 && m.through == m.highWater >= m.from else captured == m.highWater
    ensures m.storeId == StoreId(db) && Floor(db) <= m.highWater <= Head(db)
  {}

  lemma SealCommit(cfg: Config, db: Database, ws: seq<Mutation>, log: Log, id: string, m: Manifest, overflow: bool)
    requires Inv(cfg, db, log) && VersionOf(db) == V2 && ValidManifest(m)
    requires Get(db, Captures, Name(id)) == Some(Capture(CaptureStatus(id, Capturing, None)))
    requires m.setId == id && m.storeId == StoreId(db) && m.environment == cfg.environment && Floor(db) <= m.highWater <= Head(db)
    requires if m.recordCount > 0 then m.from == MetaNum(db, CapturedThrough) + 1 && m.through == m.highWater >= m.from
             else MetaNum(db, CapturedThrough) == m.highWater
    requires CapturesWritten(ApplyAll(db, ws), db, Rows(db, Captures)[Name(id) := Capture(CaptureStatus(id, Sealed, Some(m)))],
                             Rows(db, Catalog), m.highWater)
    requires ws != [] && Applicable(db, ws) && DomainWrites(ws) && forall w <- ws :: Replayable(w)
    ensures Inv(cfg, Committed(db, ws, overflow), log) && Promises(Committed(db, ws, overflow), db)
    ensures Committable(db, ws) && OnlyCaptures(Committed(db, ws, overflow), db)
    ensures MetaNum(Committed(db, ws, overflow), CapturedThrough) == m.highWater
  {
    var st := CaptureStatus(id, Sealed, Some(m));
    SealTable(cfg, Rows(db, Captures), StoreId(db), MetaNum(db, CapturedThrough), id, m);
    CatalogUntouched(cfg, Rows(db, Catalog), Rows(db, Captures), Floor(db), id, st);
    CapturesCommit(cfg, db, ws, log, Rows(db, Captures)[Name(id) := Capture(st)], Rows(db, Catalog), m.highWater, overflow);
  }

  /** The set is captured from a snapshot while inserts, retirements and evictions go on; the
      seal still keeps the invariant of the live store. */
  lemma SealKeeps(cfg: Config, db: Database, log: Log, snapshot: Database, was: Log, id: string, m: Manifest,
                  ws: seq<Mutation>, overflow: bool)
    requires Inv(cfg, db, log) && SnapshotOf(cfg, snapshot, was, db, log) && ScopeOf(cfg, snapshot, id, m)
    requires SealOutcome(db, id, m) == Write(ws)
    ensures Inv(cfg, Committed(db, ws, overflow), log) && Promises(Committed(db, ws, overflow), db)
    ensures Committable(db, ws) && OnlyCaptures(Committed(db, ws, overflow), db)
    ensures MetaNum(Committed(db, ws, overflow), CapturedThrough) == Head(snapshot)
  {
    SealScope(cfg, db, log, snapshot, was, id, m);
    SealEffect(db, id, m, ws);
    SealCommit(cfg, db, ws, log, id, m, overflow);
  }

  /** What a verification that writes has established. */
  lemma VerifyDecides(cfg: Config, db: Database, id: string, completion: Completion, now: nat, ws: seq<Mutation>) returns (m: Manifest)
    requires VerifyOutcome(cfg, db, id, completion, now) == Write(ws) && ws != [] && Captures in db && Catalog in db
    requires CapturesOk(cfg, Rows(db, Captures), StoreId(db), MetaNum(db, CapturedThrough))
    requires CatalogOk(cfg, Rows(db, Catalog), Rows(db, Captures), Floor(db))
    ensures Get(db, Captures, Name(id)) == Some(Capture(CaptureStatus(id, Uploaded, Some(m)))) && Name(id) !in Rows(db, Catalog)
    ensures CompletionOk(completion, m, m, cfg.keys) && HasVersion(db, V2) && !Fenced(db)
    ensures CapturesWritten(ApplyAll(db, ws), db, Rows(db, Captures)[Name(id) := Capture(CaptureStatus(id, Verified, Some(m)))],
                            Rows(db, Catalog)[Name(id) := Entry(CatalogEntry(m, m, completion))], MetaNum(db, CapturedThrough))
    ensures Applicable(db, ws) && DomainWrites(ws) && forall w <- ws :: Replayable(w)
  {
    KeyIsId(cfg, Rows(db, Captures), StoreId(db), MetaNum(db, CapturedThrough), id);
    m := StateOf(db, id).value.manifest.value;
    VerifyEffect(db, id, m, CatalogEntry(m, m, completion), ws);
  }

  lemma VerifyKeeps(cfg: Config, db: Database, log: Log, id: string, completion: Completion, now: nat, ws: seq<Mutation>, overflow: bool)
    requires Inv(cfg, db, log) && VerifyOutcome(cfg, db, id, completion, now) == Write(ws)
    ensures Inv(cfg, Committed(db, ws, overflow), log) && Advances(Committed(db, ws, overflow), db)
    ensures ws != [] ==> Committable(db, ws)
  {
    if ws != [] {
      VerifyNeedsV2(cfg, db, id, completion, now);
      var m := VerifyDecides(cfg, db, id, completion, now, ws);
      VerifyCommit(cfg, db, ws, log, id, completion, m, overflow);
    }
  }

  lemma VerifyNeedsV2(cfg: Config, db: Database, id: string, completion: Completion, now: nat)
    requires VerifyOutcome(cfg, db, id, completion, now).Write?
    ensures HasVersion(db, V2)
  {}

  lemma VerifyCommit(cfg: Config, db: Database, ws: seq<Mutation>, log: Log, id: string, completion: Completion, m: Manifest, overflow: bool)
    requires Inv(cfg, db, log) && HasVersion(db, V2) && CompletionOk(completion, m, m, cfg.keys)
    requires Get(db, Captures, Name(id)) == Some(Capture(CaptureStatus(id, Uploaded, Some(m)))) && Name(id) !in Rows(db, Catalog)
    requires CapturesWritten(ApplyAll(db, ws), db, Rows(db, Captures)[Name(id) := Capture(CaptureStatus(id, Verified, Some(m)))],
                             Rows(db, Catalog)[Name(id) := Entry(CatalogEntry(m, m, completion))], MetaNum(db, CapturedThrough))
    requires ws != [] && Applicable(db, ws) && DomainWrites(ws) && forall w <- ws :: Replayable(w)
    ensures Inv(cfg, Committed(db, ws, overflow), log) && Advances(Committed(db, ws, overflow), db) && Committable(db, ws)
  {
    var entry, st := CatalogEntry(m, m, completion), CaptureStatus(id, Verified, Some(m));
    ProgressTable(cfg, Rows(db, Captures), StoreId(db), MetaNum(db, CapturedThrough), id, m, Uploaded, Verified);
    CatalogGains(cfg, Rows(db, Catalog), Rows(db, Captures), Floor(db), id, entry);
    CapturesCommit(cfg, db, ws, log, Rows(db, Captures)[Name(id) := Capture(st)], Rows(db, Catalog)[Name(id) := Entry(entry)],
                   MetaNum(db, CapturedThrough), overflow);
    ShownInFlight(Committed(db, ws, overflow), db, id, Capture(st), Rows(db, Catalog)[Name(id) := Entry(entry)]);
  }

  // ---- what the partition means -----------------------------------------------------------------------------------

  function HighWaterOf(catalog: Rowset, k: Key): nat requires k in catalog {
    if catalog[k].Entry? then catalog[k].c.manifest.highWater else 0
  }

  /** `h` is the worker's single maximum over the verified sets. */
  ghost predicate IsProtected(catalog: Rowset, h: nat) {
    && (forall k <- catalog :: HighWaterOf(catalog, k) <= h)
    && (h == 0 || exists k <- catalog :: HighWaterOf(catalog, k) == h)
  }

  /** The single maximum the worker reports is the exact end of what is protected: the
      verified ranges are 1..h with no hole, although the maximum never looks for one. */
  lemma ProtectedPrefix(cfg: Config, db: Database, h: nat)
    requires ProtocolOk(cfg, db) && IsProtected(Rows(db, Catalog), h)
    ensures forall n: nat :: SomeCatalog(Rows(db, Catalog), n) <==> 1 <= n <= h
  {
    forall n: nat ensures SomeCatalog(Rows(db, Catalog), n) <==> 1 <= n <= h {
      ProtectedAt(cfg, db, h, n);
    }
  }

  lemma ProtectedAt(cfg: Config, db: Database, h: nat, n: nat)
    requires ProtocolOk(cfg, db) && IsProtected(Rows(db, Catalog), h)
    ensures SomeCatalog(Rows(db, Catalog), n) <==> 1 <= n <= h
  {
    hide Rows, Head;
    var catalog, captures := Rows(db, Catalog), Rows(db, Captures);
    if SomeCatalog(catalog, n) {
      var k :| k in catalog && CatalogHolds(catalog, k, n);
      assert CatalogEntryOk(cfg, catalog, captures, k);
      assert HighWaterOf(catalog, k) <= h;
    } else if 1 <= n <= h {
      var j :| j in catalog && HighWaterOf(catalog, j) == h;
      BelowVerified(cfg, catalog, captures, StoreId(db), MetaNum(db, CapturedThrough), Floor(db), j, n);
      assert false;
    }
  }

  /** Everything up to the high water of a verified set is verified. */
  lemma BelowVerified(cfg: Config, catalog: Rowset, captures: Rowset, storeId: string, captured: nat, floor: nat, j: Key, n: nat)
    requires CapturesOk(cfg, captures, storeId, captured) && CatalogOk(cfg, catalog, captures, floor)
    requires j in catalog && 1 <= n <= HighWaterOf(catalog, j)
    ensures SomeCatalog(catalog, n)
  {
    hide ValidManifest, CompletionOk;
    assert CatalogEntryOk(cfg, catalog, captures, j) && CaptureShape(cfg, captures, j, storeId, captured);
    assert SomeCapture(captures, n);
    var k :| k in captures && CaptureHolds(captures, k, n);
    assert Frontier(captures, k, captured);
    assert captures[k].p.state == Verified;
    assert CatalogEntryOk(cfg, catalog, captures, k) && CatalogHolds(catalog, k, n);
  }
}
