/** What the lifecycle operations share: the readiness check, the trusted receipt clock, and
    what no operation ever takes back. */
module Lifecycle {
  import opened Types
  import opened Store
  import opened Gateway
  import opened Replay
  import opened Archive
  import opened Invariant

  /** `ready`: None when lifecycle operations may write. */
  function Ready(cfg: Config, db: Database): Option<Error> {
    if Fenced(db) then Some(Unavailable)
    else if !HasVersion(db, V2) || cfg.environment == "" then Some(LifecycleConflict)
    else None
  }

  /** The receipt time of a sequence; legacy records all carry the time migration ended. */
  function ReceiptTime(db: Database, n: nat): Option<nat> {
    match Get(db, ReceiptTimes, Seq(n))
    case Some(Clock(t)) => if t > 0 then Some(t) else None
    case Some(LegacyClock) => if AgeFloor(db) > 0 then Some(AgeFloor(db)) else None
    case _ => None
  }

  /** The stored self-contained binding names this record. */
  predicate BindsTo(db: Database, r: BillingRecord) {
    Get(db, Ids, Name(r.event.id)) == Some(Bound(BindingOf(r)))
  }

  predicate Retired(db: Database, id: string, st: RetirementStatus) {
    Get(db, Operations, Name(id)) == Some(Operation(st)) && st.Terminal()
  }

  // ---- monotonicity -----------------------------------------------------------------------------

  predicate KeepsRows(after: Rowset, before: Rowset) { forall k <- before :: k in after && after[k] == before[k] }

  /** Nothing that was promised is taken back: the head and the floor only grow, a terminal
      operation, a catalog entry and a receipt time once defined stay as they are. */
  ghost predicate Promises(d: Database, db: Database) {
    && StoreId(d) == StoreId(db) && Head(db) <= Head(d) && Floor(db) <= Floor(d)
    && (VersionOf(db) == V2 ==> VersionOf(d) == V2)
    && KeepsRows(Rows(d, Catalog), Rows(db, Catalog))
    && (forall id, st :: Retired(db, id, st) ==> Retired(d, id, st))
    && (forall n :: ReceiptTime(db, n).Some? ==> ReceiptTime(d, n) == ReceiptTime(db, n))
  }

  predicate InFlight(db: Database, id: string) {
    Get(db, Captures, Name(id)) == Some(Capture(CaptureStatus(id, Capturing, None)))
  }

  /** A set being captured is left alone. */
  ghost predicate InFlightKept(d: Database, db: Database) {
    && MetaNum(d, CapturedThrough) == MetaNum(db, CapturedThrough)
    && forall id :: InFlight(db, id) ==> InFlight(d, id)
  }

  /** No promise taken back, no body deleted, no capture disturbed, the recovery fence as it
      was. */
  ghost predicate Recorded(d: Database, db: Database) {
    Promises(d, db) && InFlightKept(d, db) && Floor(d) == Floor(db) && Fenced(d) == Fenced(db)
  }

  /** The usual step: moreover no retirement operation was written. */
  ghost predicate Advances(d: Database, db: Database) {
    Recorded(d, db) && Rows(d, Operations) == Rows(db, Operations)
  }

  lemma PromisesTrans(c: Database, b: Database, a: Database)
    requires Promises(c, b) && Promises(b, a)
    ensures Promises(c, a)
  {}

  lemma AdvancesTrans(c: Database, b: Database, a: Database)
    requires Advances(c, b) && Advances(b, a)
    ensures Advances(c, a)
  {
    PromisesTrans(c, b, a);
  }

  lemma ReceiptFrame(d: Database, db: Database)
    requires Rows(d, ReceiptTimes) == Rows(db, ReceiptTimes) && AgeFloor(d) == AgeFloor(db)
    ensures forall n :: ReceiptTime(d, n) == ReceiptTime(db, n)
  {}

  lemma PromisesFrame(d: Database, e: Database, db: Database)
    requires SameViews(d, e)
    ensures Promises(e, db) ==> Promises(d, db)
    ensures InFlightKept(e, db) ==> InFlightKept(d, db)
    ensures Floor(d) == Floor(e) && Fenced(d) == Fenced(e) && Rows(d, Operations) == Rows(e, Operations)
  {
    SameReadings(d, e);
    ReceiptFrame(d, e);
    assert Rows(d, Captures) == Rows(e, Captures) && Rows(d, Catalog) == Rows(e, Catalog) && Rows(d, Operations) == Rows(e, Operations);
  }

  /** At version 2 every accepted record has a receipt time. */
  lemma ReceiptTimeDefined(db: Database, log: Log, n: nat)
    requires SchemaOk(db) && LedgerOk(db, log) && VersionOf(db) == V2 && 1 <= n <= |log|
    ensures ReceiptTime(db, n).Some?
  {
    hide SchemaOk, LedgerOk, VersionOf, AgeFloor, Rows;
    TimeStored(db, log, n);
    DatedAtV2(db);
  }

  lemma TimeStored(db: Database, log: Log, n: nat)
    requires LedgerOk(db, log) && VersionOf(db) == V2 && 1 <= n <= |log|
    ensures Seq(n) in Rows(db, ReceiptTimes) && TimeValueOk(Rows(db, ReceiptTimes)[Seq(n)], n, EraOf(db).legacy)
  {
    hide IdsOk, HotOk, ReceiptIdsOk, CacheOk, LogOk, VersionOf, TimeValueOk;
  }

  lemma DatedAtV2(db: Database)
    requires SchemaOk(db) && VersionOf(db) == V2
    ensures AgeFloor(db) > 0
  {
    hide BucketsOk, MetaOk, QuietBeforeV2, JournalWithin, VersionOf;
  }

  /** At version 2 the stored binding of every accepted record is the full one. */
  lemma OriginalBinds(db: Database, log: Log, n: nat)
    requires LogOk(log) && IdsOk(Rows(db, Ids), log, EraOf(db)) && VersionOf(db) == V2 && 1 <= n <= |log|
    ensures Decodes(log[n - 1], n) && BindsTo(db, log[n - 1])
  {
    assert Name(log[n - 1].event.id) in Rows(db, Ids);
  }

  /** One domain write-set committed: views and promises of the state it left. The set is one
      that the compactor can journal and replay. */
  lemma CommitKeeps(cfg: Config, db: Database, ws: seq<Mutation>, log: Log, overflow: bool)
    requires SchemaOk(db) && ws != [] && DomainWrites(ws) && Applicable(db, ws)
    requires HasSession(db) ==> forall w <- ws :: Replayable(w)
    requires Views(cfg, ApplyAll(db, ws), log) && Promises(ApplyAll(db, ws), db)
    ensures Inv(cfg, Committed(db, ws, overflow), log) && Promises(Committed(db, ws, overflow), db)
    ensures InFlightKept(ApplyAll(db, ws), db) ==> InFlightKept(Committed(db, ws, overflow), db)
    ensures Recorded(ApplyAll(db, ws), db) ==> Recorded(Committed(db, ws, overflow), db)
    ensures Rows(Committed(db, ws, overflow), Operations) == Rows(ApplyAll(db, ws), Operations)
    ensures Floor(Committed(db, ws, overflow)) == Floor(ApplyAll(db, ws)) && Fenced(Committed(db, ws, overflow)) == Fenced(ApplyAll(db, ws))
    ensures Committable(db, ws)
  {
    GatewayKeeps(cfg, db, ws, overflow, log);
    CommitSameViews(db, ws, overflow);
    PromisesFrame(Committed(db, ws, overflow), ApplyAll(db, ws), db);
  }
}
