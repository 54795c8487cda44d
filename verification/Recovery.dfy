/** The recovery fence of a restored store, its admission, and the staging of a snapshot. */
module Recovery {
  import opened Types
  import opened Store
  import opened Gateway
  import opened Replay
  import opened Archive
  import opened Invariant
  import opened Lifecycle

  const MINUTE: nat := 60_000_000_000

  /** What an approver compares. A stored operation or entry carries its own id, so the set
      of values stands for the digest over the bucket in key order. */
  datatype RecoveryState = RecoveryState(
    environment: string, storeId: string, highWater: nat, archiveFloor: nat,
    operations: set<RetirementStatus>, catalog: set<CatalogEntry>, fenced: bool)

  function ReadState(cfg: Config, db: Database): RecoveryState {
    var operations, catalog := Rows(db, Operations), Rows(db, Catalog);
    RecoveryState(cfg.environment, StoreId(db), Head(db), Floor(db),
                  set k | k in operations && operations[k].Operation? :: operations[k].o,
                  set k | k in catalog && catalog[k].Entry? :: catalog[k].c,
                  Fenced(db))
  }

  /** Everything but the fence itself. */
  predicate SameReading(a: RecoveryState, b: RecoveryState) { a == b.(fenced := a.fenced) }

  predicate ApprovalValid(cfg: Config, a: SignedApproval, now: nat) {
    var p := a.payload;
    && a.keyId in cfg.recoveryKeys && a.signature == Signed(cfg.recoveryKeys[a.keyId], p) && p.keyId == a.keyId
    && p.archiveFloor <= p.highWater
    && 0 < p.approvedAt <= now + MINUTE && now < p.expiresAt
    && p.approvedAt < p.expiresAt <= p.approvedAt + 15 * MINUTE
  }

  predicate ApprovalMatches(p: RecoveryApproval, st: RecoveryState) {
    && p.environment == st.environment && p.storeId == st.storeId && p.highWater == st.highWater
    && p.archiveFloor == st.archiveFloor && p.operations == st.operations && p.catalog == st.catalog
  }

  function SetRecoveryOutcome(): Outcome { Write([Put(Meta, Field(RecoveryFence), Flag)]) }

  function AdmitOutcome(cfg: Config, db: Database, a: SignedApproval, now: nat): Outcome {
    if !ApprovalValid(cfg, a, now) then Refuse(LifecycleConflict)
    else if !Fenced(db) || !ApprovalMatches(a.payload, ReadState(cfg, db)) then Refuse(LifecycleConflict)
    else Write([Put(Meta, Field(RecoveryAdmission), Approval(a)), Delete(Meta, Field(RecoveryFence))])
  }

  // ---- when an approval is admitted ------------------------------------------------------------------

  /** The approval was signed for exactly this store as it is now: nothing in it is older,
      newer or another store's. */
  predicate SignedFor(cfg: Config, p: RecoveryApproval, db: Database) {
    && p.environment == cfg.environment && p.storeId == StoreId(db) && p.highWater == Head(db) && p.archiveFloor == Floor(db)
    && (forall st <- p.operations :: exists k <- Rows(db, Operations) :: Rows(db, Operations)[k] == Operation(st))
    && (forall k <- Rows(db, Operations) :: Rows(db, Operations)[k].Operation? ==> Rows(db, Operations)[k].o in p.operations)
    && (forall c <- p.catalog :: exists k <- Rows(db, Catalog) :: Rows(db, Catalog)[k] == Entry(c))
    && (forall k <- Rows(db, Catalog) :: Rows(db, Catalog)[k].Entry? ==> Rows(db, Catalog)[k].c in p.catalog)
  }

  /** An admission is decided if and only if the fence is up and a valid approval was signed
      for the store as it is; anything else is a conflict. */
  lemma AdmitsExactly(cfg: Config, db: Database, a: SignedApproval, now: nat)
    ensures AdmitOutcome(cfg, db, a, now).Write? <==> ApprovalValid(cfg, a, now) && Fenced(db) && SignedFor(cfg, a.payload, db)
    ensures AdmitOutcome(cfg, db, a, now).Refuse? ==> AdmitOutcome(cfg, db, a, now) == Refuse(LifecycleConflict)
  {
    hide ApprovalValid, Fenced, StoreId, Head, Floor, Rows;
    OperationsSigned(db, a.payload.operations);
    CatalogSigned(db, a.payload.catalog);
  }

  lemma OperationsSigned(db: Database, signed: set<RetirementStatus>)
    ensures var rows := Rows(db, Operations);
      signed == (set k | k in rows && rows[k].Operation? :: rows[k].o) <==>
        (forall st <- signed :: exists k <- rows :: rows[k] == Operation(st)) && (forall k <- rows :: rows[k].Operation? ==> rows[k].o in signed)
  {
    hide Rows;
    var rows := Rows(db, Operations);
    var all := set k | k in rows && rows[k].Operation? :: rows[k].o;
    if signed == all {
      forall st | st in signed ensures exists k <- rows :: rows[k] == Operation(st) {
        var k :| k in rows && rows[k].Operation? && rows[k].o == st;
      }
    }
  }

  lemma CatalogSigned(db: Database, signed: set<CatalogEntry>)
    ensures var rows := Rows(db, Catalog);
      signed == (set k | k in rows && rows[k].Entry? :: rows[k].c) <==>
        (forall c <- signed :: exists k <- rows :: rows[k] == Entry(c)) && (forall k <- rows :: rows[k].Entry? ==> rows[k].c in signed)
  {
    hide Rows;
    var rows := Rows(db, Catalog);
    var all := set k | k in rows && rows[k].Entry? :: rows[k].c;
    if signed == all {
      forall c | c in signed ensures exists k <- rows :: rows[k] == Entry(c) {
        var k :| k in rows && rows[k].Entry? && rows[k].c == c;
      }
    }
  }

  /** An approval is valid if and only if a configured recovery key signed it, under its own
      name, for a window of at most fifteen minutes that holds the present. */
  lemma ApprovalExactly(cfg: Config, a: SignedApproval, now: nat)
    ensures ApprovalValid(cfg, a, now) <==>
              && a.keyId in cfg.recoveryKeys && a.payload.keyId == a.keyId && a.signature == Signed(cfg.recoveryKeys[a.keyId], a.payload)
              && a.payload.archiveFloor <= a.payload.highWater
              && 0 < a.payload.approvedAt && a.payload.approvedAt <= now + MINUTE && now < a.payload.expiresAt
              && a.payload.approvedAt < a.payload.expiresAt && a.payload.expiresAt <= a.payload.approvedAt + 15 * MINUTE
  {}

  /** A valid approval is fresh, short-lived and made with a configured key over exactly what
      it says; another key or another payload never validates its signature. */
  lemma ApprovalBinds(cfg: Config, a: SignedApproval, b: SignedApproval, now: nat)
    requires ApprovalValid(cfg, a, now) && ApprovalValid(cfg, b, now) && a.signature == b.signature
    ensures a.payload == b.payload && a.keyId in cfg.recoveryKeys && a.payload.approvedAt <= now + MINUTE && now < a.payload.approvedAt + 15 * MINUTE
  {}

  // ---- the effect ---------------------------------------------------------------------------------

  /** `d` is `db` with another fence or admission. */
  ghost predicate FenceWritten(d: Database, db: Database) {
    && d.Keys == db.Keys && (forall b :: b != Meta ==> TableOf(d, b) == TableOf(db, b))
    && (forall f :: f != RecoveryFence && f != RecoveryAdmission ==> Get(d, Meta, Field(f)) == Get(db, Meta, Field(f)))
    && (MetaRowsOk(Rows(db, Meta)) ==> MetaRowsOk(Rows(d, Meta)))
  }

  lemma FenceReadings(d: Database, db: Database)
    requires FenceWritten(d, db)
    ensures EraOf(d) == EraOf(db) && StoreId(d) == StoreId(db) && Floor(d) == Floor(db) && Head(d) == Head(db)
    ensures AgeFloor(d) == AgeFloor(db) && Generation(d) == Generation(db) && HasSession(d) == HasSession(db)
    ensures forall f :: f != RecoveryFence && f != RecoveryAdmission ==> MetaNum(d, f) == MetaNum(db, f)
    ensures forall b :: b != Meta ==> Rows(d, b) == Rows(db, b)
  {
    hide MetaRowsOk, Get, TableOf, VersionOf, AgeFloor, StoreId, HasSession, MetaNum;
    MetaRead(d, db, {RecoveryFence, RecoveryAdmission});
  }

  lemma FenceLedger(d: Database, db: Database, log: Log)
    requires LedgerOk(db, log) && FenceWritten(d, db)
    ensures LedgerOk(d, log)
  {
    FenceReadings(d, db);
  }

  lemma FenceProtocol(cfg: Config, d: Database, db: Database)
    requires ProtocolOk(cfg, db) && FenceWritten(d, db)
    ensures ProtocolOk(cfg, d)
  {
    FenceReadings(d, db);
  }

  lemma FenceSchema(d: Database, db: Database)
    requires SchemaOk(db) && FenceWritten(d, db)
    ensures SchemaOk(d)
  {
    hide MetaNum, Floor, Head, MetaRowsOk, StoreId, Rows, Generation, HasSession, EraOk, TableOf;
    FenceReadings(d, db);
    assert Get(d, Meta, Field(LegacyThrough)) == Get(db, Meta, Field(LegacyThrough));
    assert Get(d, Meta, Field(BackfilledThrough)) == Get(db, Meta, Field(BackfilledThrough));
    assert Get(d, Meta, Field(LegacyAgeFloor)) == Get(db, Meta, Field(LegacyAgeFloor));
  }

  lemma FencePromises(d: Database, db: Database)
    requires FenceWritten(d, db)
    ensures Settled(d, db)
  {
    hide MetaNum, StoreId, EraOf, AgeFloor, Floor, MetaRowsOk, Generation, Rows, ReceiptTime, TableOf, HasSession, Head;
    FenceReadings(d, db);
    ReceiptFrame(d, db);
  }

  lemma ReadingFrame(cfg: Config, d: Database, e: Database)
    requires SameViews(d, e)
    ensures ReadState(cfg, d) == ReadState(cfg, e)
  {
    SameReadings(d, e);
    assert Rows(d, Operations) == Rows(e, Operations) && Rows(d, Catalog) == Rows(e, Catalog);
  }

  lemma FenceReading(cfg: Config, d: Database, db: Database)
    requires FenceWritten(d, db)
    ensures SameReading(ReadState(cfg, d), ReadState(cfg, db))
  {
    FenceReadings(d, db);
    assert Rows(d, Operations) == Rows(db, Operations) && Rows(d, Catalog) == Rows(db, Catalog);
  }

  /** Nothing changed but the fence. */
  ghost predicate Settled(d: Database, db: Database) {
    Promises(d, db) && InFlightKept(d, db) && Floor(d) == Floor(db) && Rows(d, Operations) == Rows(db, Operations)
  }

  lemma FenceCommit(cfg: Config, db: Database, ws: seq<Mutation>, log: Log, overflow: bool)
    requires Inv(cfg, db, log) && FenceWritten(ApplyAll(db, ws), db)
    requires ws != [] && Applicable(db, ws) && DomainWrites(ws) && forall w <- ws :: Replayable(w)
    ensures Inv(cfg, Committed(db, ws, overflow), log) && Settled(Committed(db, ws, overflow), db) && Committable(db, ws)
    ensures SameReading(ReadState(cfg, Committed(db, ws, overflow)), ReadState(cfg, db))
    ensures Fenced(Committed(db, ws, overflow)) == Fenced(ApplyAll(db, ws))
  {
    var d := ApplyAll(db, ws);
    FenceLedger(d, db, log);
    FenceProtocol(cfg, d, db);
    FenceSchema(d, db);
    FencePromises(d, db);
    CommitKeeps(cfg, db, ws, log, overflow);
    CommitSameViews(db, ws, overflow);
    ReadingFrame(cfg, Committed(db, ws, overflow), d);
    FenceReading(cfg, d, db);
  }

  lemma SetRecoveryEffect(db: Database, ws: seq<Mutation>)
    requires Write(ws) == SetRecoveryOutcome() && Meta in db
    ensures FenceWritten(ApplyAll(db, ws), db) && Fenced(ApplyAll(db, ws)) && Applicable(db, ws)
    ensures ws != [] && DomainWrites(ws) && forall w <- ws :: Replayable(w)
  {
    hide FenceWritten, ApplyAll, ApplyOne, Fenced;
    ApplySingle(db, Put(Meta, Field(RecoveryFence), Flag));
    FenceRaised(db);
  }

  lemma FenceRaised(db: Database)
    requires Meta in db
    ensures var d := ApplyOne(db, Put(Meta, Field(RecoveryFence), Flag)); FenceWritten(d, db) && Fenced(d)
  {}

  lemma AdmissionWritten(db: Database, a: SignedApproval)
    requires Meta in db
    ensures var d := ApplyOne(db, Put(Meta, Field(RecoveryAdmission), Approval(a))); FenceWritten(d, db) && Meta in d
  {}

  lemma FenceCleared(db: Database)
    requires Meta in db
    ensures var d := ApplyOne(db, Delete(Meta, Field(RecoveryFence))); FenceWritten(d, db) && !Fenced(d)
  {}

  lemma FenceTwice(c: Database, d: Database, db: Database)
    requires FenceWritten(c, d) && FenceWritten(d, db)
    ensures FenceWritten(c, db)
  {
    hide MetaRowsOk;
  }

  lemma AdmitEffect(cfg: Config, db: Database, a: SignedApproval, now: nat, ws: seq<Mutation>)
    requires AdmitOutcome(cfg, db, a, now) == Write(ws) && Meta in db
    ensures FenceWritten(ApplyAll(db, ws), db) && !Fenced(ApplyAll(db, ws)) && Applicable(db, ws)
    ensures ws != [] && DomainWrites(ws) && forall w <- ws :: Replayable(w)
  {
    hide FenceWritten, ReadState, ApprovalMatches, ApprovalValid, ApplyAll, ApplyOne, Fenced, Get;
    var w := Put(Meta, Field(RecoveryAdmission), Approval(a));
    ApplyPair(db, w, Delete(Meta, Field(RecoveryFence)));
    var d := ApplyOne(db, w);
    AdmissionWritten(db, a);
    FenceCleared(d);
    FenceTwice(ApplyOne(d, Delete(Meta, Field(RecoveryFence))), d, db);
  }

  lemma SetRecoveryKeeps(cfg: Config, db: Database, log: Log, ws: seq<Mutation>, overflow: bool)
    requires Inv(cfg, db, log) && Write(ws) == SetRecoveryOutcome()
    ensures var d := Committed(db, ws, overflow);
      Inv(cfg, d, log) && Settled(d, db) && SameReading(ReadState(cfg, d), ReadState(cfg, db)) && Fenced(d)
    ensures Committable(db, ws)
  {
    SetRecoveryEffect(db, ws);
    FenceCommit(cfg, db, ws, log, overflow);
  }

  lemma AdmitKeeps(cfg: Config, db: Database, log: Log, a: SignedApproval, now: nat, ws: seq<Mutation>, overflow: bool)
    requires Inv(cfg, db, log) && AdmitOutcome(cfg, db, a, now) == Write(ws)
    ensures var d := Committed(db, ws, overflow);
      Inv(cfg, d, log) && Settled(d, db) && SameReading(ReadState(cfg, d), ReadState(cfg, db)) && !Fenced(d)
    ensures Committable(db, ws)
  {
    AdmitEffect(cfg, db, a, now, ws);
    FenceCommit(cfg, db, ws, log, overflow);
  }
}
