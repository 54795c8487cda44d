/** Retirement of hot bodies: plan, apply and abort. */
module Retirement {
  import opened Types
  import opened Store
  import opened Gateway
  import opened Replay
  import opened Archive
  import opened Invariant
  import opened Lifecycle

  // ---- the operations -----------------------------------------------------------------------------

  predicate PlanShapeOk(p: RetirementPlan) {
    && SafeId(p.operationId) && SafeId(p.setId) && LowerHex(p.planDigest, 32)
    && 0 < p.from <= p.through && p.through - p.from < 1000
  }

  function StatusFor(p: RetirementPlan): RetirementStatus {
    RetirementStatus(p.operationId, p.environment, p.storeId, p.from, p.through, p.planDigest,
                     Pending, Unsealed, 0, 0, p.setId)
  }

  /** The status was made for this plan, whatever became of it. */
  predicate StatusOf(st: RetirementStatus, p: RetirementPlan) {
    st == StatusFor(p).(state := st.state, completedAt := st.completedAt, receipt := st.receipt,
                        retiredThrough := st.retiredThrough)
  }

  predicate AgedBy(db: Database, n: nat, retention: nat, now: nat) {
    ReceiptTime(db, n).Some? && ReceiptTime(db, n).value + retention <= now
  }

  function RecordRefusal(cfg: Config, db: Database, n: nat, now: nat): Option<Error> {
    if !AgedBy(db, n, cfg.retention, now) then Some(LifecycleConflict)
    else match Get(db, Events, Seq(n))
      case Some(Body(r)) => if Decodes(r, n) && BindsTo(db, r) then None else Some(Unavailable)
      case _ => Some(Unavailable)
  }

  /** The first refusal among from..through. */
  function RangeRefusal(cfg: Config, db: Database, from: nat, through: nat, now: nat): Option<Error>
    decreases through + 1 - from
  {
    if from > through then None
    else match RecordRefusal(cfg, db, from, now)
      case Some(e) => Some(e)
      case None => RangeRefusal(cfg, db, from + 1, through, now)
  }

  predicate SetCovers(cfg: Config, db: Database, set_: string, from: nat, through: nat) {
    match Get(db, Catalog, Name(set_))
    case Some(Entry(c)) =>
      c.manifest.from <= from && through <= c.manifest.through
      && CompletionOk(c.completion, c.manifest, c.manifestBytes, cfg.keys)
    case _ => false
  }

  /** `retirementCoverage`. */
  function CoverageRefusal(cfg: Config, db: Database, set_: string, from: nat, through: nat, now: nat): Option<Error> {
    if !SetCovers(cfg, db, set_, from, through) then Some(LifecycleConflict)
    else RangeRefusal(cfg, db, from, through, now)
  }

  function PlanOutcome(cfg: Config, db: Database, p: RetirementPlan, now: nat): Outcome {
    if !cfg.retirementEnabled || !PlanShapeOk(p) then Refuse(LifecycleConflict)
    else match Ready(cfg, db)
      case Some(e) => Refuse(e)
      case None =>
        if p.environment != cfg.environment || p.storeId != StoreId(db) then Refuse(LifecycleConflict)
        else match Get(db, Operations, Name(p.operationId))
          case Some(Operation(st)) => if StatusOf(st, p) then Write([]) else Refuse(LifecycleConflict)
          case Some(_) => Refuse(Unavailable)
          case None =>
            if p.from != Floor(db) + 1 || p.through > Head(db) then Refuse(LifecycleConflict)
            else match CoverageRefusal(cfg, db, p.setId, p.from, p.through, now)
              case Some(e) => Refuse(e)
              case None => Write([PutOperation(p.operationId, StatusFor(p).(retiredThrough := Floor(db)))])
  }

  function PutOperation(id: string, st: RetirementStatus): Mutation { Put(Operations, Name(id), Operation(st)) }

  function Deletes(from: nat, through: nat): seq<Mutation> {
    if through < from then [] else
      (if through == 0 then [] else Deletes(from, through - 1)) + [Delete(Events, Seq(through))]
  }

  function CompletedStatus(st: RetirementStatus, now: nat): RetirementStatus {
    SealStatus(st.(state := Completed, completedAt := now, retiredThrough := st.through))
  }

  function ApplyWrites(id: string, st: RetirementStatus, now: nat): seq<Mutation> {
    Deletes(st.from, st.through)
    + [Put(Meta, Field(ArchiveFloor), Num(st.through)), PutOperation(id, CompletedStatus(st, now))]
  }

  /** `seen` is the status read before the transaction, when the authority was asked. */
  function ApplyOutcome(cfg: Config, db: Database, id: string, seen: Option<RetirementStatus>, authority: bool, now: nat): Outcome {
    if !SafeId(id) then Refuse(LifecycleConflict)
    else match seen
      case None => Refuse(OperationNotFound)
      case Some(st) =>
        if st.state == Completed then Write([])
        else if st.state != Pending || !cfg.retirementEnabled || !authority then Refuse(LifecycleConflict)
        else match Ready(cfg, db)
          case Some(e) => Refuse(e)
          case None =>
            if Get(db, Operations, Name(id)) != Some(Operation(st)) || Floor(db) + 1 != st.from then Refuse(LifecycleConflict)
            else match CoverageRefusal(cfg, db, st.setId, st.from, st.through, now)
              case Some(e) => Refuse(e)
              case None => Write(ApplyWrites(id, st, now))
  }

  function AbortedStatus(st: RetirementStatus, floor: nat, now: nat): RetirementStatus {
    SealStatus(st.(state := Aborted, completedAt := now, retiredThrough := floor))
  }

  /** The status the transaction aborts: the stored one, else what was read or made before. */
  function AbortTarget(db: Database, p: RetirementPlan, seen: Option<RetirementStatus>): Option<RetirementStatus> {
    match Get(db, Operations, Name(p.operationId))
    case Some(Operation(st)) => Some(st)
    case Some(_) => None
    case None => Some(match seen case Some(st) => st case None => StatusFor(p))
  }

  /** It also leaves a tombstone for an operation this store never saw. Nothing compares the
      range of such a tombstone with the head. */
  function AbortOutcome(cfg: Config, db: Database, p: RetirementPlan, seen: Option<RetirementStatus>, authority: bool, now: nat): Outcome {
    if seen.Some? && !StatusOf(seen.value, p) then Refuse(LifecycleConflict)
    else if seen.Some? && seen.value.Terminal() then Write([])
    else if !PlanShapeOk(p) || !authority then Refuse(LifecycleConflict)
    else match Ready(cfg, db)
      case Some(e) => Refuse(e)
      case None =>
        if p.environment != cfg.environment || p.storeId != StoreId(db) then Refuse(LifecycleConflict)
        else match AbortTarget(db, p, seen)
          case None => Refuse(Unavailable)
          case Some(st) =>
            if st.Terminal() then Write([])
            else Write([PutOperation(p.operationId, AbortedStatus(st, Floor(db), now))])
  }

  // ---- coverage ---------------------------------------------------------------------------------------

  lemma {:induction false} RangeAccepted(cfg: Config, db: Database, from: nat, through: nat, now: nat)
    ensures RangeRefusal(cfg, db, from, through, now) == None
            <==> forall n :: from <= n <= through ==> RecordRefusal(cfg, db, n, now) == None
    decreases through + 1 - from
  {
    if from <= through { RangeAccepted(cfg, db, from + 1, through, now); }
  }

  lemma HotAccepted(cfg: Config, db: Database, log: Log, n: nat, now: nat)
    requires Inv(cfg, db, log) && VersionOf(db) == V2 && Floor(db) < n <= Head(db)
    ensures RecordRefusal(cfg, db, n, now) == if AgedBy(db, n, cfg.retention, now) then None else Some(LifecycleConflict)
  {
    assert Decodes(log[n - 1], n);
    assert Name(log[n - 1].event.id) in Rows(db, Ids);
    assert Seq(n) in Rows(db, Events);
  }

  /** For hot records the coverage check depends on nothing but the signed set and the age. */
  lemma CoverageMeans(cfg: Config, db: Database, log: Log, set_: string, from: nat, through: nat, now: nat)
    requires Inv(cfg, db, log) && VersionOf(db) == V2 && Floor(db) < from && through <= Head(db)
    ensures CoverageRefusal(cfg, db, set_, from, through, now) == None <==>
            && SetCovers(cfg, db, set_, from, through)
            && forall n :: from <= n <= through ==> AgedBy(db, n, cfg.retention, now)
  {
    RangeAccepted(cfg, db, from, through, now);
    forall n | from <= n <= through
      ensures RecordRefusal(cfg, db, n, now) == None <==> AgedBy(db, n, cfg.retention, now)
    {
      HotAccepted(cfg, db, log, n, now);
    }
  }

  // ---- writing one operation record -------------------------------------------------------------------

  /** `d` is `db` with one operation record stored. */
  ghost predicate OperationWritten(d: Database, db: Database, id: string, st: RetirementStatus) {
    && SameTables(d, db, AllBuckets - {Operations})
    && Rows(d, Operations) == Rows(db, Operations)[Name(id) := Operation(st)]
  }

  lemma PutOperationEffect(db: Database, id: string, st: RetirementStatus, ws: seq<Mutation>)
    requires Operations in db && ws == [PutOperation(id, st)]
    ensures OperationWritten(ApplyAll(db, ws), db, id, st) && Applicable(db, ws)
    ensures ws != [] && DomainWrites(ws) && forall w <- ws :: Replayable(w)
  {
    ApplySingle(db, PutOperation(id, st));
  }

  /** No stored completed or aborted record is in the way. */
  predicate Open(operations: Rowset, id: string) {
    Name(id) in operations ==> operations[Name(id)].Operation? && !operations[Name(id)].o.Terminal()
  }

  lemma OperationsPut(cfg: Config, operations: Rowset, storeId: string, floor: nat, id: string, st: RetirementStatus)
    requires OperationsOk(cfg, operations, storeId, floor) && Open(operations, id)
    requires OperationOk(cfg, Name(id), Operation(st), storeId, floor) && st.state != Completed
    ensures OperationsOk(cfg, operations[Name(id) := Operation(st)], storeId, floor)
  {
    var after := operations[Name(id) := Operation(st)];
    forall k, n: nat ensures OperationHolds(after, k, n) <==> OperationHolds(operations, k, n) {}
    forall n: nat ensures SomeOperation(after, n) <==> SomeOperation(operations, n) {
      if SomeOperation(after, n) {
        var k :| k in after && OperationHolds(after, k, n);
        assert OperationHolds(operations, k, n);
      }
      if SomeOperation(operations, n) {
        var k :| k in operations && OperationHolds(operations, k, n);
        assert OperationHolds(after, k, n);
      }
    }
  }

  lemma OperationWrittenLedger(d: Database, db: Database, log: Log, id: string, st: RetirementStatus)
    requires LedgerOk(db, log) && OperationWritten(d, db, id, st)
    ensures LedgerOk(d, log)
  {
    OtherTables(d, db, id, st);
    SameMeta(d, db);
  }

  lemma OperationWrittenProtocol(cfg: Config, d: Database, db: Database, id: string, st: RetirementStatus)
    requires ProtocolOk(cfg, db) && OperationWritten(d, db, id, st) && Open(Rows(db, Operations), id)
    requires OperationOk(cfg, Name(id), Operation(st), StoreId(db), Floor(db)) && st.state != Completed
    ensures ProtocolOk(cfg, d)
  {
    OtherTables(d, db, id, st);
    SameMeta(d, db);
    OperationsPut(cfg, Rows(db, Operations), StoreId(db), Floor(db), id, st);
  }

  ghost predicate OneOperation(d: Database, db: Database, id: string, st: RetirementStatus) {
    Rows(d, Operations) == Rows(db, Operations)[Name(id) := Operation(st)]
  }

  lemma OperationWrittenAdvances(d: Database, db: Database, id: string, st: RetirementStatus)
    requires OperationWritten(d, db, id, st) && Open(Rows(db, Operations), id)
    ensures Recorded(d, db)
  {
    OtherTables(d, db, id, st);
    SameMeta(d, db);
    ReceiptFrame(d, db);
  }

  lemma OperationWrittenSchema(d: Database, db: Database, id: string, st: RetirementStatus)
    requires SchemaOk(db) && VersionOf(db) == V2 && OperationWritten(d, db, id, st)
    ensures SchemaOk(d)
  {
    OtherTables(d, db, id, st);
    SchemaSame(d, db);
  }

  lemma OperationWrittenViews(cfg: Config, d: Database, db: Database, log: Log, id: string, st: RetirementStatus)
    requires Views(cfg, db, log) && VersionOf(db) == V2 && OperationWritten(d, db, id, st) && Open(Rows(db, Operations), id)
    requires OperationOk(cfg, Name(id), Operation(st), StoreId(db), Floor(db)) && st.state != Completed
    ensures Views(cfg, d, log) && Recorded(d, db)
  {
    OperationWrittenSchema(d, db, id, st);
    OperationWrittenLedger(d, db, log, id, st);
    OperationWrittenProtocol(cfg, d, db, id, st);
    OperationWrittenAdvances(d, db, id, st);
  }

  lemma OtherTables(d: Database, db: Database, id: string, st: RetirementStatus)
    requires OperationWritten(d, db, id, st)
    ensures forall b :: b != Operations ==> TableOf(d, b) == TableOf(db, b)
  {
    forall b | b != Operations ensures TableOf(d, b) == TableOf(db, b) { assert b in AllBuckets - {Operations}; }
  }

  /** What a plan that writes has established. */
  lemma PlanDecides(cfg: Config, db: Database, p: RetirementPlan, now: nat)
    requires PlanOutcome(cfg, db, p, now).Write? && PlanOutcome(cfg, db, p, now).writes != []
    ensures PlanOutcome(cfg, db, p, now).writes == [PutOperation(p.operationId, StatusFor(p).(retiredThrough := Floor(db)))]
    ensures HasVersion(db, V2) && !Fenced(db) && Name(p.operationId) !in Rows(db, Operations)
    ensures p.from == Floor(db) + 1 && p.through <= Head(db) && CoverageRefusal(cfg, db, p.setId, p.from, p.through, now) == None
    ensures OperationOk(cfg, Name(p.operationId), Operation(StatusFor(p).(retiredThrough := Floor(db))), StoreId(db), Floor(db))
  {}

  lemma PlanKeeps(cfg: Config, db: Database, log: Log, p: RetirementPlan, now: nat, ws: seq<Mutation>, overflow: bool)
    requires Inv(cfg, db, log) && PlanOutcome(cfg, db, p, now) == Write(ws)
    ensures Inv(cfg, Committed(db, ws, overflow), log) && Recorded(Committed(db, ws, overflow), db)
    ensures ws != [] ==> Committable(db, ws) && p.through <= Head(db) && Name(p.operationId) !in Rows(db, Operations)
    ensures ws != [] ==> OneOperation(Committed(db, ws, overflow), db, p.operationId, StatusFor(p).(retiredThrough := Floor(db)))
    ensures ws != [] ==> Untouched(Committed(db, ws, overflow), db, Operations)
  {
    if ws != [] {
      PlanDecides(cfg, db, p, now);
      PutOperationEffect(db, p.operationId, StatusFor(p).(retiredThrough := Floor(db)), ws);
      OperationCommit(cfg, db, ws, log, p.operationId, StatusFor(p).(retiredThrough := Floor(db)), overflow);
    }
  }

  lemma OperationCommit(cfg: Config, db: Database, ws: seq<Mutation>, log: Log, id: string, st: RetirementStatus, overflow: bool)
    requires Inv(cfg, db, log) && VersionOf(db) == V2 && OperationWritten(ApplyAll(db, ws), db, id, st)
    requires ws != [] && Applicable(db, ws) && DomainWrites(ws) && forall w <- ws :: Replayable(w)
    requires Open(Rows(db, Operations), id) && st.state != Completed
    requires OperationOk(cfg, Name(id), Operation(st), StoreId(db), Floor(db))
    ensures Inv(cfg, Committed(db, ws, overflow), log) && Recorded(Committed(db, ws, overflow), db) && Committable(db, ws)
    ensures OneOperation(Committed(db, ws, overflow), db, id, st) && Untouched(Committed(db, ws, overflow), db, Operations)
  {
    hide Committed, ApplyAll, DomainWrites, LedgerOk, ProtocolOk, Applicable, Recorded, OperationOk, Untouched;
    OperationWrittenViews(cfg, ApplyAll(db, ws), db, log, id, st);
    CommitKeeps(cfg, db, ws, log, overflow);
    OperationUntouched(ApplyAll(db, ws), db, id, st);
    UntouchedCommit(db, ws, overflow, Operations);
  }

  lemma OperationUntouched(d: Database, db: Database, id: string, st: RetirementStatus)
    requires OperationWritten(d, db, id, st)
    ensures Untouched(d, db, Operations)
  {
    OtherTables(d, db, id, st);
    assert TableOf(d, Meta) == TableOf(db, Meta);
  }

  /** What an abort that writes has established. */
  lemma AbortDecides(cfg: Config, db: Database, p: RetirementPlan, seen: Option<RetirementStatus>, authority: bool, now: nat)
    requires OperationsOk(cfg, Rows(db, Operations), StoreId(db), Floor(db)) && now > 0
    requires AbortOutcome(cfg, db, p, seen, authority, now).Write? && AbortOutcome(cfg, db, p, seen, authority, now).writes != []
    ensures AbortTarget(db, p, seen).Some?
    ensures var st := AbortedStatus(AbortTarget(db, p, seen).value, Floor(db), now);
      && AbortOutcome(cfg, db, p, seen, authority, now).writes == [PutOperation(p.operationId, st)]
      && OperationOk(cfg, Name(p.operationId), Operation(st), StoreId(db), Floor(db))
    ensures HasVersion(db, V2) && !Fenced(db) && Open(Rows(db, Operations), p.operationId)
  {
    if Name(p.operationId) in Rows(db, Operations) {
      assert OperationOk(cfg, Name(p.operationId), Rows(db, Operations)[Name(p.operationId)], StoreId(db), Floor(db));
    }
  }

  lemma AbortKeeps(cfg: Config, db: Database, log: Log, p: RetirementPlan, seen: Option<RetirementStatus>,
                   authority: bool, now: nat, ws: seq<Mutation>, overflow: bool)
    requires Inv(cfg, db, log) && AbortOutcome(cfg, db, p, seen, authority, now) == Write(ws) && now > 0
    ensures Inv(cfg, Committed(db, ws, overflow), log) && Recorded(Committed(db, ws, overflow), db)
    ensures ws != [] ==> Committable(db, ws) && AbortTarget(db, p, seen).Some?
    ensures ws != [] ==> OneOperation(Committed(db, ws, overflow), db, p.operationId,
                                      AbortedStatus(AbortTarget(db, p, seen).value, Floor(db), now))
    ensures ws != [] ==> Untouched(Committed(db, ws, overflow), db, Operations)
  {
    if ws != [] {
      AbortDecides(cfg, db, p, seen, authority, now);
      var st := AbortedStatus(AbortTarget(db, p, seen).value, Floor(db), now);
      PutOperationEffect(db, p.operationId, st, ws);
      OperationCommit(cfg, db, ws, log, p.operationId, st, overflow);
    }
  }

  // ---- apply: the effect ----------------------------------------------------------------------------------

  function Without(rows: Rowset, from: nat, through: nat): Rowset {
    map k | k in rows && !(k.Seq? && from <= k.n <= through) :: rows[k]
  }

  ghost predicate Removed(d: Database, db: Database, from: nat, through: nat) {
    && SameTables(d, db, AllBuckets - {Events})
    && Rows(d, Events) == Without(Rows(db, Events), from, through) && Head(d) == Head(db)
  }

  lemma NothingRemoved(db: Database, from: nat, through: nat)
    requires through < from
    ensures Removed(ApplyAll(db, []), db, from, through) && Applicable(db, [])
  {
    assert Without(Rows(db, Events), from, through) == Rows(db, Events);
  }

  lemma RemovedOne(d: Database, t: Database, db: Database, from: nat, through: nat)
    requires 0 < through && from <= through && Events in db && Removed(t, db, from, through - 1)
    requires d == ApplyOne(t, Delete(Events, Seq(through)))
    ensures Removed(d, db, from, through) && Events in t
  {
    forall b | b in AllBuckets - {Events} ensures TableOf(d, b) == TableOf(db, b) {
      assert TableOf(t, b) == TableOf(db, b);
    }
    assert Without(Rows(db, Events), from, through) == Without(Rows(db, Events), from, through - 1) - {Seq(through)};
  }

  lemma {:induction false} DeletesEffect(db: Database, from: nat, through: nat)
    requires Events in db && 0 < from
    ensures Removed(ApplyAll(db, Deletes(from, through)), db, from, through)
    ensures Applicable(db, Deletes(from, through)) && DomainWrites(Deletes(from, through))
    ensures forall w <- Deletes(from, through) :: Replayable(w)
    decreases through
  {
    hide Removed, ApplyAll, ApplyOne, Applicable;
    if through < from {
      NothingRemoved(db, from, through);
    } else {
      var w := Delete(Events, Seq(through));
      DeletesEffect(db, from, through - 1);
      ApplySnoc(db, Deletes(from, through - 1), w);
      RemovedOne(ApplyAll(db, Deletes(from, through)), ApplyAll(db, Deletes(from, through - 1)), db, from, through);
    }
  }

  /** `d` is `db` with the operation completed: bodies gone, floor raised, receipt stored. */
  ghost predicate Applied(d: Database, db: Database, id: string, st: RetirementStatus, now: nat) {
    && SameTables(d, db, AllBuckets - {Events, Meta, Operations})
    && Rows(d, Events) == Without(Rows(db, Events), st.from, st.through) && Head(d) == Head(db)
    && Rows(d, Meta) == Rows(db, Meta)[Field(ArchiveFloor) := Num(st.through)]
    && Rows(d, Operations) == Rows(db, Operations)[Name(id) := Operation(CompletedStatus(st, now))]
  }

  lemma AppliedTail(t: Database, db: Database, id: string, st: RetirementStatus, now: nat)
    requires Removed(t, db, st.from, st.through) && db.Keys == AllBuckets
    ensures Applied(ApplyOne(ApplyOne(t, Put(Meta, Field(ArchiveFloor), Num(st.through))), PutOperation(id, CompletedStatus(st, now))),
                    db, id, st, now)
  {
    assert TableOf(t, Meta) == TableOf(db, Meta) && TableOf(t, Operations) == TableOf(db, Operations);
  }

  lemma ApplyEffect(db: Database, id: string, st: RetirementStatus, now: nat)
    requires db.Keys == AllBuckets && 0 < st.from
    ensures Applied(ApplyAll(db, ApplyWrites(id, st, now)), db, id, st, now)
    ensures Applicable(db, ApplyWrites(id, st, now))
  {
    var w1, w2 := Put(Meta, Field(ArchiveFloor), Num(st.through)), PutOperation(id, CompletedStatus(st, now));
    var t := ApplyAll(db, Deletes(st.from, st.through));
    DeletesEffect(db, st.from, st.through);
    ApplyAppend(db, Deletes(st.from, st.through), [w1, w2]);
    ApplyPair(t, w1, w2);
    AppliedTail(t, db, id, st, now);
  }

  lemma ApplyIsDomain(db: Database, id: string, st: RetirementStatus, now: nat)
    requires Events in db && 0 < st.from
    ensures DomainWrites(ApplyWrites(id, st, now)) && ApplyWrites(id, st, now) != []
    ensures forall w <- ApplyWrites(id, st, now) :: Replayable(w)
  {
    DeletesEffect(db, st.from, st.through);
  }

  // ---- apply: the views -----------------------------------------------------------------------------------

  lemma AppliedTables(d: Database, db: Database, id: string, st: RetirementStatus, now: nat)
    requires Applied(d, db, id, st, now)
    ensures forall b :: b != Events && b != Meta && b != Operations ==> TableOf(d, b) == TableOf(db, b)
    ensures forall f :: f != ArchiveFloor ==> Get(d, Meta, Field(f)) == Get(db, Meta, Field(f))
    ensures Floor(d) == st.through && EraOf(d) == EraOf(db) && AgeFloor(d) == AgeFloor(db)
    ensures StoreId(d) == StoreId(db) && MetaNum(d, CapturedThrough) == MetaNum(db, CapturedThrough)
    ensures MetaNum(d, CacheBytes) == MetaNum(db, CacheBytes) && Generation(d) == Generation(db)
    ensures HasSession(d) == HasSession(db)
  {
    hide VersionOf, AgeFloor, StoreId, HasSession, MetaNum, TableOf;
    forall b | b != Events && b != Meta && b != Operations ensures TableOf(d, b) == TableOf(db, b) {
      assert b in AllBuckets - {Events, Meta, Operations};
    }
    AppliedFields(d, db, id, st, now);
    MetaRead(d, db, {ArchiveFloor});
  }

  lemma AppliedFields(d: Database, db: Database, id: string, st: RetirementStatus, now: nat)
    requires Applied(d, db, id, st, now)
    ensures forall f :: f != ArchiveFloor ==> Get(d, Meta, Field(f)) == Get(db, Meta, Field(f))
    ensures Floor(d) == st.through
  {}

  lemma HotRetired(events: Rowset, log: Log, floor: nat, through: nat)
    requires HotOk(events, log, floor) && floor <= through <= |log|
    ensures HotOk(Without(events, floor + 1, through), log, through)
  {}

  lemma {:induction false} CachedLengthStops(cache: Rowset, floor: nat, through: nat)
    requires floor <= through && forall k <- cache :: k.Seq? && k.n <= floor
    ensures CachedLength(cache, through) == CachedLength(cache, floor)
    decreases through
  {
    if floor < through { CachedLengthStops(cache, floor, through - 1); }
  }

  lemma CacheRetired(cache: Rowset, log: Log, floor: nat, through: nat, bytes: nat)
    requires CacheOk(cache, log, floor, bytes) && floor <= through <= |log|
    ensures CacheOk(cache, log, through, bytes)
  {
    CachedLengthStops(cache, floor, through);
  }

  lemma AppliedBodies(d: Database, db: Database, log: Log, id: string, st: RetirementStatus, now: nat)
    requires HotOk(Rows(db, Events), log, Floor(db)) && CacheOk(Rows(db, ArchiveCache), log, Floor(db), MetaNum(db, CacheBytes))
    requires Applied(d, db, id, st, now) && st.from == Floor(db) + 1 && st.from <= st.through <= |log|
    ensures HotOk(Rows(d, Events), log, Floor(d)) && CacheOk(Rows(d, ArchiveCache), log, Floor(d), MetaNum(d, CacheBytes))
  {
    AppliedTables(d, db, id, st, now);
    HotRetired(Rows(db, Events), log, Floor(db), st.through);
    CacheRetired(Rows(db, ArchiveCache), log, Floor(db), st.through, MetaNum(db, CacheBytes));
  }

  lemma AppliedLedger(d: Database, db: Database, log: Log, id: string, st: RetirementStatus, now: nat)
    requires LedgerOk(db, log) && Applied(d, db, id, st, now) && st.from == Floor(db) + 1 && st.from <= st.through <= |log|
    ensures LedgerOk(d, log)
  {
    AppliedTables(d, db, id, st, now);
    AppliedBodies(d, db, log, id, st, now);
  }

  lemma AppliedSchema(d: Database, db: Database, id: string, st: RetirementStatus, now: nat)
    requires SchemaOk(db) && VersionOf(db) == V2 && Applied(d, db, id, st, now)
    ensures SchemaOk(d)
  {
    hide MetaNum, EraOf, CompletedStatus, Generation, JournalWithin, Floor, Head, Get, StoreId, AgeFloor;
    AppliedTables(d, db, id, st, now);
  }

  lemma OperationsApplied(cfg: Config, operations: Rowset, storeId: string, id: string, st: RetirementStatus, now: nat, floor: nat)
    requires OperationsOk(cfg, operations, storeId, floor) && st.from == floor + 1 && now > 0
    requires Name(id) in operations && operations[Name(id)] == Operation(st) && st.state == Pending
    ensures OperationsOk(cfg, operations[Name(id) := Operation(CompletedStatus(st, now))], storeId, st.through)
  {
    var after := operations[Name(id) := Operation(CompletedStatus(st, now))];
    assert OperationOk(cfg, Name(id), Operation(st), storeId, floor);
    forall k | k in after ensures OperationOk(cfg, k, after[k], storeId, st.through) {
      if k != Name(id) { assert OperationOk(cfg, k, operations[k], storeId, floor); }
    }
    forall k, n: nat
      ensures OperationHolds(after, k, n) <==> OperationHolds(operations, k, n) || (k == Name(id) && st.from <= n <= st.through)
    {}
    forall n: nat ensures SomeOperation(after, n) <==> 1 <= n <= st.through {
      if SomeOperation(operations, n) {
        var k :| k in operations && OperationHolds(operations, k, n);
        assert OperationHolds(after, k, n);
      }
      if st.from <= n <= st.through { assert OperationHolds(after, Name(id), n); }
      if SomeOperation(after, n) {
        var k :| k in after && OperationHolds(after, k, n);
        if k != Name(id) { assert OperationHolds(operations, k, n); }
      }
    }
    forall n: nat, j, k | OperationHolds(after, j, n) && OperationHolds(after, k, n) ensures j == k {
      if OperationHolds(operations, j, n) { assert SomeOperation(operations, n); }
      if OperationHolds(operations, k, n) { assert SomeOperation(operations, n); }
    }
  }

  /** The verified set that allowed the apply covers the new part of the archive. */
  lemma CatalogApplied(cfg: Config, db: Database, set_: string, through: nat)
    requires CatalogOk(cfg, Rows(db, Catalog), Rows(db, Captures), Floor(db))
    requires CapturesOk(cfg, Rows(db, Captures), StoreId(db), MetaNum(db, CapturedThrough))
    requires SetCovers(cfg, db, set_, Floor(db) + 1, through) && Floor(db) < through
    ensures CatalogOk(cfg, Rows(db, Catalog), Rows(db, Captures), through)
    ensures through <= MetaNum(db, CapturedThrough)
  {
    var catalog := Rows(db, Catalog);
    assert CatalogEntryOk(cfg, catalog, Rows(db, Captures), Name(set_));
    var m := catalog[Name(set_)].c.manifest;
    assert CaptureShape(cfg, Rows(db, Captures), Name(set_), StoreId(db), MetaNum(db, CapturedThrough));
    assert RangeOk(m) && m.recordCount > 0;
    forall n: nat | 1 <= n <= through ensures SomeCatalog(catalog, n) {
      if n > Floor(db) { assert CatalogHolds(catalog, Name(set_), n); }
    }
  }

  lemma AppliedProtocol(cfg: Config, d: Database, db: Database, id: string, st: RetirementStatus, now: nat)
    requires ProtocolOk(cfg, db) && Applied(d, db, id, st, now) && st.from == Floor(db) + 1 && st.from <= st.through
    requires SetCovers(cfg, db, st.setId, st.from, st.through) && now > 0 && st.state == Pending
    requires Get(db, Operations, Name(id)) == Some(Operation(st))
    ensures ProtocolOk(cfg, d) && st.through <= Head(db)
  {
    AppliedTables(d, db, id, st, now);
    CatalogApplied(cfg, db, st.setId, st.through);
    OperationsApplied(cfg, Rows(db, Operations), StoreId(db), id, st, now, Floor(db));
  }

  lemma AppliedAdvances(d: Database, db: Database, id: string, st: RetirementStatus, now: nat)
    requires Applied(d, db, id, st, now) && Floor(db) <= st.through && st.state == Pending
    requires Get(db, Operations, Name(id)) == Some(Operation(st))
    ensures Promises(d, db) && InFlightKept(d, db) && Fenced(d) == Fenced(db)
  {
    hide MetaNum, HasSession;
    AppliedTables(d, db, id, st, now);
    ReceiptFrame(d, db);
  }

  lemma ApplyCommit(cfg: Config, db: Database, ws: seq<Mutation>, log: Log, id: string, st: RetirementStatus, now: nat, overflow: bool)
    requires Inv(cfg, db, log) && VersionOf(db) == V2 && Applied(ApplyAll(db, ws), db, id, st, now)
    requires ws != [] && Applicable(db, ws) && DomainWrites(ws) && forall w <- ws :: Replayable(w)
    requires st.from == Floor(db) + 1 && st.from <= st.through && now > 0 && st.state == Pending
    requires SetCovers(cfg, db, st.setId, st.from, st.through) && Get(db, Operations, Name(id)) == Some(Operation(st))
    ensures Inv(cfg, Committed(db, ws, overflow), log) && Promises(Committed(db, ws, overflow), db)
    ensures InFlightKept(Committed(db, ws, overflow), db) && Fenced(Committed(db, ws, overflow)) == Fenced(db)
    ensures Committable(db, ws) && Floor(Committed(db, ws, overflow)) == st.through
    ensures OneOperation(Committed(db, ws, overflow), db, id, CompletedStatus(st, now))
  {
    var d := ApplyAll(db, ws);
    AppliedProtocol(cfg, d, db, id, st, now);
    AppliedLedger(d, db, log, id, st, now);
    AppliedSchema(d, db, id, st, now);
    AppliedAdvances(d, db, id, st, now);
    AppliedTables(d, db, id, st, now);
    CommitKeeps(cfg, db, ws, log, overflow);
  }

  /** What an apply that deletes bodies has established: the operation is still the pending
      one the authority was asked about, it starts at the floor, a completion signed for its
      set covers it, and every body is old enough. */
  lemma ApplyDecides(cfg: Config, db: Database, id: string, seen: Option<RetirementStatus>, authority: bool, now: nat)
    requires ApplyOutcome(cfg, db, id, seen, authority, now).Write? && ApplyOutcome(cfg, db, id, seen, authority, now).writes != []
    ensures seen.Some? && ApplyOutcome(cfg, db, id, seen, authority, now).writes == ApplyWrites(id, seen.value, now)
    ensures authority && cfg.retirementEnabled && HasVersion(db, V2) && !Fenced(db)
    ensures var st := seen.value;
      && st.state == Pending && Get(db, Operations, Name(id)) == Some(Operation(st)) && st.from == Floor(db) + 1
      && SetCovers(cfg, db, st.setId, st.from, st.through)
      && forall n :: st.from <= n <= st.through ==> AgedBy(db, n, cfg.retention, now)
  {
    RangeAccepted(cfg, db, seen.value.from, seen.value.through, now);
    assert forall n :: RecordRefusal(cfg, db, n, now) == None ==> AgedBy(db, n, cfg.retention, now);
  }

  lemma ApplyKeeps(cfg: Config, db: Database, log: Log, id: string, seen: Option<RetirementStatus>,
                   authority: bool, now: nat, ws: seq<Mutation>, overflow: bool)
    requires Inv(cfg, db, log) && ApplyOutcome(cfg, db, id, seen, authority, now) == Write(ws) && now > 0
    ensures Inv(cfg, Committed(db, ws, overflow), log) && Promises(Committed(db, ws, overflow), db)
    ensures InFlightKept(Committed(db, ws, overflow), db) && Fenced(Committed(db, ws, overflow)) == Fenced(db)
    ensures ws != [] ==> Committable(db, ws) && seen.Some? && Floor(Committed(db, ws, overflow)) == seen.value.through
    ensures ws != [] ==> OneOperation(Committed(db, ws, overflow), db, id, CompletedStatus(seen.value, now))
    ensures ws != [] ==> Get(db, Operations, Name(id)) == Some(Operation(seen.value))
  {
    if ws != [] {
      ApplyDecides(cfg, db, id, seen, authority, now);
      PendingShape(cfg, db, id, seen.value);
      ApplyEffect(db, id, seen.value, now);
      ApplyIsDomain(db, id, seen.value, now);
      ApplyCommit(cfg, db, ws, log, id, seen.value, now, overflow);
    }
  }

  lemma PendingShape(cfg: Config, db: Database, id: string, st: RetirementStatus)
    requires OperationsOk(cfg, Rows(db, Operations), StoreId(db), Floor(db))
    requires Get(db, Operations, Name(id)) == Some(Operation(st))
    ensures 0 < st.from <= st.through
  {
    assert OperationOk(cfg, Name(id), Rows(db, Operations)[Name(id)], StoreId(db), Floor(db));
  }
}
