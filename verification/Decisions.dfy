/** Exactly when each operation writes, on every reachable store, and what it leaves behind:
    said in terms of the store and the request, not of the checks an operation makes. */
module Decisions {
  import opened Types
  import opened Store
  import opened Gateway
  import opened Replay
  import opened Archive
  import opened Invariant
  import opened Lifecycle
  import opened Migration
  import opened Retirement
  import opened Cache
  import opened Backup
  import opened Recovery
  import Paging

  // ---- migration ---------------------------------------------------------------------------------------

  /** A migration call is refused by the recovery fence alone; at version 2 it does nothing. */
  lemma MigratesExactly(cfg: Config, db: Database, log: Log, batch: nat, now: nat)
    requires Inv(cfg, db, log) && now > 0
    ensures MigrateOutcome(db, batch, now).Write? <==> !Fenced(db)
    ensures Fenced(db) ==> MigrateOutcome(db, batch, now) == Refuse(Unavailable)
    ensures MigrateOutcome(db, batch, now) == Write([]) <==> !Fenced(db) && VersionOf(db) == V2
  {
    hide Inv, Advanced, Advances, Committable, Committed, OpeningWrites, BatchWrites, Backfill, StopAt, Opened;
    if VersionOf(db) != V2 && !Fenced(db) { MigrateProgress(cfg, db, log, batch, now, false); }
  }

  // ---- retirement --------------------------------------------------------------------------------------

  /** A verified set holds all of from..through. */
  predicate SetHolds(db: Database, set_: string, from: nat, through: nat) {
    && Name(set_) in Rows(db, Catalog) && Rows(db, Catalog)[Name(set_)].Entry?
    && (var m := Rows(db, Catalog)[Name(set_)].c.manifest; m.from <= from && through <= m.through)
  }

  /** Every entry of the catalog of a reachable store carries its proof, and what it holds was
      accepted. */
  lemma CoversExactly(cfg: Config, db: Database, log: Log, set_: string, from: nat, through: nat)
    requires Inv(cfg, db, log)
    ensures SetCovers(cfg, db, set_, from, through) <==> SetHolds(db, set_, from, through)
    ensures SetHolds(db, set_, from, through) && 0 < from <= through ==> through <= Head(db)
  {
    hide Inv, CompletionOk;
    if Name(set_) in Rows(db, Catalog) {
      CatalogCompletes(cfg, db, log, set_);
      EntryWithin(cfg, db, log, set_);
    }
  }

  lemma EntryWithin(cfg: Config, db: Database, log: Log, id: string)
    requires Inv(cfg, db, log) && Name(id) in Rows(db, Catalog) && Rows(db, Catalog)[Name(id)].Entry?
    ensures var m := Rows(db, Catalog)[Name(id)].c.manifest; m.recordCount > 0 ==> m.through <= Head(db)
    ensures var m := Rows(db, Catalog)[Name(id)].c.manifest; m.recordCount == 0 ==> m.from == 0 && m.through == 0
  {
    hide SchemaOk, LedgerOk, OperationsOk, CompletionOk;
    assert CatalogEntryOk(cfg, Rows(db, Catalog), Rows(db, Captures), Name(id));
    assert CaptureShape(cfg, Rows(db, Captures), Name(id), StoreId(db), MetaNum(db, CapturedThrough));
  }

  /** Every record of the range is old enough by its receipt time. */
  predicate AllAged(cfg: Config, db: Database, from: nat, through: nat, now: nat) {
    forall n :: from <= n <= through ==> ReceiptTime(db, n).Some? && ReceiptTime(db, n).value + cfg.retention <= now
  }

  lemma AgesAgree(cfg: Config, db: Database, from: nat, through: nat, now: nat)
    ensures AllAged(cfg, db, from, through, now) <==> forall n :: from <= n <= through ==> AgedBy(db, n, cfg.retention, now)
  {
    hide ReceiptTime;
    forall n: nat ensures AgedBy(db, n, cfg.retention, now) <==> ReceiptTime(db, n).Some? && ReceiptTime(db, n).value + cfg.retention <= now {}
    if forall n :: from <= n <= through ==> AgedBy(db, n, cfg.retention, now) {
      forall n | from <= n <= through ensures ReceiptTime(db, n).Some? && ReceiptTime(db, n).value + cfg.retention <= now {
        assert AgedBy(db, n, cfg.retention, now);
      }
    }
  }

  lemma CoverageExactly(cfg: Config, db: Database, log: Log, set_: string, from: nat, through: nat, now: nat)
    requires Inv(cfg, db, log) && VersionOf(db) == V2 && Floor(db) < from <= through
    ensures CoverageRefusal(cfg, db, set_, from, through, now) == None <==>
              SetHolds(db, set_, from, through) && AllAged(cfg, db, from, through, now)
    ensures through <= Head(db) ==> CoverageRefusal(cfg, db, set_, from, through, now) in {None, Some(LifecycleConflict)}
  {
    hide Inv, CoverageRefusal, SetCovers, AgedBy, SetHolds, AllAged;
    CoversExactly(cfg, db, log, set_, from, through);
    AgesAgree(cfg, db, from, through, now);
    if through <= Head(db) {
      CoverageMeans(cfg, db, log, set_, from, through, now);
      CoverageAnswers(cfg, db, log, set_, from, through, now);
    } else {
      Uncovered(cfg, db, set_, from, through, now);
    }
  }

  lemma Uncovered(cfg: Config, db: Database, set_: string, from: nat, through: nat, now: nat)
    requires !SetCovers(cfg, db, set_, from, through)
    ensures CoverageRefusal(cfg, db, set_, from, through, now) == Some(LifecycleConflict)
  {
    hide SetCovers;
  }

  lemma {:induction false} RangeAnswers(cfg: Config, db: Database, log: Log, from: nat, through: nat, now: nat)
    requires Inv(cfg, db, log) && VersionOf(db) == V2 && Floor(db) < from && through <= Head(db)
    ensures RangeRefusal(cfg, db, from, through, now) in {None, Some(LifecycleConflict)}
    decreases through + 1 - from
  {
    hide Inv, RecordRefusal, AgedBy;
    if from <= through {
      HotAccepted(cfg, db, log, from, now);
      RangeAnswers(cfg, db, log, from + 1, through, now);
    }
  }

  lemma CoverageAnswers(cfg: Config, db: Database, log: Log, set_: string, from: nat, through: nat, now: nat)
    requires Inv(cfg, db, log) && VersionOf(db) == V2 && Floor(db) < from && through <= Head(db)
    ensures CoverageRefusal(cfg, db, set_, from, through, now) in {None, Some(LifecycleConflict)}
  {
    hide Inv, SetCovers, RangeRefusal;
    RangeAnswers(cfg, db, log, from, through, now);
  }

  /** Lifecycle operations may write: version 2, outside recovery, configured. */
  predicate Operable(cfg: Config, db: Database) { VersionOf(db) == V2 && !Fenced(db) && cfg.environment != "" }

  lemma ReadyExactly(cfg: Config, db: Database, log: Log)
    requires Inv(cfg, db, log)
    ensures Ready(cfg, db) == None <==> Operable(cfg, db)
    ensures Fenced(db) ==> Ready(cfg, db) == Some(Unavailable)
    ensures !Fenced(db) ==> Ready(cfg, db) in {None, Some(LifecycleConflict)}
  {
    hide LedgerOk, ProtocolOk, JournalWithin;
    VersionStored(db);
  }

  lemma VersionStored(db: Database)
    requires SchemaOk(db)
    ensures HasVersion(db, V2) <==> VersionOf(db) == V2
  {}

  /** The operation was made for this plan, whatever became of it. */
  predicate MadeFor(st: RetirementStatus, p: RetirementPlan) {
    && st.operationId == p.operationId && st.environment == p.environment && st.storeId == p.storeId
    && st.from == p.from && st.through == p.through && st.planDigest == p.planDigest && st.setId == p.setId
  }

  lemma MadeForExactly(st: RetirementStatus, p: RetirementPlan)
    ensures StatusOf(st, p) <==> MadeFor(st, p)
  {}

  /** The request and the store agree, so that a plan may be considered at all. */
  predicate PlanAddressed(cfg: Config, db: Database, p: RetirementPlan) {
    && cfg.retirementEnabled && PlanShapeOk(p) && Operable(cfg, db)
    && p.environment == cfg.environment && p.storeId == StoreId(db)
  }

  /** A plan is stored if and only if it is new, starts right after the floor, ends within the
      head, lies inside a verified set and every record of it is old enough; it is answered
      again without a write if and only if the stored operation was made for this very plan. */
  lemma PlansExactly(cfg: Config, db: Database, log: Log, p: RetirementPlan, now: nat)
    requires Inv(cfg, db, log)
    ensures (PlanOutcome(cfg, db, p, now).Write? && PlanOutcome(cfg, db, p, now).writes != []) <==>
              && PlanAddressed(cfg, db, p) && Name(p.operationId) !in Rows(db, Operations)
              && p.from == Floor(db) + 1 && p.through <= Head(db)
              && SetHolds(db, p.setId, p.from, p.through) && AllAged(cfg, db, p.from, p.through, now)
    ensures PlanOutcome(cfg, db, p, now) == Write([]) <==>
              && PlanAddressed(cfg, db, p) && Name(p.operationId) in Rows(db, Operations)
              && Rows(db, Operations)[Name(p.operationId)].Operation? && MadeFor(Rows(db, Operations)[Name(p.operationId)].o, p)
    ensures PlanOutcome(cfg, db, p, now) == Refuse(Unavailable) <==> cfg.retirementEnabled && PlanShapeOk(p) && Fenced(db)
  {
    hide Inv, CoverageRefusal, SetHolds, AllAged, StatusOf, StatusFor, SafeId, LowerHex, Ready, MadeFor;
    ReadyExactly(cfg, db, log);
    StoredOperation(cfg, db, log, p.operationId);
    if Name(p.operationId) in Rows(db, Operations) { MadeForExactly(Rows(db, Operations)[Name(p.operationId)].o, p); }
    if PlanAddressed(cfg, db, p) && p.from == Floor(db) + 1 {
      CoverageExactly(cfg, db, log, p.setId, p.from, p.through, now);
    }
  }

  lemma StoredOperation(cfg: Config, db: Database, log: Log, id: string)
    requires Inv(cfg, db, log)
    ensures Name(id) in Rows(db, Operations) ==> Rows(db, Operations)[Name(id)].Operation?
  {
    hide SchemaOk, LedgerOk, CapturesOk, CatalogOk;
    if Name(id) in Rows(db, Operations) {
      assert OperationOk(cfg, Name(id), Rows(db, Operations)[Name(id)], StoreId(db), Floor(db));
    }
  }

  /** An apply deletes if and only if the operation that was read is still the pending one, it
      starts right after the floor, the authority agreed, and coverage and age still hold. */
  lemma AppliesExactly(cfg: Config, db: Database, log: Log, id: string, seen: Option<RetirementStatus>, authority: bool, now: nat)
    requires Inv(cfg, db, log)
    ensures (ApplyOutcome(cfg, db, id, seen, authority, now).Write? && ApplyOutcome(cfg, db, id, seen, authority, now).writes != []) <==>
              && SafeId(id) && seen.Some? && seen.value.state == Pending && cfg.retirementEnabled && authority && Operable(cfg, db)
              && Get(db, Operations, Name(id)) == Some(Operation(seen.value)) && seen.value.from == Floor(db) + 1
              && SetHolds(db, seen.value.setId, seen.value.from, seen.value.through)
              && AllAged(cfg, db, seen.value.from, seen.value.through, now)
    ensures ApplyOutcome(cfg, db, id, seen, authority, now) == Write([]) <==> SafeId(id) && seen.Some? && seen.value.state == Completed
  {
    hide Inv, CoverageRefusal, SetHolds, AllAged, SafeId, Deletes, Ready;
    ReadyExactly(cfg, db, log);
    if Operable(cfg, db) && seen.Some? && Get(db, Operations, Name(id)) == Some(Operation(seen.value)) && seen.value.from == Floor(db) + 1 {
      StoredRange(cfg, db, log, id, seen.value);
      CoverageExactly(cfg, db, log, seen.value.setId, seen.value.from, seen.value.through, now);
    }
  }

  lemma StoredRange(cfg: Config, db: Database, log: Log, id: string, st: RetirementStatus)
    requires Inv(cfg, db, log) && Get(db, Operations, Name(id)) == Some(Operation(st))
    ensures 0 < st.from <= st.through
  {
    hide SchemaOk, LedgerOk, CapturesOk, CatalogOk;
    assert OperationOk(cfg, Name(id), Rows(db, Operations)[Name(id)], StoreId(db), Floor(db));
  }

  /** An abort writes if and only if the authority agreed and the operation is not terminal,
      neither as it was read nor as it is stored. */
  lemma AbortsExactly(cfg: Config, db: Database, log: Log, p: RetirementPlan, seen: Option<RetirementStatus>, authority: bool, now: nat)
    requires Inv(cfg, db, log)
    ensures (AbortOutcome(cfg, db, p, seen, authority, now).Write? && AbortOutcome(cfg, db, p, seen, authority, now).writes != []) <==>
              && PlanShapeOk(p) && authority && Operable(cfg, db) && p.environment == cfg.environment && p.storeId == StoreId(db)
              && (seen.Some? ==> MadeFor(seen.value, p) && seen.value.state == Pending)
              && (Name(p.operationId) in Rows(db, Operations) ==> Rows(db, Operations)[Name(p.operationId)].o.state == Pending)
  {
    hide Inv, SafeId, LowerHex, AbortedStatus, PlanShapeOk, Ready, StatusOf, MadeFor;
    ReadyExactly(cfg, db, log);
    if seen.Some? { MadeForExactly(seen.value, p); }
    StoredOperation(cfg, db, log, p.operationId);
  }

  // ---- what is recorded -----------------------------------------------------------------------------------

  /** A plan is on record as pending, with nothing completed or sealed. */
  lemma PlanRecords(cfg: Config, db: Database, log: Log, p: RetirementPlan, now: nat, ws: seq<Mutation>, overflow: bool)
    requires Inv(cfg, db, log) && PlanOutcome(cfg, db, p, now) == Write(ws) && ws != []
    ensures exists st :: Rows(Committed(db, ws, overflow), Operations) == Rows(db, Operations)[Name(p.operationId) := Operation(st)]
              && MadeFor(st, p) && st.state == Pending && st.completedAt == 0 && st.receipt == Unsealed && st.retiredThrough == Floor(db)
  {
    hide Inv, Committed, PlanOutcome, Committable, Recorded, Invariant.Untouched;
    PlanKeeps(cfg, db, log, p, now, ws, overflow);
  }

  /** A completed operation is on record with its time and its range, and everything about it
      is sealed; it stays the operation of its plan. */
  lemma ApplyRecords(cfg: Config, db: Database, log: Log, id: string, seen: Option<RetirementStatus>, authority: bool, now: nat,
                     ws: seq<Mutation>, overflow: bool)
    requires Inv(cfg, db, log) && ApplyOutcome(cfg, db, id, seen, authority, now) == Write(ws) && ws != [] && now > 0
    ensures exists st :: Rows(Committed(db, ws, overflow), Operations) == Rows(db, Operations)[Name(id) := Operation(st)]
              && seen.Some? && Became(st, seen.value, Completed, now, seen.value.through)
  {
    hide Inv, Committed, ApplyOutcome, Committable, Promises, InFlightKept, CompletedStatus;
    ApplyKeeps(cfg, db, log, id, seen, authority, now, ws, overflow);
    CompletedIs(seen.value, now);
  }

  /** `st` is `was` in a terminal state reached at `now`, sealed over everything it says. */
  predicate Became(st: RetirementStatus, was: RetirementStatus, state: OperationState, now: nat, retired: nat) {
    && st == was.(state := state, completedAt := now, retiredThrough := retired, receipt := st.receipt)
    && st.receipt == SealStatus(st).receipt && st.receipt != Unsealed
  }

  lemma CompletedIs(st: RetirementStatus, now: nat)
    ensures Became(CompletedStatus(st, now), st, Completed, now, st.through)
  {}

  lemma AbortedIs(st: RetirementStatus, floor: nat, now: nat)
    ensures Became(AbortedStatus(st, floor, now), st, Aborted, now, floor)
  {}

  /** A tombstone is on record, made of the stored operation, else of what was read, else of the
      plan itself, with the floor it was made at. */
  lemma AbortRecords(cfg: Config, db: Database, log: Log, p: RetirementPlan, seen: Option<RetirementStatus>, authority: bool, now: nat,
                     ws: seq<Mutation>, overflow: bool)
    requires Inv(cfg, db, log) && AbortOutcome(cfg, db, p, seen, authority, now) == Write(ws) && ws != [] && now > 0
    ensures exists st, was :: Rows(Committed(db, ws, overflow), Operations) == Rows(db, Operations)[Name(p.operationId) := Operation(st)]
              && Became(st, was, Aborted, now, Floor(db))
              && (if Name(p.operationId) in Rows(db, Operations) then Rows(db, Operations)[Name(p.operationId)] == Operation(was)
                  else if seen.Some? then was == seen.value
                  else MadeFor(was, p) && was.state == Pending)
  {
    hide Inv, Committed, AbortOutcome, Committable, Recorded, Invariant.Untouched, AbortedStatus, Became;
    AbortKeeps(cfg, db, log, p, seen, authority, now, ws, overflow);
    var was := AbortTarget(db, p, seen).value;
    AbortedIs(was, Floor(db), now);
    assert Became(AbortedStatus(was, Floor(db), now), was, Aborted, now, Floor(db));
  }

  // ---- captures ----------------------------------------------------------------------------------------------

  predicate NoneActive(captures: Rowset) {
    forall k <- captures :: captures[k].Capture? ==> captures[k].p.state in {Verified, Abandoned}
  }

  /** The committed store has this status for the set, and every other set, the catalog, the
      frontier and the operations as before. */
  ghost predicate SetBecomes(d: Database, db: Database, id: string, st: CaptureStatus) {
    CapturesShown(d, db, Rows(db, Captures)[Name(id) := Capture(st)], Rows(db, Catalog), MetaNum(db, CapturedThrough))
  }

  lemma CapturesSeen(db: Database, ws: seq<Mutation>, overflow: bool, captures: Rowset, catalog: Rowset, captured: nat)
    requires CapturesWritten(ApplyAll(db, ws), db, captures, catalog, captured)
    requires Meta in db && (HasSession(db) ==> MutationJournal in db) && ws != [] && DomainWrites(ws)
    ensures CapturesShown(Committed(db, ws, overflow), db, captures, catalog, captured)
  {
    hide CapturesWritten, CapturesShown, Committed, ApplyAll, DomainWrites, SameViews;
    CommitSameViews(db, ws, overflow);
    CapturesAfter(Committed(db, ws, overflow), ApplyAll(db, ws), db, captures, catalog, captured);
  }

  lemma StoreOpen(cfg: Config, db: Database, log: Log)
    requires Inv(cfg, db, log)
    ensures Meta in db && (HasSession(db) ==> MutationJournal in db)
    ensures VersionOf(db) == V1 <==> Captures !in db
    ensures VersionOf(db) == V1 <==> Catalog !in db
  {
    hide LedgerOk, ProtocolOk, MetaRowsOk, JournalWithin;
  }

  lemma StatusBecomes(cfg: Config, db: Database, log: Log, st: CaptureStatus, ws: seq<Mutation>, overflow: bool)
    requires Inv(cfg, db, log) && Captures in db && ws == [PutCapture(st)]
    ensures SetBecomes(Committed(db, ws, overflow), db, st.setId, st)
  {
    hide Inv, CapturesWritten, CapturesShown, Committed, ApplyAll;
    StoreOpen(cfg, db, log);
    StatusEffect(db, st, ws);
    CapturesSeen(db, ws, overflow, Rows(db, Captures)[Name(st.setId) := Capture(st)], Rows(db, Catalog), MetaNum(db, CapturedThrough));
  }

  /** A new set begins if and only if the store can hold captures, no set is in flight and the
      id is unused. */
  lemma BeginsExactly(cfg: Config, db: Database, log: Log, id: string, overflow: bool)
    requires Inv(cfg, db, log)
    ensures BeginOutcome(db, id).Write? <==> VersionOf(db) != V1 && NoneActive(Rows(db, Captures)) && Name(id) !in Rows(db, Captures)
    ensures BeginOutcome(db, id).Write? ==>
              SetBecomes(Committed(db, BeginOutcome(db, id).writes, overflow), db, id, CaptureStatus(id, Capturing, None))
  {
    hide Inv, SetBecomes, Committed;
    StoreOpen(cfg, db, log);
    if BeginOutcome(db, id).Write? { StatusBecomes(cfg, db, log, CaptureStatus(id, Capturing, None), BeginOutcome(db, id).writes, overflow); }
  }

  /** A set is abandoned if and only if it is the one being captured. */
  lemma AbandonsExactly(cfg: Config, db: Database, log: Log, id: string)
    requires Inv(cfg, db, log)
    ensures AbandonOutcome(db, id).Write? <==>
              Name(id) in Rows(db, Captures) && Rows(db, Captures)[Name(id)] == Capture(CaptureStatus(id, Capturing, None))
  {
    hide Inv;
  }

  /** A seal is written if and only if the set is the one being captured and the manifest is
      valid; it stores that manifest and moves the captured frontier to its high water. */
  lemma SealsExactly(cfg: Config, db: Database, log: Log, id: string, m: Manifest, overflow: bool)
    requires Inv(cfg, db, log)
    ensures SealOutcome(db, id, m).Write? <==> InFlight(db, id) && ValidManifest(m)
    ensures SealOutcome(db, id, m).Write? ==>
              CapturesShown(Committed(db, SealOutcome(db, id, m).writes, overflow), db,
                            Rows(db, Captures)[Name(id) := Capture(CaptureStatus(id, Sealed, Some(m)))], Rows(db, Catalog), m.highWater)
  {
    hide Inv, CapturesWritten, CapturesShown, Committed, ApplyAll, ValidManifest, DomainWrites;
    if SealOutcome(db, id, m).Write? {
      StoreOpen(cfg, db, log);
      CapturingOpen(db, id);
      var ws := SealOutcome(db, id, m).writes;
      SealEffect(db, id, m, ws);
      CapturesSeen(db, ws, overflow, Rows(db, Captures)[Name(id) := Capture(CaptureStatus(id, Sealed, Some(m)))], Rows(db, Catalog), m.highWater);
    }
  }

  lemma CapturingOpen(db: Database, id: string)
    requires StateOf(db, id).Some?
    ensures Captures in db
  {}

  /** An upload is recorded if and only if the set is sealed and every part was stored. */
  lemma UploadsExactly(cfg: Config, db: Database, log: Log, id: string, stored: bool, overflow: bool)
    requires Inv(cfg, db, log)
    ensures UploadOutcome(db, id, stored).Write? <==> stored && SetIs(db, id, Sealed)
    ensures UploadOutcome(db, id, stored).Write? ==>
              SetBecomes(Committed(db, UploadOutcome(db, id, stored).writes, overflow), db, id,
                         Rows(db, Captures)[Name(id)].p.(state := Uploaded))
  {
    hide Inv, SetBecomes, Committed;
    if UploadOutcome(db, id, stored).Write? {
      CapturingOpen(db, id);
      KnownSet(cfg, db, log, id);
      StatusBecomes(cfg, db, log, Rows(db, Captures)[Name(id)].p.(state := Uploaded), UploadOutcome(db, id, stored).writes, overflow);
    }
  }

  /** The set is known and in this state. */
  predicate SetIs(db: Database, id: string, state: CaptureState) {
    Name(id) in Rows(db, Captures) && Rows(db, Captures)[Name(id)].Capture? && Rows(db, Captures)[Name(id)].p.state == state
  }

  lemma KnownSet(cfg: Config, db: Database, log: Log, id: string)
    requires Inv(cfg, db, log) && Name(id) in Rows(db, Captures)
    ensures Rows(db, Captures)[Name(id)].Capture? && Rows(db, Captures)[Name(id)].p.setId == id
    ensures Held(Rows(db, Captures)[Name(id)].p.state) <==> Rows(db, Captures)[Name(id)].p.manifest.Some?
    ensures SetIs(db, id, Verified) <==> Name(id) in Rows(db, Catalog)
    ensures SetIs(db, id, Verified) ==>
              Rows(db, Catalog)[Name(id)].Entry? && Rows(db, Captures)[Name(id)].p.manifest == Some(Rows(db, Catalog)[Name(id)].c.manifest)
  {
    hide SchemaOk, LedgerOk, OperationsOk, ValidManifest, CompletionOk, Frontier;
    assert CaptureShape(cfg, Rows(db, Captures), Name(id), StoreId(db), MetaNum(db, CapturedThrough));
    if Name(id) in Rows(db, Catalog) { assert CatalogEntryOk(cfg, Rows(db, Catalog), Rows(db, Captures), Name(id)); }
  }

  /** The completion is this set's, signed, and neither it nor the manifest is from the future. */
  predicate VerifiesSet(cfg: Config, db: Database, id: string, completion: Completion, now: nat) {
    && Name(id) in Rows(db, Captures) && Rows(db, Captures)[Name(id)].Capture? && Rows(db, Captures)[Name(id)].p.manifest.Some?
    && (var m := Rows(db, Captures)[Name(id)].p.manifest.value;
        && CompletionOk(completion, m, m, cfg.keys)
        && completion.payload.verifiedAt <= now + CLOCK_SKEW && m.createdAt <= now + CLOCK_SKEW)
  }

  /** A verification is recorded if and only if the set is uploaded and the completion verifies
      it; repeating the one on record is answered without a write. */
  lemma VerifiesExactly(cfg: Config, db: Database, log: Log, id: string, completion: Completion, now: nat, overflow: bool)
    requires Inv(cfg, db, log)
    ensures (VerifyOutcome(cfg, db, id, completion, now).Write? && VerifyOutcome(cfg, db, id, completion, now).writes != []) <==>
              Operable(cfg, db) && SetIs(db, id, Uploaded) && VerifiesSet(cfg, db, id, completion, now)
    ensures VerifyOutcome(cfg, db, id, completion, now) == Write([]) <==>
              && Operable(cfg, db) && SetIs(db, id, Verified) && VerifiesSet(cfg, db, id, completion, now)
              && Rows(db, Catalog)[Name(id)] == Entry(CatalogEntry(Rows(db, Captures)[Name(id)].p.manifest.value,
                                                                   Rows(db, Captures)[Name(id)].p.manifest.value, completion))
  {
    hide Inv, CompletionOk, Ready;
    ReadyExactly(cfg, db, log);
    if Name(id) in Rows(db, Captures) { KnownSet(cfg, db, log, id); }
    UnknownUncatalogued(cfg, db, log, id);
  }

  lemma UnknownUncatalogued(cfg: Config, db: Database, log: Log, id: string)
    requires Inv(cfg, db, log)
    ensures Name(id) in Rows(db, Catalog) ==> Name(id) in Rows(db, Captures)
  {
    hide SchemaOk, LedgerOk, OperationsOk, CompletionOk;
    if Name(id) in Rows(db, Catalog) { assert CatalogEntryOk(cfg, Rows(db, Catalog), Rows(db, Captures), Name(id)); }
  }

  /** The recorded verification: the entry is in the catalog and the set is verified. */
  lemma VerifyRecords(cfg: Config, db: Database, log: Log, id: string, completion: Completion, now: nat, ws: seq<Mutation>, overflow: bool)
    requires Inv(cfg, db, log) && VerifyOutcome(cfg, db, id, completion, now) == Write(ws) && ws != []
    ensures exists m :: Get(db, Captures, Name(id)) == Some(Capture(CaptureStatus(id, Uploaded, Some(m)))) &&
              CapturesShown(Committed(db, ws, overflow), db, Rows(db, Captures)[Name(id) := Capture(CaptureStatus(id, Verified, Some(m)))],
                            Rows(db, Catalog)[Name(id) := Entry(CatalogEntry(m, m, completion))], MetaNum(db, CapturedThrough))
  {
    hide SchemaOk, LedgerOk, OperationsOk, CapturesOk, CatalogOk, CapturesWritten, CapturesShown, Committed, ApplyAll, VerifyOutcome, DomainWrites;
    VerifyNeedsV2(cfg, db, id, completion, now);
    StoreOpen(cfg, db, log);
    var m := VerifyDecides(cfg, db, id, completion, now, ws);
    CapturesSeen(db, ws, overflow, Rows(db, Captures)[Name(id) := Capture(CaptureStatus(id, Verified, Some(m)))],
                 Rows(db, Catalog)[Name(id) := Entry(CatalogEntry(m, m, completion))], MetaNum(db, CapturedThrough));
  }

  // ---- the cache serves what was rehydrated ------------------------------------------------------------------

  /** After a rehydrate every body of the batch can be read again, as it was accepted, until it
      is evicted. */
  lemma RehydrateServes(cfg: Config, db: Database, log: Log, set_: string, records: seq<ExportRecord>, ws: seq<Mutation>, overflow: bool)
    requires Inv(cfg, db, log) && RehydrateOutcome(cfg, db, set_, records) == Write(ws)
    ensures forall i :: 0 <= i < |records| ==>
              var n := records[i].sequence;
              1 <= n <= |log| && Paging.BodyAt(Committed(db, ws, overflow), n) == Ok(log[n - 1])
  {
    hide SchemaOk, LedgerOk, ProtocolOk, RehydrateOutcome, Committed, Advances, Committable, Paging.BodyAt, BodyStored;
    RehydrateKeeps(cfg, db, log, set_, records, ws, overflow);
    RehydrateStores(cfg, db, log, set_, records, ws, overflow);
    var d := Committed(db, ws, overflow);
    forall i | 0 <= i < |records|
      ensures 1 <= records[i].sequence <= |log| && Paging.BodyAt(d, records[i].sequence) == Ok(log[records[i].sequence - 1])
    {
      CachedServes(d, log, records[i].sequence);
    }
  }

  lemma CachedServes(d: Database, log: Log, n: nat)
    requires LedgerOk(d, log) && BodyStored(Rows(d, ArchiveCache), log, n)
    ensures 1 <= n <= |log| && Paging.BodyAt(d, n) == Ok(log[n - 1])
  {
    hide LedgerOk, Paging.BodyAt, Rows;
    Paging.BodyIsOriginal(d, log, n);
  }

  // ---- admission ----------------------------------------------------------------------------------------------

  /** An admission is on record with the approval it was given. */
  lemma AdmissionRecorded(cfg: Config, db: Database, log: Log, a: SignedApproval, now: nat, ws: seq<Mutation>, overflow: bool)
    requires Inv(cfg, db, log) && AdmitOutcome(cfg, db, a, now) == Write(ws)
    ensures Get(Committed(db, ws, overflow), Meta, Field(RecoveryAdmission)) == Some(Approval(a))
  {
    hide Inv, Committed, ApplyAll, ApplyOne, ReadState, ApprovalMatches, ApprovalValid, FenceWritten, DomainWrites, SameViews;
    StoreOpen(cfg, db, log);
    AdmitEffect(cfg, db, a, now, ws);
    var w := Put(Meta, Field(RecoveryAdmission), Approval(a));
    ApplyPair(db, w, Delete(Meta, Field(RecoveryFence)));
    AdmissionPut(db, a);
    CommitSameViews(db, ws, overflow);
    FieldKept(Committed(db, ws, overflow), ApplyAll(db, ws));
  }

  lemma AdmissionPut(db: Database, a: SignedApproval)
    requires Meta in db
    ensures var d := ApplyOne(ApplyOne(db, Put(Meta, Field(RecoveryAdmission), Approval(a))), Delete(Meta, Field(RecoveryFence)));
      Get(d, Meta, Field(RecoveryAdmission)) == Some(Approval(a))
  {}

  lemma FieldKept(d: Database, e: Database)
    requires SameViews(d, e)
    ensures Get(d, Meta, Field(RecoveryAdmission)) == Get(e, Meta, Field(RecoveryAdmission))
  {}
}
