/** The inbox object: its fields, and its methods as one transaction each. Every method is
    tied to the decision its specification makes on the old database, and with it to one
    transaction of the state machine in Operations. */
module Inbox {
  import opened Types
  import opened Store
  import opened Gateway
  import opened Archive
  import opened Invariant
  import opened Lifecycle
  import opened Insertion
  import opened Migration
  import opened Retirement
  import opened Cache
  import opened Backup
  import opened Recovery
  import opened Paging
  import opened Transactions
  import opened Operations
  import Compaction

  /** What a transaction leaves behind, given what its closure decided. */
  ghost predicate Settles(outcome: Outcome, before: Database, after: Database, overflow: bool, err: Option<Error>) {
    match outcome
    case Refuse(e) => after == before && err == Some(e)
    case Write(ws) =>
      if GenerationExhausted(before, ws) then after == before && err == Some(Unavailable)
      else after == Committed(before, ws, overflow) && err == None
  }

  /** An inbox that is closed or has failed changes nothing. */
  ghost predicate Guarded(serving: bool, outcome: Outcome, before: Database, after: Database, overflow: bool, err: Option<Error>) {
    if serving then Settles(outcome, before, after, overflow, err) else after == before && err.Some?
  }

  /** A settled transaction is one step of the state machine. */
  lemma SettledIsTransaction(cfg: Config, n: Node, op: Op, after: Database, overflow: bool, err: Option<Error>)
    requires Settles(Decide(cfg, n, op), n.db, after, overflow, err)
    ensures Transacted(cfg, n, op, overflow).db == after
    ensures err.Some? && !op.SetRecovery? ==> Transacted(cfg, n, op, overflow) == n
    ensures err.Some? && op.SetRecovery? ==> Transacted(cfg, n, op, overflow) == n.(recovering := true)
    ensures NodeInv(cfg, n) && op.Timed() ==>
              Usable(n.db) && Usable(after) && Inv(cfg, after, if err == None then LogAfter(n, op) else n.log)
  {
    hide Inv, RunOk, Usable, Committed;
    if NodeInv(cfg, n) && op.Timed() {
      TransactKeeps(cfg, n, op, overflow);
      InvUsable(cfg, n.db, n.log);
      InvUsable(cfg, after, if err == None then LogAfter(n, op) else n.log);
    }
  }

  /** The tables exist that the methods write to. */
  ghost predicate Usable(db: Database) {
    && BucketsOk(db) && HasVersion(db, VersionOf(db)) && (HasSession(db) ==> VersionOf(db) == V2)
  }

  lemma UsableBuckets(db: Database)
    requires Usable(db)
    ensures Meta in db && (HasVersion(db, V1) <==> VersionOf(db) == V1) && (HasSession(db) ==> MutationJournal in db)
  {}

  /** Every state of the invariant is usable. */
  lemma InvUsable(cfg: Config, db: Database, log: Log)
    requires Inv(cfg, db, log)
    ensures Usable(db)
  {}

  lemma SessionSame(db: Database, ws: seq<Mutation>)
    requires DomainWrites(ws) && Usable(db)
    ensures HasSession(ApplyAll(db, ws)) ==> MutationJournal in ApplyAll(db, ws)
  {
    DomainFrame(db, ws);
    ApplyKeepsBuckets(db, ws);
  }

  // ---- usable tables stay usable ---------------------------------------------------------------------

  ghost predicate SameShape(d: Database, db: Database) {
    d.Keys == db.Keys && Get(d, Meta, Field(SchemaVersion)) == Get(db, Meta, Field(SchemaVersion))
  }

  lemma CommitUsable(db: Database, ws: seq<Mutation>, overflow: bool)
    requires Usable(db) && DomainWrites(ws) && SameShape(ApplyAll(db, ws), db)
    ensures Usable(Committed(db, ws, overflow))
  {
    if ws != [] { CommitEffect(db, ws, overflow); }
  }

  lemma InsertUsable(db: Database, e: LogEvent, now: nat, overflow: bool)
    requires Usable(db) && InsertOutcome(db, e, now).Write?
    ensures DomainWrites(InsertOutcome(db, e, now).writes)
    ensures Usable(Committed(db, InsertOutcome(db, e, now).writes, overflow))
  {
    var ws := InsertOutcome(db, e, now).writes;
    InsertDecides(db, e, now, ws);
    assert TableOf(ApplyAll(db, ws), Meta) == TableOf(db, Meta);
    CommitUsable(db, ws, overflow);
  }

  lemma OperationUsable(db: Database, id: string, st: RetirementStatus, ws: seq<Mutation>, overflow: bool)
    requires Usable(db) && VersionOf(db) == V2 && ws == [PutOperation(id, st)]
    ensures DomainWrites(ws) && Usable(Committed(db, ws, overflow))
  {
    PutOperationEffect(db, id, st, ws);
    assert TableOf(ApplyAll(db, ws), Meta) == TableOf(db, Meta);
    CommitUsable(db, ws, overflow);
  }

  lemma PlanUsable(cfg: Config, db: Database, p: RetirementPlan, now: nat, overflow: bool)
    requires Usable(db) && PlanOutcome(cfg, db, p, now).Write?
    ensures DomainWrites(PlanOutcome(cfg, db, p, now).writes)
    ensures Usable(Committed(db, PlanOutcome(cfg, db, p, now).writes, overflow))
  {
    var ws := PlanOutcome(cfg, db, p, now).writes;
    if ws != [] { OperationUsable(db, p.operationId, StatusFor(p).(retiredThrough := Floor(db)), ws, overflow); }
  }

  lemma AbortUsable(cfg: Config, db: Database, p: RetirementPlan, seen: Option<RetirementStatus>, authority: bool, now: nat, overflow: bool)
    requires Usable(db) && AbortOutcome(cfg, db, p, seen, authority, now).Write?
    ensures DomainWrites(AbortOutcome(cfg, db, p, seen, authority, now).writes)
    ensures Usable(Committed(db, AbortOutcome(cfg, db, p, seen, authority, now).writes, overflow))
  {
    var ws := AbortOutcome(cfg, db, p, seen, authority, now).writes;
    if ws != [] { OperationUsable(db, p.operationId, AbortedStatus(AbortTarget(db, p, seen).value, Floor(db), now), ws, overflow); }
  }

  lemma ApplyUsable(cfg: Config, db: Database, id: string, seen: Option<RetirementStatus>, authority: bool, now: nat, overflow: bool)
    requires Usable(db) && ApplyOutcome(cfg, db, id, seen, authority, now).Write?
    ensures DomainWrites(ApplyOutcome(cfg, db, id, seen, authority, now).writes)
    ensures Usable(Committed(db, ApplyOutcome(cfg, db, id, seen, authority, now).writes, overflow))
  {
    var ws := ApplyOutcome(cfg, db, id, seen, authority, now).writes;
    if ws != [] {
      ApplyDecides(cfg, db, id, seen, authority, now);
      ApplyIsDomain(db, id, seen.value, now);
      ApplyEffect(db, id, seen.value, now);
      AppliedTables(ApplyAll(db, ws), db, id, seen.value, now);
      CommitUsable(db, ws, overflow);
    }
  }

  lemma CacheUsable(db: Database, ws: seq<Mutation>, rows: Rowset, bytes: nat, overflow: bool)
    requires Usable(db) && DomainWrites(ws) && CacheWritten(ApplyAll(db, ws), db, rows, bytes)
    ensures Usable(Committed(db, ws, overflow))
  {
    CacheTables(ApplyAll(db, ws), db, rows, bytes);
    CommitUsable(db, ws, overflow);
  }

  lemma RehydrateUsable(cfg: Config, db: Database, set_: string, records: seq<ExportRecord>, overflow: bool)
    requires Usable(db) && RehydrateOutcome(cfg, db, set_, records).Write?
    ensures DomainWrites(RehydrateOutcome(cfg, db, set_, records).writes)
    ensures Usable(Committed(db, RehydrateOutcome(cfg, db, set_, records).writes, overflow))
  {
    var c, fill := RehydrateDecides(cfg, db, set_, records);
    FillEffect(cfg, db, c.manifest, records, fill);
    CacheUsable(db, FillPuts(records) + [PutBytes(fill.bytes)], fill.rows, fill.bytes, overflow);
  }

  lemma EvictUsable(cfg: Config, db: Database, through: nat, overflow: bool)
    requires Usable(db) && EvictOutcome(cfg, db, through).Write?
    ensures DomainWrites(EvictOutcome(cfg, db, through).writes)
    ensures Usable(Committed(db, EvictOutcome(cfg, db, through).writes, overflow))
  {
    var rows := Rows(db, ArchiveCache);
    var keys := Victims(rows, through);
    var bytes := EvictedBytes(rows, MetaNum(db, CacheBytes), keys).value;
    EvictRows(db, keys);
    CacheEffect(db, EvictDeletes(keys), Evicted(rows, keys), bytes);
    CacheUsable(db, EvictDeletes(keys) + [PutBytes(bytes)], Evicted(rows, keys), bytes, overflow);
  }

  lemma CapturesUsable(db: Database, ws: seq<Mutation>, captures: Rowset, catalog: Rowset, captured: nat, overflow: bool)
    requires Usable(db) && DomainWrites(ws) && CapturesWritten(ApplyAll(db, ws), db, captures, catalog, captured)
    ensures Usable(Committed(db, ws, overflow))
  {
    CommitUsable(db, ws, overflow);
  }

  lemma SaveUsable(db: Database, st: CaptureStatus, overflow: bool)
    requires Usable(db) && Captures in db
    ensures DomainWrites([PutCapture(st)]) && Usable(Committed(db, [PutCapture(st)], overflow))
  {
    StatusEffect(db, st, [PutCapture(st)]);
    CapturesUsable(db, [PutCapture(st)], Rows(db, Captures)[Name(st.setId) := Capture(st)], Rows(db, Catalog),
                   MetaNum(db, CapturedThrough), overflow);
  }

  lemma SealUsable(db: Database, id: string, m: Manifest, overflow: bool)
    requires Usable(db) && Captures in db && SealOutcome(db, id, m).Write?
    ensures DomainWrites(SealOutcome(db, id, m).writes) && Usable(Committed(db, SealOutcome(db, id, m).writes, overflow))
  {
    var ws := SealOutcome(db, id, m).writes;
    SealEffect(db, id, m, ws);
    CapturesUsable(db, ws, Rows(db, Captures)[Name(id) := Capture(CaptureStatus(id, Sealed, Some(m)))], Rows(db, Catalog),
                   m.highWater, overflow);
  }

  lemma VerifyUsable(cfg: Config, db: Database, id: string, completion: Completion, now: nat, overflow: bool)
    requires Usable(db) && VerifyOutcome(cfg, db, id, completion, now).Write?
    ensures DomainWrites(VerifyOutcome(cfg, db, id, completion, now).writes)
    ensures Usable(Committed(db, VerifyOutcome(cfg, db, id, completion, now).writes, overflow))
  {
    var ws := VerifyOutcome(cfg, db, id, completion, now).writes;
    if ws != [] {
      var m := StateOf(db, id).value.manifest.value;
      VerifyEffect(db, id, m, CatalogEntry(m, m, completion), ws);
      CapturesUsable(db, ws, Rows(db, Captures)[Name(id) := Capture(CaptureStatus(id, Verified, Some(m)))],
                     Rows(db, Catalog)[Name(id) := Entry(CatalogEntry(m, m, completion))], MetaNum(db, CapturedThrough), overflow);
    }
  }

  lemma FenceUsable(db: Database, ws: seq<Mutation>, overflow: bool)
    requires Usable(db) && DomainWrites(ws) && FenceWritten(ApplyAll(db, ws), db)
    ensures Usable(Committed(db, ws, overflow))
  {
    CommitUsable(db, ws, overflow);
  }

  lemma SetRecoveryUsable(db: Database, overflow: bool)
    requires Usable(db)
    ensures DomainWrites(SetRecoveryOutcome().writes) && Usable(Committed(db, SetRecoveryOutcome().writes, overflow))
  {
    SetRecoveryEffect(db, SetRecoveryOutcome().writes);
    FenceUsable(db, SetRecoveryOutcome().writes, overflow);
  }

  lemma AdmitUsable(cfg: Config, db: Database, a: SignedApproval, now: nat, overflow: bool)
    requires Usable(db) && AdmitOutcome(cfg, db, a, now).Write?
    ensures DomainWrites(AdmitOutcome(cfg, db, a, now).writes)
    ensures Usable(Committed(db, AdmitOutcome(cfg, db, a, now).writes, overflow))
  {
    AdmitEffect(cfg, db, a, now, AdmitOutcome(cfg, db, a, now).writes);
    FenceUsable(db, AdmitOutcome(cfg, db, a, now).writes, overflow);
  }

  lemma DomainAppend(a: seq<Mutation>, b: seq<Mutation>)
    requires DomainWrites(a) && DomainWrites(b)
    ensures DomainWrites(a + b)
  {}

  lemma OpeningIsDomain(db: Database)
    ensures DomainWrites(OpeningWrites(db))
  {
    CreatesAreDomain(NewBuckets);
    var created := Creates(NewBuckets) + [Put(Meta, Field(SchemaVersion), Tag(Migrating))];
    DomainAppend(Creates(NewBuckets), [Put(Meta, Field(SchemaVersion), Tag(Migrating))]);
    DomainAppend(created, [Put(Meta, Field(LegacyThrough), Num(Head(db)))]);
  }

  lemma BatchIsDomain(o: Database, rs: seq<BillingRecord>, stop: nat, now: nat)
    ensures DomainWrites(BatchWrites(o, rs, stop, now))
  {
    RecordsAreDomain(rs);
    DomainAppend(RecordsWrites(rs), ClosingWrites(stop, MetaNum(o, LegacyThrough), now));
  }

  lemma MigrateIsDomain(db: Database, batch: nat, now: nat)
    requires MigrateOutcome(db, batch, now).Write?
    ensures DomainWrites(MigrateOutcome(db, batch, now).writes)
  {
    if !HasVersion(db, V2) {
      var o := Opened(db);
      var stop := StopAt(o, batch);
      var rs := Backfill(o, MetaNum(o, BackfilledThrough), stop - MetaNum(o, BackfilledThrough)).value;
      OpeningIsDomain(db);
      BatchIsDomain(o, rs, stop, now);
      DomainAppend(if HasVersion(db, V1) then OpeningWrites(db) else [], BatchWrites(o, rs, stop, now));
    }
  }

  lemma BatchUsable(db: Database, ws: seq<Mutation>, o: Database, rs: seq<BillingRecord>, stop: nat, now: nat, overflow: bool)
    requires Usable(db) && !HasSession(db) && DomainWrites(ws) && ws != [] && db.Keys <= AllBuckets
    requires o.Keys == AllBuckets && VersionOf(o) == Migrating && IsBatch(ApplyAll(db, ws), o, rs, stop, now)
    ensures Usable(Committed(db, ws, overflow))
  {
    hide Backfilled, IsClosed, DomainWrites, Committed, ApplyAll;
    var d := ApplyAll(db, ws);
    var t :| Backfilled(t, o, rs) && IsClosed(d, t, stop, EraOf(o).legacy, now);
    BatchReadings(d, t, o, rs, stop, now);
    VersionTagged(o, t, d, rs, stop, now);
    CommitEffect(db, ws, overflow);
  }

  lemma VersionTagged(o: Database, t: Database, d: Database, rs: seq<BillingRecord>, stop: nat, now: nat)
    requires VersionOf(o) == Migrating && Backfilled(t, o, rs) && IsClosed(d, t, stop, EraOf(o).legacy, now)
    ensures HasVersion(d, VersionOf(d)) && d.Keys == o.Keys
  {
    assert TableOf(t, Meta) == TableOf(o, Meta);
  }

  lemma OpenedUsable(db: Database)
    requires Usable(db) && VersionOf(db) != V2
    ensures Opened(db).Keys == AllBuckets && VersionOf(Opened(db)) == Migrating && !HasSession(db)
  {
    if VersionOf(db) == V1 { OpeningEffect(db); }
  }

  lemma MigrateUsable(db: Database, batch: nat, now: nat, overflow: bool)
    requires Usable(db) && MigrateOutcome(db, batch, now).Write?
    ensures Usable(Committed(db, MigrateOutcome(db, batch, now).writes, overflow))
  {
    var ws := MigrateOutcome(db, batch, now).writes;
    if VersionOf(db) != V2 {
      OpenedUsable(db);
      var o := Opened(db);
      var rs := Backfill(o, MetaNum(o, BackfilledThrough), StopAt(o, batch) - MetaNum(o, BackfilledThrough)).value;
      MigrateIsDomain(db, batch, now);
      MigrateEffect(db, o, rs, StopAt(o, batch), now, ws);
      BatchUsable(db, ws, o, rs, StopAt(o, batch), now, overflow);
    }
  }

  lemma DropUsable(db: Database)
    requires Usable(db)
    ensures Usable(Committed(db, Compaction.DropWrites, false))
  {
    Compaction.DropRows(db);
  }

  class BillingInbox {
    const cfg: Config
    var db: Database
    var failed: bool
    var closed: bool
    var recovering: bool

    ghost predicate Valid() reads this { Usable(db) }

    predicate Serving() reads this { !failed && !closed }

    constructor (config: Config, stored: Database)
      requires Usable(stored)
      ensures Valid() && cfg == config && db == stored && Serving() && recovering == Fenced(stored)
    {
      cfg := config;
      db, failed, closed, recovering := stored, false, false, Fenced(stored);
    }

    /** No compactor survives a restart: an interrupted session is dropped when opening. */
    method ClearSession() returns (err: Option<Error>)
      requires Valid()
      modifies this`db
      ensures Valid() && Settles(Write(if HasSession(old(db)) then Compaction.DropWrites else []), old(db), db, false, err)
    {
      if !HasSession(db) { return None; }
      var t := new MutationTx(db);
      ApplySingle(db, Delete(Meta, Field(CompactionSession)));
      t.Record(Delete(Meta, Field(CompactionSession)));
      assert t.writes == Compaction.DropWrites;
      DropUsable(db);
      err := Commit(t, false);
    }

    /** The tail of `updateLocked`: the generation, and the journal entry or the dropped session. */
    method Commit(t: MutationTx, overflow: bool) returns (err: Option<Error>)
      requires t.Valid() && t.base == db && Meta in db && (HasSession(t.db) ==> MutationJournal in t.db)
      modifies this`db, t
      ensures Settles(Write(old(t.writes)), old(db), db, overflow, err)
    {
      if t.writes == [] { return None; }
      ApplyKeepsBuckets(t.base, t.writes);
      var g := Generation(t.db);
      if g >= MAX_UINT64 { return Some(Unavailable); }
      t.Record(Put(Meta, Field(MutationGeneration), Num(g + 1)));
      if !HasSession(t.db) {
        db := t.db;
      } else if overflow {
        db := ApplyOne(t.db, Delete(Meta, Field(CompactionSession)));
      } else {
        db := ApplyOne(t.db, Put(MutationJournal, Seq(g + 1), WriteSet(t.writes)));
      }
      err := None;
    }

    /** A decided closure is committed; a refused one leaves no trace. */
    method Finish(t: MutationTx, refusal: Option<Error>, overflow: bool, ghost outcome: Outcome) returns (err: Option<Error>)
      requires Valid() && t.Valid() && t.base == db && Decides(outcome, t.writes, refusal)
      requires outcome.Write? ==> DomainWrites(outcome.writes) && Usable(Committed(db, outcome.writes, overflow))
      modifies this`db, t
      ensures Valid() && Settles(outcome, old(db), db, overflow, err)
    {
      if refusal.Some? { return refusal; }
      UsableBuckets(db);
      SessionSame(db, t.writes);
      err := Commit(t, overflow);
    }

    /** Accepts an event, or says why not. A failure that is not a verdict on the event
        latches the inbox. */
    method InsertEvent(e: LogEvent, now: nat, overflow: bool) returns (err: Option<Error>)
      requires Valid()
      modifies this`db, this`failed
      ensures Valid()
      ensures old(!Serving() || recovering) ==> err == Some(Unavailable) && db == old(db) && failed == old(failed)
      ensures old(Serving() && !recovering) ==>
                Settles(InsertOutcome(old(db), e, now), old(db), db, overflow, err) && failed == (err == Some(Unavailable))
    {
      if !Serving() || recovering { return Some(Unavailable); }
      UsableBuckets(db);
      var t := new MutationTx(db);
      err := InsertInto(t, e, now);
      if err == None { InsertUsable(db, e, now, overflow); }
      err := Finish(t, err, overflow, InsertOutcome(db, e, now));
      if err == Some(Unavailable) { failed := true; }
    }

    /** A page of the accept log; finding the store inconsistent latches the inbox. */
    method Page(text: CursorText, limit: nat) returns (r: Result<Paging.Page>)
      modifies this`failed
      ensures r == if old(!Serving() || recovering) then Err(Unavailable) else PageOutcome(db, text, limit)
      ensures failed == (old(failed) || (old(Serving() && !recovering) && r == Err(Unavailable)))
    {
      if !Serving() || recovering { return Err(Unavailable); }
      if limit < 1 || limit > MAX_QUERY_LIMIT { return Err(CursorInvalid); }
      var start := StartOf(db, text);
      if start == None { return Err(CursorInvalid); }
      var records := GatherLoop(db, start.value.after, start.value.through, limit);
      if records.Err? {
        if records.error == Unavailable { failed := true; }
        return Err(records.error);
      }
      r := Ok(PageOf(db, start.value, records.value));
    }

    method Migrate(batch: nat, now: nat, overflow: bool) returns (err: Option<Error>)
      requires Valid()
      modifies this`db
      ensures Valid()
      ensures old(!Serving() || recovering) || batch < 1 || batch > 1000 ==> err.Some? && db == old(db)
      ensures old(Serving() && !recovering) && 1 <= batch <= 1000 ==>
                Settles(MigrateOutcome(old(db), batch, now), old(db), db, overflow, err)
    {
      if batch < 1 || batch > 1000 { return Some(LifecycleConflict); }
      if !Serving() || recovering { return Some(Unavailable); }
      UsableBuckets(db);
      var t := new MutationTx(db);
      err := MigrateInto(t, batch, now);
      if err == None {
        MigrateIsDomain(db, batch, now);
        MigrateUsable(db, batch, now, overflow);
      }
      err := Finish(t, err, overflow, MigrateOutcome(db, batch, now));
    }

    method PlanRetirement(p: RetirementPlan, now: nat, overflow: bool) returns (err: Option<Error>)
      requires Valid()
      modifies this`db
      ensures Valid() && Guarded(old(Serving()), PlanOutcome(cfg, old(db), p, now), old(db), db, overflow, err)
    {
      if !Serving() { return Some(Unavailable); }
      UsableBuckets(db);
      var t := new MutationTx(db);
      err := PlanInto(t, cfg, p, now);
      if err == None { PlanUsable(cfg, db, p, now, overflow); }
      err := Finish(t, err, overflow, PlanOutcome(cfg, db, p, now));
    }

    /** `seen` was read, and the authority asked, before this transaction. */
    method ApplyRetirement(id: string, seen: Option<RetirementStatus>, authority: bool, now: nat, overflow: bool)
      returns (err: Option<Error>)
      requires Valid()
      modifies this`db
      ensures Valid() && Guarded(old(Serving()), ApplyOutcome(cfg, old(db), id, seen, authority, now), old(db), db, overflow, err)
    {
      if !Serving() { return Some(Unavailable); }
      UsableBuckets(db);
      var t := new MutationTx(db);
      err := ApplyInto(t, cfg, id, seen, authority, now);
      if err == None { ApplyUsable(cfg, db, id, seen, authority, now, overflow); }
      err := Finish(t, err, overflow, ApplyOutcome(cfg, db, id, seen, authority, now));
    }

    method AbortRetirementPlan(p: RetirementPlan, seen: Option<RetirementStatus>, authority: bool, now: nat, overflow: bool)
      returns (err: Option<Error>)
      requires Valid()
      modifies this`db
      ensures Valid() && Guarded(old(Serving()), AbortOutcome(cfg, old(db), p, seen, authority, now), old(db), db, overflow, err)
    {
      if !Serving() { return Some(Unavailable); }
      UsableBuckets(db);
      var t := new MutationTx(db);
      err := AbortInto(t, cfg, p, seen, authority, now);
      if err == None { AbortUsable(cfg, db, p, seen, authority, now, overflow); }
      err := Finish(t, err, overflow, AbortOutcome(cfg, db, p, seen, authority, now));
    }

    method VerifyCatalog(id: string, completion: Completion, now: nat, overflow: bool) returns (err: Option<Error>)
      requires Valid()
      modifies this`db
      ensures Valid() && Guarded(old(Serving()), VerifyOutcome(cfg, old(db), id, completion, now), old(db), db, overflow, err)
    {
      if !Serving() { return Some(Unavailable); }
      UsableBuckets(db);
      var t := new MutationTx(db);
      err := VerifyInto(t, cfg, id, completion, now);
      if err == None { VerifyUsable(cfg, db, id, completion, now, overflow); }
      err := Finish(t, err, overflow, VerifyOutcome(cfg, db, id, completion, now));
    }

    method SealCapture(id: string, m: Manifest, overflow: bool) returns (err: Option<Error>)
      requires Valid() && Captures in db
      modifies this`db
      ensures Valid() && Guarded(old(Serving()), SealOutcome(old(db), id, m), old(db), db, overflow, err)
    {
      if !Serving() { return Some(Unavailable); }
      UsableBuckets(db);
      var t := new MutationTx(db);
      err := SealInto(t, id, m);
      if err == None { SealUsable(db, id, m, overflow); }
      err := Finish(t, err, overflow, SealOutcome(db, id, m));
    }

    /** `saveCapture`. */
    method SaveCapture(st: CaptureStatus, overflow: bool) returns (err: Option<Error>)
      requires Valid() && Captures in db
      modifies this`db
      ensures Valid() && Guarded(old(Serving()), Write([PutCapture(st)]), old(db), db, overflow, err)
    {
      if !Serving() { return Some(Unavailable); }
      UsableBuckets(db);
      var t := new MutationTx(db);
      SaveInto(t, st);
      SaveUsable(db, st, overflow);
      err := Finish(t, None, overflow, Write([PutCapture(st)]));
    }

    method Rehydrate(set_: string, records: seq<ExportRecord>, overflow: bool) returns (err: Option<Error>)
      requires Valid()
      modifies this`db
      ensures Valid() && Guarded(old(Serving()), RehydrateOutcome(cfg, old(db), set_, records), old(db), db, overflow, err)
    {
      if !Serving() { return Some(Unavailable); }
      UsableBuckets(db);
      var t := new MutationTx(db);
      err := RehydrateInto(t, cfg, set_, records);
      if err == None { RehydrateUsable(cfg, db, set_, records, overflow); }
      err := Finish(t, err, overflow, RehydrateOutcome(cfg, db, set_, records));
    }

    method EvictCache(through: nat, overflow: bool) returns (err: Option<Error>)
      requires Valid()
      modifies this`db
      ensures Valid() && Guarded(old(Serving()), EvictOutcome(cfg, old(db), through), old(db), db, overflow, err)
    {
      if !Serving() { return Some(Unavailable); }
      UsableBuckets(db);
      var t := new MutationTx(db);
      err := EvictInto(t, cfg, through);
      if err == None { EvictUsable(cfg, db, through, overflow); }
      err := Finish(t, err, overflow, EvictOutcome(cfg, db, through));
    }

    /** The flag in memory goes up inside the closure, so it is up even when the commit of the
        durable fence fails. */
    method SetRecoveryMode(overflow: bool) returns (err: Option<Error>)
      requires Valid()
      modifies this`db, this`recovering
      ensures Valid() && Guarded(old(Serving()), SetRecoveryOutcome(), old(db), db, overflow, err)
      ensures recovering == old(recovering || Serving())
    {
      if !Serving() { return Some(Unavailable); }
      UsableBuckets(db);
      var t := new MutationTx(db);
      t.Record(Put(Meta, Field(RecoveryFence), Flag));
      recovering := true;
      SetRecoveryUsable(db, overflow);
      err := Finish(t, None, overflow, SetRecoveryOutcome());
    }

    /** The first lock section of `AdmitRecovery`: the fence comes down in the transaction. */
    method AdmitRecovery(a: SignedApproval, now: nat, overflow: bool) returns (err: Option<Error>)
      requires Valid()
      modifies this`db
      ensures Valid() && Guarded(old(Serving()), AdmitOutcome(cfg, old(db), a, now), old(db), db, overflow, err)
    {
      if !Serving() { return Some(Unavailable); }
      UsableBuckets(db);
      var t := new MutationTx(db);
      err := AdmitInto(t, cfg, a, now);
      if err == None { AdmitUsable(cfg, db, a, now, overflow); }
      err := Finish(t, err, overflow, AdmitOutcome(cfg, db, a, now));
    }

    /** The second, after a transaction that committed: it clears the flag without looking at
        the fence. */
    method ClearRecovering()
      modifies this`recovering
      ensures !recovering
    {
      recovering := false;
    }
  }
}
