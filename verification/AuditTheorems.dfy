/** The audit passes in every reachable version-2 state, except for exactly two conditions
    that no operation enforces: the environments of the hot events, and the ranges of
    operations that were aborted unseen. */
module AuditTheorems {
  import opened Types
  import opened Store
  import opened Gateway
  import opened Replay
  import opened Archive
  import opened Invariant
  import opened Lifecycle
  import opened Insertion
  import opened Retirement
  import opened Operations
  import opened Audit
  import Migration
  import Backup
  import opened Transactions
  import Intervals

  /** Every hot event carries an allowed source environment. */
  predicate HotAllowed(cfg: Config, events: Rowset) {
    forall k <- events :: events[k].Body? ==> events[k].r.event.env in cfg.sources
  }

  /** No operation names a sequence beyond the head. */
  predicate WithinHead(operations: Rowset, head: nat) {
    forall k <- operations :: operations[k].Operation? ==> operations[k].o.through <= head
  }

  // ---- counting ------------------------------------------------------------------------------------

  function NamesOf(log: Log): set<Key> { set i | 0 <= i < |log| :: Name(log[i].event.id) }

  lemma {:induction false} NamesCount(log: Log)
    requires forall i, j :: 0 <= i < j < |log| ==> log[i].event.id != log[j].event.id
    ensures |NamesOf(log)| == |log|
  {
    if log != [] {
      var rest, last := log[..|log| - 1], Name(log[|log| - 1].event.id);
      NamesCount(rest);
      assert NamesOf(log) == NamesOf(rest) + {last} by {
        forall k | k in NamesOf(log) ensures k in NamesOf(rest) + {last} {
          var i :| 0 <= i < |log| && k == Name(log[i].event.id);
          if i < |rest| { assert rest[i] == log[i]; }
        }
        forall k | k in NamesOf(rest) ensures k in NamesOf(log) {
          var i :| 0 <= i < |rest| && k == Name(rest[i].event.id);
          assert log[i] == rest[i];
        }
      }
      assert last !in NamesOf(rest);
    }
  }

  function SequenceKeys(head: nat): set<Key> { set n | 1 <= n <= head :: Seq(n) }

  lemma {:induction false} SequencesCount(head: nat)
    ensures |SequenceKeys(head)| == head
  {
    if head > 0 {
      SequencesCount(head - 1);
      assert SequenceKeys(head) == SequenceKeys(head - 1) + {Seq(head)};
    }
  }

  lemma IdsDistinct(ids: Rowset, log: Log, era: Era)
    requires IdsOk(ids, log, era) && LogOk(log)
    ensures forall i, j :: 0 <= i < j < |log| ==> log[i].event.id != log[j].event.id
  {
    forall i, j | 0 <= i < j < |log| ensures log[i].event.id != log[j].event.id {
      assert Decodes(log[i], i + 1) && Decodes(log[j], j + 1);
      assert ids[Name(log[i].event.id)] == IdValue(log[i], era) && ids[Name(log[j].event.id)] == IdValue(log[j], era);
      assert SequenceOfId(IdValue(log[i], era)) == i + 1 && SequenceOfId(IdValue(log[j], era)) == j + 1;
    }
  }

  lemma IdsCount(ids: Rowset, log: Log, era: Era)
    requires IdsOk(ids, log, era) && LogOk(log)
    ensures |ids| == |log|
  {
    IdsDistinct(ids, log, era);
    NamesCount(log);
    assert ids.Keys == NamesOf(log) by {
      forall k | k in ids ensures k in NamesOf(log) {
        assert IdKnown(ids, k, log);
        assert k == Name(log[SequenceOfId(ids[k]) - 1].event.id);
      }
    }
    assert |ids| == |ids.Keys|;
  }

  lemma ReceiptsCount(rows: Rowset, head: nat)
    requires forall k :: k in rows <==> SequenceKey(0, head, k)
    ensures ReceiptsAudit(rows, head)
  {
    SequencesCount(head);
    assert rows.Keys == SequenceKeys(head);
    assert |rows| == |rows.Keys|;
  }

  // ---- clause by clause -----------------------------------------------------------------------------

  lemma MetaPasses(db: Database)
    requires MetaOk(db) && BucketsOk(db) && VersionOf(db) == V2 && EraOk(EraOf(db), Head(db), AgeFloor(db))
    requires Generation(db) > 0 && Floor(db) <= Head(db)
    ensures MetaAudit(db)
  {
    var meta := Rows(db, Meta);
    assert forall k <- meta :: k.Field? && MetaValueOk(k.f, meta[k]);
    assert Field(LegacyThrough) in meta && Field(BackfilledThrough) in meta;
  }

  lemma IdsPass(db: Database, log: Log)
    requires LedgerOk(db, log) && VersionOf(db) == V2
    ensures IdsAudit(db)
  {
    hide LedgerOk, VersionOf, IdGood, IdsOk;
    LedgerIds(db, log);
    IdsCount(Rows(db, Ids), log, EraOf(db));
    forall k | k in Rows(db, Ids) ensures IdGood(Rows(db, ReceiptIds), Head(db), k, Rows(db, Ids)[k]) {
      IdPasses(db, log, k);
    }
  }

  lemma LedgerIds(db: Database, log: Log)
    requires LedgerOk(db, log)
    ensures LogOk(log) && IdsOk(Rows(db, Ids), log, EraOf(db)) && |log| == Head(db)
  {
    hide LogOk, IdsOk;
  }

  lemma IdPasses(db: Database, log: Log, k: Key)
    requires LedgerOk(db, log) && VersionOf(db) == V2 && k in Rows(db, Ids)
    ensures IdGood(Rows(db, ReceiptIds), Head(db), k, Rows(db, Ids)[k])
  {
    hide LedgerOk, IdsOk, LogOk, VersionOf, EraOf, Acceptable;
    LedgerIds(db, log);
    KnownId(Rows(db, Ids), log, EraOf(db), k);
    var n := SequenceOfId(Rows(db, Ids)[k]);
    OriginalBinds(db, log, n);
    SequenceReads(db, log, n);
    AcceptedLength(log[n - 1], n);
  }

  lemma KnownId(ids: Rowset, log: Log, era: Era, k: Key)
    requires IdsOk(ids, log, era) && k in ids
    ensures IdKnown(ids, k, log)
  {}

  lemma AcceptedLength(r: BillingRecord, n: nat)
    requires Decodes(r, n)
    ensures 0 < |r.event.id| <= MAX_ID_BYTES && BindingOf(r).sequence == n
  {}

  lemma ReceiptsPass(db: Database, log: Log)
    requires LedgerOk(db, log) && VersionOf(db) == V2
    ensures ReceiptsAudit(Rows(db, ReceiptTimes), Head(db)) && ReceiptsAudit(Rows(db, ReceiptIds), Head(db))
  {
    ReceiptsCount(Rows(db, ReceiptTimes), Head(db));
    ReceiptsCount(Rows(db, ReceiptIds), Head(db));
  }

  lemma SequencePasses(cfg: Config, db: Database, log: Log, n: nat)
    requires SchemaOk(db) && LedgerOk(db, log) && VersionOf(db) == V2 && 1 <= n <= |log|
    ensures SequenceGood(cfg, db, n) <==> n <= Floor(db) || log[n - 1].event.env in cfg.sources
  {
    hide SchemaOk, IdsOk, Get, Rows, ReceiptTime, BucketsOk;
    ReceiptTimeDefined(db, log, n);
    OriginalBinds(db, log, n);
    SequenceReads(db, log, n);
  }

  lemma SequenceReads(db: Database, log: Log, n: nat)
    requires LedgerOk(db, log) && VersionOf(db) == V2 && 1 <= n <= |log|
    ensures Get(db, ReceiptIds, Seq(n)) == Some(Text(log[n - 1].event.id))
    ensures n > Floor(db) ==> Get(db, Events, Seq(n)) == Some(Body(log[n - 1]))
  {
    assert Seq(n) in Rows(db, ReceiptIds);
  }

  predicate AllowedAt(cfg: Config, log: Log, n: nat) requires 1 <= n <= |log| { log[n - 1].event.env in cfg.sources }

  predicate LogAllowed(cfg: Config, log: Log, floor: nat) { forall n :: floor < n <= |log| ==> AllowedAt(cfg, log, n) }

  lemma SequencesPass(cfg: Config, db: Database, log: Log)
    requires SchemaOk(db) && LedgerOk(db, log) && VersionOf(db) == V2
    ensures SequencesAudit(cfg, db) <==> HotAllowed(cfg, Rows(db, Events))
  {
    SequencesAllowed(cfg, db, log);
    HotIs(cfg, Rows(db, Events), log, Floor(db));
  }

  lemma SequencesAllowed(cfg: Config, db: Database, log: Log)
    requires SchemaOk(db) && LedgerOk(db, log) && VersionOf(db) == V2
    ensures SequencesAudit(cfg, db) <==> LogAllowed(cfg, log, Floor(db))
  {
    forall n | 1 <= n <= |log| ensures SequenceGood(cfg, db, n) <==> n <= Floor(db) || AllowedAt(cfg, log, n) {
      SequencePasses(cfg, db, log, n);
    }
  }

  lemma HotIs(cfg: Config, events: Rowset, log: Log, floor: nat)
    requires HotOk(events, log, floor)
    ensures HotAllowed(cfg, events) <==> LogAllowed(cfg, log, floor)
  {
    forall n | floor < n <= |log| ensures Seq(n) in events && events[Seq(n)] == Body(log[n - 1]) {}
    if LogAllowed(cfg, log, floor) {
      forall k | k in events ensures events[k].Body? && events[k].r.event.env in cfg.sources {
        assert k == Seq(k.n) && floor < k.n <= |log| && AllowedAt(cfg, log, k.n);
      }
    }
    if HotAllowed(cfg, events) {
      forall n | floor < n <= |log| ensures AllowedAt(cfg, log, n) { assert Seq(n) in events; }
    }
  }

  lemma CatalogPasses(cfg: Config, db: Database)
    requires ProtocolOk(cfg, db)
    ensures CatalogAudit(cfg, db)
  {
    var catalog, captures := Rows(db, Catalog), Rows(db, Captures);
    forall k | k in catalog ensures EntryGood(cfg, StoreId(db), k, catalog[k]) {
      EntryPasses(cfg, catalog, captures, StoreId(db), MetaNum(db, CapturedThrough), k);
    }
  }

  lemma EntryPasses(cfg: Config, catalog: Rowset, captures: Rowset, storeId: string, captured: nat, k: Key)
    requires k in catalog && CatalogEntryOk(cfg, catalog, captures, k)
    requires forall j <- captures :: CaptureShape(cfg, captures, j, storeId, captured)
    ensures EntryGood(cfg, storeId, k, catalog[k])
  {
    assert CaptureShape(cfg, captures, k, storeId, captured);
  }

  lemma CachePasses(db: Database, log: Log)
    requires LedgerOk(db, log) && VersionOf(db) == V2
    ensures CacheAudit(db)
  {
    var rows := Rows(db, ArchiveCache);
    forall k | k in rows ensures CachedGood(db, k, rows[k]) { OriginalBinds(db, log, k.n); }
  }

  lemma OperationsPass(cfg: Config, db: Database)
    requires ProtocolOk(cfg, db)
    ensures OperationsAudit(cfg, db) <==> WithinHead(Rows(db, Operations), Head(db))
  {
    var operations := Rows(db, Operations);
    forall k | k in operations
      ensures OperationGood(cfg, StoreId(db), Head(db), Floor(db), k, operations[k]) <==> operations[k].o.through <= Head(db)
      ensures operations[k].Operation?
    {
      assert OperationOk(cfg, k, operations[k], StoreId(db), Floor(db));
    }
  }

  lemma EventsPass(db: Database, log: Log)
    requires LedgerOk(db, log)
    ensures EventsAudit(db)
  {}

  /** What the audit asks beyond the invariant. */
  predicate Clean(cfg: Config, db: Database) {
    HotAllowed(cfg, Rows(db, Events)) && WithinHead(Rows(db, Operations), Head(db))
  }

  /** In every state of the invariant at version 2 the audit passes if and only if the hot
      environments are allowed and no operation names a sequence beyond the head; every
      other clause of the audit holds by itself. */
  lemma AuditExact(cfg: Config, db: Database, log: Log)
    requires Inv(cfg, db, log) && VersionOf(db) == V2
    ensures AuditOk(cfg, db) <==> Clean(cfg, db)
  {
    MetaPasses(db);
    IdsPass(db, log);
    ReceiptsPass(db, log);
    SequencesPass(cfg, db, log);
    EventsPass(db, log);
    CatalogPasses(cfg, db);
    CachePasses(db, log);
    OperationsPass(cfg, db);
  }

  lemma FrontierAgrees(cfg: Config, db: Database, ranges: seq<Intervals.Interval>, covered: nat, high: nat)
    requires ProtocolOk(cfg, db) && Backup.IsProtected(Rows(db, Catalog), high)
    requires forall n: nat :: Intervals.Covers(ranges, n) <==> SomeCatalog(Rows(db, Catalog), n)
    requires forall h: nat :: Intervals.CoversPrefix(ranges, h) <==> h <= covered
    ensures covered == high
  {
    hide ProtocolOk, SomeCatalog, Backup.IsProtected, Intervals.Covers;
    Backup.ProtectedPrefix(cfg, db, high);
    assert Intervals.CoversPrefix(ranges, high);
    assert Intervals.CoversPrefix(ranges, covered);
    assert covered > 0 ==> Intervals.Covers(ranges, covered);
  }

  /** The worker's maximum and the audit's sort-and-merge loop, run on the same store, find
      the same number, and it is the exact end of what is verified. */
  method WorkerAgrees(cfg: Config, db: Database) returns (high: nat, covered: nat)
    requires ProtocolOk(cfg, db)
    ensures high == covered && forall n: nat :: SomeCatalog(Rows(db, Catalog), n) <==> 1 <= n <= high
  {
    hide ProtocolOk, SomeCatalog, Backup.IsProtected, GreatestVerified, Intervals.CoversPrefix;
    high := ProtectedHighWater(cfg, Rows(db, Catalog));
    var ranges := CatalogRanges(Rows(db, Catalog));
    covered := Intervals.ContiguousPrefix(ranges);
    CatalogVerifies(cfg, db, high);
    Backup.ProtectedPrefix(cfg, db, high);
    FrontierAgrees(cfg, db, ranges, covered, high);
  }

  // ---- the audit along a run ---------------------------------------------------------------------------

  /** The transaction commits something. */
  predicate Effective(cfg: Config, n: Node, op: Op) {
    Decide(cfg, n, op).Write? && Decide(cfg, n, op).writes != [] && !GenerationExhausted(n.db, Decide(cfg, n, op).writes)
  }

  /** The two checks the operations leave to their callers: an inserted event has an allowed
      environment, and an abort of an operation this store never saw stays within the head. */
  predicate CallerChecks(cfg: Config, n: Node, op: Op) {
    match op
    case Insert(e, _) => e.env in cfg.sources
    case AbortOp(p, _, _, _) => Name(p.operationId) in Rows(n.db, Operations) || p.through <= Head(n.db)
    case _ => true
  }

  datatype Stored = Stored(id: string, status: RetirementStatus)

  ghost predicate Grew(log': Log, log: Log, grown: Option<BillingRecord>) {
    match grown case None => log' == log case Some(r) => log' == log + [r]
  }

  ghost predicate Wrote(d: Database, db: Database, written: Option<Stored>) {
    match written
    case None => Rows(d, Operations) == Rows(db, Operations)
    case Some(w) => OneOperation(d, db, w.id, w.status)
  }

  lemma AllowedMoves(cfg: Config, log': Log, log: Log, floor': nat, floor: nat, grown: Option<BillingRecord>)
    requires Grew(log', log, grown) && LogAllowed(cfg, log, floor) && floor <= floor' <= |log|
    ensures LogAllowed(cfg, log', floor') <==> (grown.Some? ==> grown.value.event.env in cfg.sources)
  {
    forall n | floor' < n <= |log| ensures AllowedAt(cfg, log', n) { assert AllowedAt(cfg, log, n) && log'[n - 1] == log[n - 1]; }
    if grown.Some? { assert AllowedAt(cfg, log', |log'|) <==> grown.value.event.env in cfg.sources; }
  }

  lemma WithinMoves(d: Database, db: Database, written: Option<Stored>)
    requires Wrote(d, db, written) && WithinHead(Rows(db, Operations), Head(db)) && Head(db) <= Head(d)
    ensures WithinHead(Rows(d, Operations), Head(d)) <==> (written.Some? ==> written.value.status.through <= Head(d))
  {
    var after, before := Rows(d, Operations), Rows(db, Operations);
    if written.Some? { assert after[Name(written.value.id)] == Operation(written.value.status); }
    forall k | k in after && k in before && after[k] == before[k] && after[k].Operation? ensures after[k].o.through <= Head(d) {}
  }

  /** From a clean state, the next one is clean exactly when what was added is in order. */
  lemma CleanMoves(cfg: Config, d: Database, log': Log, db: Database, log: Log, grown: Option<BillingRecord>, written: Option<Stored>)
    requires Inv(cfg, db, log) && Inv(cfg, d, log') && Promises(d, db) && Clean(cfg, db)
    requires Grew(log', log, grown) && Wrote(d, db, written) && (grown.Some? ==> Floor(d) == Floor(db))
    ensures Clean(cfg, d) <==>
              (grown.Some? ==> grown.value.event.env in cfg.sources) && (written.Some? ==> written.value.status.through <= Head(d))
  {
    FloorBelow(cfg, d, log');
    HotIs(cfg, Rows(db, Events), log, Floor(db));
    HotIs(cfg, Rows(d, Events), log', Floor(d));
    FloorBelow(cfg, db, log);
    AllowedMoves(cfg, log', log, Floor(d), Floor(db), grown);
    WithinMoves(d, db, written);
  }

  lemma FloorBelow(cfg: Config, db: Database, log: Log)
    requires Inv(cfg, db, log)
    ensures HotOk(Rows(db, Events), log, Floor(db)) && Floor(db) <= |log| == Head(db)
  {}

  // ---- what each transaction adds ----------------------------------------------------------------------------

  lemma InsertAdds(cfg: Config, n: Node, e: LogEvent, now: nat, ws: seq<Mutation>, overflow: bool)
    requires NodeInv(cfg, n) && Clean(cfg, n.db) && now > 0
    requires InsertOutcome(n.db, e, now) == Write(ws)
    ensures Clean(cfg, Committed(n.db, ws, overflow)) <==> e.env in cfg.sources
  {
    InsertKeeps(cfg, n.db, n.log, e, now, ws, overflow);
    CleanMoves(cfg, Committed(n.db, ws, overflow), n.log + [RecordFor(n.db, e)], n.db, n.log, Some(RecordFor(n.db, e)), None);
  }

  lemma PlanAdds(cfg: Config, n: Node, p: RetirementPlan, now: nat, ws: seq<Mutation>, overflow: bool)
    requires NodeInv(cfg, n) && Clean(cfg, n.db)
    requires PlanOutcome(cfg, n.db, p, now) == Write(ws) && ws != []
    ensures Clean(cfg, Committed(n.db, ws, overflow))
  {
    PlanKeeps(cfg, n.db, n.log, p, now, ws, overflow);
    CleanMoves(cfg, Committed(n.db, ws, overflow), n.log, n.db, n.log, None,
               Some(Stored(p.operationId, StatusFor(p).(retiredThrough := Floor(n.db)))));
  }

  lemma WithinOne(cfg: Config, db: Database, log: Log, id: string, st: RetirementStatus)
    requires Inv(cfg, db, log) && Clean(cfg, db) && Get(db, Operations, Name(id)) == Some(Operation(st))
    ensures st.through <= Head(db)
  {
    assert Rows(db, Operations)[Name(id)] == Operation(st);
  }

  lemma ApplyAdds(cfg: Config, n: Node, id: string, seen: Option<RetirementStatus>, authority: bool, now: nat,
                  ws: seq<Mutation>, overflow: bool)
    requires NodeInv(cfg, n) && Clean(cfg, n.db) && now > 0
    requires ApplyOutcome(cfg, n.db, id, seen, authority, now) == Write(ws) && ws != []
    ensures Clean(cfg, Committed(n.db, ws, overflow))
  {
    ApplyKeeps(cfg, n.db, n.log, id, seen, authority, now, ws, overflow);
    WithinOne(cfg, n.db, n.log, id, seen.value);
    CleanMoves(cfg, Committed(n.db, ws, overflow), n.log, n.db, n.log, None, Some(Stored(id, CompletedStatus(seen.value, now))));
  }

  lemma TargetWithin(cfg: Config, n: Node, p: RetirementPlan, seen: Option<RetirementStatus>)
    requires NodeInv(cfg, n) && Clean(cfg, n.db)
    requires AbortTarget(n.db, p, seen).Some? && (seen.Some? ==> StatusOf(seen.value, p))
    ensures AbortTarget(n.db, p, seen).value.through <= Head(n.db) <==>
              Name(p.operationId) in Rows(n.db, Operations) || p.through <= Head(n.db)
  {
    hide Inv, RunOk;
    if Name(p.operationId) in Rows(n.db, Operations) {
      WithinOne(cfg, n.db, n.log, p.operationId, AbortTarget(n.db, p, seen).value);
    }
  }

  lemma AbortAdds(cfg: Config, n: Node, p: RetirementPlan, seen: Option<RetirementStatus>, authority: bool, now: nat,
                  ws: seq<Mutation>, overflow: bool)
    requires NodeInv(cfg, n) && Clean(cfg, n.db) && now > 0
    requires AbortOutcome(cfg, n.db, p, seen, authority, now) == Write(ws) && ws != []
    ensures Clean(cfg, Committed(n.db, ws, overflow)) <==>
              Name(p.operationId) in Rows(n.db, Operations) || p.through <= Head(n.db)
  {
    AbortKeeps(cfg, n.db, n.log, p, seen, authority, now, ws, overflow);
    TargetWithin(cfg, n, p, seen);
    var st := AbortedStatus(AbortTarget(n.db, p, seen).value, Floor(n.db), now);
    var d := Committed(n.db, ws, overflow);
    CleanMoves(cfg, d, n.log, n.db, n.log, None, Some(Stored(p.operationId, st)));
    assert Head(d) == |n.log| == Head(n.db);
  }

  lemma OtherAdds(cfg: Config, n: Node, op: Op, ws: seq<Mutation>, overflow: bool)
    requires NodeInv(cfg, n) && Clean(cfg, n.db) && Kept(cfg, n, op, ws, overflow)
    requires !op.Insert? && !op.PlanOp? && !op.ApplyOp? && !op.AbortOp?
    ensures Clean(cfg, Committed(n.db, ws, overflow))
  {
    CleanMoves(cfg, Committed(n.db, ws, overflow), n.log, n.db, n.log, None, None);
  }

  lemma RetirementClean(cfg: Config, n: Node, op: Op, ws: seq<Mutation>, overflow: bool)
    requires NodeInv(cfg, n) && op.Timed() && Clean(cfg, n.db) && Operations.DecidedWrites(cfg, n, op, ws) && ws != []
    requires op.PlanOp? || op.ApplyOp? || op.AbortOp?
    ensures Clean(cfg, Committed(n.db, ws, overflow)) <==> CallerChecks(cfg, n, op)
  {
    if op.PlanOp? {
      PlanAdds(cfg, n, op.plan, op.now, ws, overflow);
    } else if op.ApplyOp? {
      ApplyAdds(cfg, n, op.id, op.seen, op.authority, op.now, ws, overflow);
    } else {
      AbortAdds(cfg, n, op.plan, op.seen, op.authority, op.now, ws, overflow);
    }
  }

  lemma CommitClean(cfg: Config, n: Node, op: Op, ws: seq<Mutation>, overflow: bool)
    requires NodeInv(cfg, n) && op.Timed() && Clean(cfg, n.db) && Operations.DecidedWrites(cfg, n, op, ws) && ws != []
    requires Kept(cfg, n, op, ws, overflow)
    ensures Clean(cfg, Committed(n.db, ws, overflow)) <==> CallerChecks(cfg, n, op)
  {
    if op.Insert? {
      InsertAdds(cfg, n, op.event, op.now, ws, overflow);
    } else if op.PlanOp? || op.ApplyOp? || op.AbortOp? {
      RetirementClean(cfg, n, op, ws, overflow);
    } else {
      OtherAdds(cfg, n, op, ws, overflow);
    }
  }

  lemma DecisionClean(cfg: Config, n: Node, op: Op, ws: seq<Mutation>, overflow: bool)
    requires NodeInv(cfg, n) && op.Timed() && Clean(cfg, n.db) && Decide(cfg, n, op) == Write(ws) && ws != []
    ensures Clean(cfg, Committed(n.db, ws, overflow)) <==> CallerChecks(cfg, n, op)
  {
    Decided(cfg, n, op, ws);
    DecisionKept(cfg, n, op, ws, overflow);
    CommitClean(cfg, n, op, ws, overflow);
  }

  /** A committed transaction stays clean exactly when its caller's checks hold. */
  lemma TransactionClean(cfg: Config, n: Node, op: Op, overflow: bool)
    requires NodeInv(cfg, n) && op.Timed() && Clean(cfg, n.db)
    ensures Clean(cfg, Transacted(cfg, n, op, overflow).db) <==> (Effective(cfg, n, op) ==> CallerChecks(cfg, n, op))
  {
    hide NodeInv, Clean, Decide, CallerChecks;
    if Effective(cfg, n, op) { DecisionClean(cfg, n, op, Decide(cfg, n, op).writes, overflow); }
  }

  lemma ExchangeClean(cfg: Config, n: Node, d: Database)
    requires NodeInv(cfg, n) && Clean(cfg, n.db) && StorageChange(d, n.db)
    ensures Clean(cfg, d)
  {
    StorageKeeps(cfg, d, n.db, n.log);
    CleanMoves(cfg, d, n.log, n.db, n.log, None, None);
  }

  lemma EventClean(cfg: Config, n: Node, event: Event)
    requires NodeInv(cfg, n) && Clean(cfg, n.db) && Next(cfg, n, event).Some?
    ensures Clean(cfg, Next(cfg, n, event).value.db) <==>
              (event.Transact? && Effective(cfg, n, event.op) ==> CallerChecks(cfg, n, event.op))
  {
    hide NodeInv, Clean, StorageChange, Transacted, Effective, CallerChecks, Installable, Reopenable, Reopened, Committed;
    if event.Transact? {
      TransactionClean(cfg, n, event.op, event.overflow);
    } else if event.StartSession? || event.DropSession? || event.Cutover? {
      StorageKept(cfg, n, event);
      ExchangeClean(cfg, n, Next(cfg, n, event).value.db);
    } else if event.Restart? {
      MetaExists(cfg, n);
      RestartSame(event.found, n.db);
      ExchangeClean(cfg, n, Reopened(event.found));
    }
  }

  lemma MetaExists(cfg: Config, n: Node)
    requires NodeInv(cfg, n)
    ensures Meta in n.db
  {
    hide LedgerOk, ProtocolOk, RunOk;
  }

  lemma AuditIsClean(cfg: Config, n: Node)
    requires NodeInv(cfg, n) && VersionOf(n.db) == V2
    ensures AuditOk(cfg, n.db) <==> Clean(cfg, n.db)
  {
    AuditExact(cfg, n.db, n.log);
  }

  lemma StaysV2(cfg: Config, n: Node, event: Event)
    requires NodeInv(cfg, n) && VersionOf(n.db) == V2 && Next(cfg, n, event).Some?
    ensures NodeInv(cfg, Next(cfg, n, event).value) && VersionOf(Next(cfg, n, event).value.db) == V2
  {
    EventKeeps(cfg, n, event);
  }

  /** The audit is inductive from version 2 on: every operation, capture step, session start,
      session end, restart and cutover preserves it, with exactly the two named exceptions. */
  lemma AuditInductive(cfg: Config, n: Node, event: Event, n': Node)
    requires NodeInv(cfg, n) && VersionOf(n.db) == V2 && AuditOk(cfg, n.db) && Next(cfg, n, event) == Some(n')
    ensures AuditOk(cfg, n'.db) <==>
              (event.Transact? && Effective(cfg, n, event.op) ==> CallerChecks(cfg, n, event.op))
  {
    hide NodeInv, Clean, AuditOk, Effective, CallerChecks, Next;
    AuditIsClean(cfg, n);
    EventClean(cfg, n, event);
    StaysV2(cfg, n, event);
    AuditIsClean(cfg, n');
  }

  // ---- both exceptions are real --------------------------------------------------------------------------

  lemma NotExhausted(db: Database, ws: seq<Mutation>)
    requires DomainWrites(ws) && Generation(db) < MAX_UINT64
    ensures !GenerationExhausted(db, ws)
  {
    DomainFrame(db, ws);
  }

  lemma FreshReadings(cfg: Config, db: Database, n: Node)
    requires FreshStore(cfg, n) && db == n.db
    ensures VersionOf(db) == V1 && Head(db) == 0 && Generation(db) == 0 && !Fenced(db) && !HasSession(db) && Meta in db
    ensures Rows(db, Events) == map[] && Rows(db, Operations) == map[]
  {}

  lemma EmptyMigrated(cfg: Config, db: Database, d: Database, ws: seq<Mutation>, now: nat)
    requires Head(db) == 0 && Generation(db) == 0 && !Fenced(db) && !HasSession(db) && Meta in db && VersionOf(db) == V1
    requires Migration.Advanced(d, db, 1, now) && Advances(d, db)
    requires d == Committed(db, ws, false) && Committable(db, ws)
    ensures VersionOf(d) == V2 && Generation(d) == 1 && !Fenced(d) && StoreId(d) == StoreId(db)
  {
    hide Rows, Get, Committed, Sealing, TableOf, VersionOf, HasSession, Fenced;
    CommitEffect(db, ws, false);
  }

  lemma EmptyAudited(cfg: Config, d: Database)
    requires Inv(cfg, d, []) && VersionOf(d) == V2 && Rows(d, Events) == map[] && Rows(d, Operations) == map[]
    ensures AuditOk(cfg, d)
  {
    AuditExact(cfg, d, []);
  }

  lemma EmptyCommit(cfg: Config, n: Node, now: nat, ws: seq<Mutation>)
    requires FreshStore(cfg, n) && now > 0 && ws == Migration.MigrateOutcome(n.db, 1, now).writes
    requires NodeInv(cfg, n)
    ensures Migration.MigrateOutcome(n.db, 1, now).Write?
    ensures var d := Committed(n.db, ws, false);
      && VersionOf(d) == V2 && Generation(d) == 1 && !Fenced(d) && StoreId(d) == StoreId(n.db)
      && AuditOk(cfg, d) && !GenerationExhausted(n.db, ws)
  {
    FreshReadings(cfg, n.db, n);
    Migration.MigrateProgress(cfg, n.db, n.log, 1, now, false);
    NotExhausted(n.db, ws);
    EmptyMigrated(cfg, n.db, Committed(n.db, ws, false), ws, now);
    EmptyAudited(cfg, Committed(n.db, ws, false));
  }

  /** A new store becomes an empty version-2 store in one call, and passes the audit. */
  lemma EmptyMigrates(cfg: Config, n: Node, now: nat)
    requires FreshStore(cfg, n) && now > 0
    ensures var n' := Transacted(cfg, n, MigrateBatch(1, now), false);
      && NodeInv(cfg, n') && VersionOf(n'.db) == V2 && n'.log == [] && !n'.recovering && n'.run.NoRun?
      && Generation(n'.db) == 1 && !Fenced(n'.db) && StoreId(n'.db) == StoreId(n.db) && AuditOk(cfg, n'.db)
  {
    hide Inv, NodeInv, AuditOk, IdsAudit;
    FreshNode(cfg, n);
    FreshReadings(cfg, n.db, n);
    EmptyCommit(cfg, n, now, Migration.MigrateOutcome(n.db, 1, now).writes);
    TransactKeeps(cfg, n, MigrateBatch(1, now), false);
  }

  const ForeignEvent: LogEvent := LogEvent("event-1", "elsewhere", None, 1, "", 100, true)

  /** An event from an environment outside the allowlist is accepted, and from then on the
      audit fails. */
  lemma ForeignInsertFails(cfg: Config, n: Node, now: nat)
    requires FreshStore(cfg, n) && now > 0 && "elsewhere" !in cfg.sources
    ensures var n1 := Transacted(cfg, n, MigrateBatch(1, now), false);
      var n2 := Transacted(cfg, n1, Insert(ForeignEvent, now), false);
      AuditOk(cfg, n1.db) && |n2.log| == 1 && !AuditOk(cfg, n2.db)
  {
    hide AuditOk, NodeInv, FreshStore, Committed;
    EmptyMigrates(cfg, n, now);
    var n1 := Transacted(cfg, n, MigrateBatch(1, now), false);
    ForeignAccepted(cfg, n1, now);
    AuditInductive(cfg, n1, Transact(Insert(ForeignEvent, now), false), Transacted(cfg, n1, Insert(ForeignEvent, now), false));
  }

  lemma ForeignAccepted(cfg: Config, n: Node, now: nat)
    requires NodeInv(cfg, n) && VersionOf(n.db) == V2 && n.log == [] && !n.recovering && Generation(n.db) == 1
    ensures Effective(cfg, n, Insert(ForeignEvent, now))
  {
    hide InsertWrites, RecordFor, MetaNum, DomainWrites, Get, VersionOf, GenerationExhausted, RunOk, Head, Generation,
         BindingOf, HasVersion, Replayable;
    assert Acceptable(ForeignEvent);
    ReinsertionAnswers(cfg, n.db, n.log, ForeignEvent, now);
    InsertIsDomain(n.db, ForeignEvent, now);
    NotExhausted(n.db, InsertWrites(n.db, ForeignEvent, now));
  }

  /** An abort of an operation this store never saw. */
  function UnseenPlan(cfg: Config, storeId: string): RetirementPlan {
    RetirementPlan("op-1", cfg.environment, storeId, 1, 1, seq(64, i => '0'), "set-1")
  }

  /** The tombstone of an unseen operation beyond the head is stored, and the audit fails
      until the head passes its range. */
  lemma UnseenAbortFails(cfg: Config, n: Node, now: nat)
    requires FreshStore(cfg, n) && now > 0 && cfg.environment != ""
    ensures var n1 := Transacted(cfg, n, MigrateBatch(1, now), false);
      var n2 := Transacted(cfg, n1, AbortOp(UnseenPlan(cfg, StoreId(n.db)), None, true, now), false);
      AuditOk(cfg, n1.db) && !AuditOk(cfg, n2.db)
  {
    hide AuditOk, NodeInv, Transacted, Effective, CallerChecks, UnseenPlan, FreshStore;
    EmptyMigrates(cfg, n, now);
    var n1 := Transacted(cfg, n, MigrateBatch(1, now), false);
    var op := AbortOp(UnseenPlan(cfg, StoreId(n.db)), None, true, now);
    AuditIsClean(cfg, n1);
    UnseenAborts(cfg, n1, now);
    AuditInductive(cfg, n1, Transact(op, false), Transacted(cfg, n1, op, false));
  }

  lemma UnseenAborts(cfg: Config, n: Node, now: nat)
    requires NodeInv(cfg, n) && VersionOf(n.db) == V2 && n.log == [] && !Fenced(n.db) && Generation(n.db) == 1
    requires cfg.environment != "" && Clean(cfg, n.db)
    ensures var op := AbortOp(UnseenPlan(cfg, StoreId(n.db)), None, true, now);
      Effective(cfg, n, op) && !CallerChecks(cfg, n, op)
  {
    hide Inv, NodeInv, DomainWrites, MetaNum, Fenced, RunOk, HotAllowed, StatusOf, AbortedStatus, StoreId,
         GenerationExhausted, Floor, Clean, Generation, WithinHead, Head;
    var p := UnseenPlan(cfg, StoreId(n.db));
    assert PlanShapeOk(p);
    NoOperations(cfg, n);
    var ws := AbortOutcome(cfg, n.db, p, None, true, now).writes;
    NotExhausted(n.db, ws);
  }

  lemma NoOperations(cfg: Config, n: Node)
    requires NodeInv(cfg, n) && n.log == [] && Clean(cfg, n.db)
    ensures Rows(n.db, Operations) == map[] && Head(n.db) == 0
  {
    OperationsPositive(cfg, n);
    assert Head(n.db) == 0;
    NoRowWithinZero(Rows(n.db, Operations));
  }

  predicate EachPositive(rows: Rowset) { forall k <- rows :: rows[k].Operation? && rows[k].o.through > 0 }

  lemma OperationsPositive(cfg: Config, n: Node)
    requires NodeInv(cfg, n)
    ensures EachPositive(Rows(n.db, Operations))
  {
    forall k | k in Rows(n.db, Operations) ensures Rows(n.db, Operations)[k].Operation? && Rows(n.db, Operations)[k].o.through > 0 {
      assert OperationOk(cfg, k, Rows(n.db, Operations)[k], StoreId(n.db), Floor(n.db));
    }
  }

  lemma NoRowWithinZero(rows: Rowset)
    requires EachPositive(rows) && WithinHead(rows, 0)
    ensures rows == map[]
  {}
}
