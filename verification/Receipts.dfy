/** Where receipt times come from: the clock of the insert that accepted a record, or, for a
    record older than the migration, the clock of the call that ended it. */
module Receipts {
  import opened Types
  import opened Store
  import opened Gateway
  import opened Replay
  import opened Archive
  import opened Invariant
  import opened Lifecycle
  import opened Insertion
  import opened Migration
  import opened Retirement
  import opened Cache
  import opened Backup
  import opened Recovery
  import opened Operations
  import opened Runs

  // ---- one insert, one migration call ---------------------------------------------------------------

  /** What the stored value of a sequence says, in every reachable store. */
  lemma StoredTime(db: Database, log: Log, k: nat)
    requires SchemaOk(db) && LedgerOk(db, log)
    ensures ReceiptTime(db, k).Some? ==> 1 <= k <= |log| && EraOf(db).Full(k)
    ensures 1 <= k <= EraOf(db).legacy && VersionOf(db) == V2 ==> ReceiptTime(db, k) == Some(AgeFloor(db)) && AgeFloor(db) > 0
    ensures k <= EraOf(db).legacy && VersionOf(db) != V2 ==> ReceiptTime(db, k) == None
    ensures EraOf(db).legacy < k <= |log| && VersionOf(db) != V1 ==>
              Get(db, ReceiptTimes, Seq(k)).Some? && Get(db, ReceiptTimes, Seq(k)).value.Clock?
              && ReceiptTime(db, k) == Some(Get(db, ReceiptTimes, Seq(k)).value.t)
  {
    hide BucketsOk, MetaRowsOk, QuietBeforeV2, JournalWithin, IdsOk, HotOk, ReceiptIdsOk, CacheOk, LogOk;
    BeforeV2(db);
    if 1 <= k <= |log| && EraOf(db).Full(k) {
      assert Seq(k) in Rows(db, ReceiptTimes) && TimeValueOk(Rows(db, ReceiptTimes)[Seq(k)], k, EraOf(db).legacy);
    }
  }

  lemma BeforeV2(db: Database)
    requires SchemaOk(db)
    ensures if VersionOf(db) == V2 then AgeFloor(db) > 0 else AgeFloor(db) == 0
  {
    hide BucketsOk, MetaRowsOk, QuietBeforeV2, JournalWithin;
  }

  lemma InsertedClock(d: Database, db: Database, r: BillingRecord, now: nat)
    requires Inserted(d, db, r, now) && now > 0
    ensures VersionOf(db) != V1 ==> ReceiptTime(d, r.sequence) == Some(now)
    ensures forall k :: k != r.sequence || VersionOf(db) == V1 ==> ReceiptTime(d, k) == ReceiptTime(db, k)
  {
    hide VersionOf, AgeFloor;
    assert TableOf(d, Meta) == TableOf(db, Meta);
    SameMeta(d, db);
    InsertedTables(d, db, r, now);
  }

  /** From the start of the migration on, an insert stores its own clock as the receipt time of
      the record it accepts, and touches no other. */
  lemma InsertReceipt(cfg: Config, db: Database, log: Log, e: LogEvent, now: nat, ws: seq<Mutation>, overflow: bool)
    requires Inv(cfg, db, log) && InsertOutcome(db, e, now) == Write(ws) && now > 0
    ensures var d := Committed(db, ws, overflow);
      && Head(d) == Head(db) + 1
      && ReceiptTime(d, Head(d)) == (if VersionOf(db) == V1 then None else Some(now))
      && forall k :: k != Head(d) ==> ReceiptTime(d, k) == ReceiptTime(db, k)
  {
    hide InsertOutcome, Committed, ApplyAll, DomainWrites, Inserted, LedgerOk, ProtocolOk, ReceiptTime;
    StoreReads(db, log);
    InsertDecides(db, e, now, ws);
    var r := RecordFor(db, e);
    InsertedClock(ApplyAll(db, ws), db, r, now);
    InsertedHead(ApplyAll(db, ws), db, r, now);
    CommittedClocks(db, ws, overflow);
    StoredTime(db, log, r.sequence);
  }

  lemma StoreReads(db: Database, log: Log)
    requires SchemaOk(db) && LedgerOk(db, log)
    ensures BucketsOk(db) && (HasVersion(db, V1) <==> VersionOf(db) == V1) && Head(db) == |log|
    ensures Meta in db && (HasSession(db) ==> MutationJournal in db)
  {
    hide JournalWithin, IdsOk, HotOk, ReceiptIdsOk, ReceiptTimesOk, CacheOk;
    VersionRead(db);
  }

  lemma InsertedHead(d: Database, db: Database, r: BillingRecord, now: nat)
    requires Inserted(d, db, r, now)
    ensures Head(d) == r.sequence
  {}

  lemma CommittedClocks(db: Database, ws: seq<Mutation>, overflow: bool)
    requires Meta in db && (HasSession(db) ==> MutationJournal in db) && ws != [] && DomainWrites(ws)
    ensures Head(Committed(db, ws, overflow)) == Head(ApplyAll(db, ws))
    ensures forall k :: ReceiptTime(Committed(db, ws, overflow), k) == ReceiptTime(ApplyAll(db, ws), k)
  {
    hide Committed, ApplyAll, DomainWrites;
    CommitSameViews(db, ws, overflow);
    SameReadings(Committed(db, ws, overflow), ApplyAll(db, ws));
    ReceiptFrame(Committed(db, ws, overflow), ApplyAll(db, ws));
  }

  /** `k` is legacy and this call ended the migration: its clock is the receipt time. Otherwise
      nothing happened to `k`. */
  ghost predicate MigratedTime(d: Database, db: Database, k: nat, now: nat) {
    if 1 <= k <= LegacyOf(db) && VersionOf(db) != V2 && VersionOf(d) == V2
    then ReceiptTime(d, k) == Some(now) else ReceiptTime(d, k) == ReceiptTime(db, k)
  }

  /** The last record that was accepted before the migration started. */
  function LegacyOf(db: Database): nat { if VersionOf(db) == V1 then Head(db) else EraOf(db).legacy }

  /** The call that ends the migration gives every legacy record its clock as the receipt time;
      no migration call touches any other. */
  lemma MigrateReceipt(cfg: Config, db: Database, log: Log, batch: nat, now: nat, ws: seq<Mutation>, overflow: bool)
    requires Inv(cfg, db, log) && MigrateOutcome(db, batch, now) == Write(ws) && now > 0
    ensures forall k: nat :: MigratedTime(Committed(db, ws, overflow), db, k, now)
  {
    hide MigrateOutcome, Committed, ReceiptTime, VersionOf, AgeFloor, Views, Advances, Advanced, LegacyOf, Committable;
    var d := Committed(db, ws, overflow);
    MigrateKeeps(cfg, db, log, batch, now, ws, overflow);
    if VersionOf(db) == V2 {
      assert d == db by { EmptyCommit(db, overflow); }
    } else {
      AdvancesPromises(d, db);
      forall k: nat ensures MigratedTime(d, db, k, now) { MigratedAt(cfg, d, db, log, batch, now, k); }
    }
  }

  lemma AdvancesPromises(d: Database, db: Database)
    requires Advances(d, db)
    ensures Promises(d, db)
  {
    hide Promises;
  }

  lemma MigratedAt(cfg: Config, d: Database, db: Database, log: Log, batch: nat, now: nat, k: nat)
    requires Inv(cfg, db, log) && Inv(cfg, d, log) && VersionOf(db) != V2 && Advanced(d, db, batch, now) && Promises(d, db)
    ensures MigratedTime(d, db, k, now)
  {
    hide SchemaOk, LedgerOk, ProtocolOk, ReceiptTime, VersionOf, AgeFloor;
    StoredTime(db, log, k);
    StoredTime(d, log, k);
    LegacyWithin(db, log);
  }

  lemma LegacyWithin(db: Database, log: Log)
    requires SchemaOk(db) && LedgerOk(db, log)
    ensures EraOf(db).legacy <= Head(db) == |log|
  {
    hide MetaRowsOk, JournalWithin, IdsOk, HotOk, ReceiptIdsOk, ReceiptTimesOk, CacheOk;
  }

  // ---- every other operation leaves the clocks alone --------------------------------------------------

  ghost predicate SameClocks(d: Database, db: Database) { forall k: nat :: ReceiptTime(d, k) == ReceiptTime(db, k) }

  predicate SparesClock(w: Mutation) {
    w.bucket != ReceiptTimes && (w.bucket == Meta && (w.Put? || w.Delete?) ==> w.key != Field(LegacyAgeFloor))
  }

  predicate SparesClocks(ws: seq<Mutation>) { forall w <- ws :: SparesClock(w) }

  /** The rows and the age floor that receipt times are read from. */
  ghost predicate SameSources(d: Database, db: Database) {
    Rows(d, ReceiptTimes) == Rows(db, ReceiptTimes) && Get(d, Meta, Field(LegacyAgeFloor)) == Get(db, Meta, Field(LegacyAgeFloor))
  }

  lemma SparedOne(db: Database, w: Mutation)
    requires SparesClock(w)
    ensures SameSources(ApplyOne(db, w), db)
  {}

  lemma {:induction false} Spared(db: Database, ws: seq<Mutation>)
    requires SparesClocks(ws)
    ensures SameSources(ApplyAll(db, ws), db)
    decreases |ws|
  {
    hide SparesClock;
    if ws != [] {
      var rest, w := ws[..|ws| - 1], ws[|ws| - 1];
      assert forall x <- rest :: x in ws;
      assert w in ws;
      Spared(db, rest);
      SparedOne(ApplyAll(db, rest), w);
    }
  }

  lemma SourcesRead(d: Database, db: Database)
    requires SameSources(d, db)
    ensures SameClocks(d, db)
  {
    assert AgeFloor(d) == AgeFloor(db);
    ReceiptFrame(d, db);
  }

  lemma {:induction false} DeletesSpare(from: nat, through: nat)
    ensures SparesClocks(Deletes(from, through))
    decreases through
  {
    if from <= through && through > 0 { DeletesSpare(from, through - 1); }
  }

  lemma {:induction false} PutsSpare(records: seq<ExportRecord>)
    ensures SparesClocks(FillPuts(records))
  {
    if records != [] { PutsSpare(records[..|records| - 1]); }
  }

  lemma {:induction false} EvictsSpare(keys: seq<nat>)
    ensures SparesClocks(EvictDeletes(keys))
  {
    if keys != [] { EvictsSpare(keys[..|keys| - 1]); }
  }

  lemma RetirementSpares(cfg: Config, n: Node, op: Op, ws: seq<Mutation>)
    requires RetirementDecides(cfg, n, op, ws) && (op.PlanOp? || op.ApplyOp? || op.AbortOp?)
    ensures SparesClocks(ws)
  {
    hide CoverageRefusal, StatusFor, StatusOf, CompletedStatus, AbortedStatus, AbortTarget, PlanShapeOk, SafeId;
    if op.ApplyOp? && op.seen.Some? { DeletesSpare(op.seen.value.from, op.seen.value.through); }
  }

  lemma RehydrateSpares(cfg: Config, db: Database, set_: string, records: seq<ExportRecord>, ws: seq<Mutation>)
    requires RehydrateOutcome(cfg, db, set_, records) == Write(ws)
    ensures SparesClocks(ws)
  {
    hide FillAll, CompletionOk, FillPuts;
    PutsSpare(records);
  }

  lemma EvictSpares(cfg: Config, db: Database, through: nat, ws: seq<Mutation>)
    requires EvictOutcome(cfg, db, through) == Write(ws)
    ensures SparesClocks(ws)
  {
    hide Victims, EvictedBytes, EvictDeletes;
    EvictsSpare(Victims(Rows(db, ArchiveCache), through));
  }

  lemma CaptureSpares(cfg: Config, n: Node, op: Op, ws: seq<Mutation>)
    requires CaptureDecides(cfg, n, op, ws) && (op.Begin? || op.Abandon? || op.SealSet? || op.Upload? || op.Verify?)
    ensures SparesClocks(ws)
  {
    hide ScopeOf, ValidManifest, CompletionOk, AnyActive;
  }

  lemma FenceSpares(cfg: Config, n: Node, op: Op, ws: seq<Mutation>)
    requires op.SetRecovery? ==> SetRecoveryOutcome() == Write(ws)
    requires op.Admit? ==> AdmitOutcome(cfg, n.db, op.approval, op.now) == Write(ws)
    requires op.SetRecovery? || op.Admit?
    ensures SparesClocks(ws)
  {
    hide ApprovalValid, ApprovalMatches, ReadState;
  }

  lemma OthersSpare(cfg: Config, n: Node, op: Op, ws: seq<Mutation>)
    requires DecidedWrites(cfg, n, op, ws) && !op.Insert? && !op.MigrateBatch?
    ensures SparesClocks(ws)
  {
    hide SparesClocks, RetirementDecides, CaptureDecides, RehydrateOutcome, EvictOutcome, AdmitOutcome;
    if op.Rehydrate? {
      RehydrateSpares(cfg, n.db, op.set_, op.records, ws);
    } else if op.Evict? {
      EvictSpares(cfg, n.db, op.through, ws);
    } else if op.PlanOp? || op.ApplyOp? || op.AbortOp? {
      RetirementSpares(cfg, n, op, ws);
    } else if op.SetRecovery? || op.Admit? {
      FenceSpares(cfg, n, op, ws);
    } else {
      CaptureSpares(cfg, n, op, ws);
    }
  }

  lemma OthersKeep(cfg: Config, n: Node, op: Op, ws: seq<Mutation>, overflow: bool)
    requires NodeInv(cfg, n) && op.Timed() && DecidedWrites(cfg, n, op, ws) && !op.Insert? && !op.MigrateBatch?
    ensures SameClocks(Committed(n.db, ws, overflow), n.db)
  {
    hide NodeInv, Committed, ReceiptTime, DecidedWrites, Promises, Inv;
    if ws == [] {
      assert Committed(n.db, ws, overflow) == n.db by { EmptyCommit(n.db, overflow); }
    } else {
      OthersSpare(cfg, n, op, ws);
      Spared(n.db, ws);
      SourcesRead(ApplyAll(n.db, ws), n.db);
      DecisionKept(cfg, n, op, ws, overflow);
      NodeSession(cfg, n);
      KeptDomain(cfg, n, op, ws, overflow);
      CommittedClocks(n.db, ws, overflow);
    }
  }

  lemma KeptDomain(cfg: Config, n: Node, op: Op, ws: seq<Mutation>, overflow: bool)
    requires Kept(cfg, n, op, ws, overflow) && ws != []
    ensures DomainWrites(ws)
  {
    hide Committed, Inv, Promises, DomainWrites;
  }

  // ---- one event ------------------------------------------------------------------------------------------

  /** This event gave sequence `k` the receipt time `t`: it accepted record `k` at that time,
      after the migration had started, or it ended the migration of the legacy record `k`. */
  ghost predicate Clocks(n: Node, event: Event, n': Node, k: nat, t: nat) {
    event.Transact? && t > 0 &&
    ((event.op.Insert? && event.op.now == t && VersionOf(n.db) != V1
      && k == |n'.log| == |n.log| + 1 && n'.log[k - 1].event == event.op.event)
     || (event.op.MigrateBatch? && event.op.now == t && VersionOf(n.db) != V2 && VersionOf(n'.db) == V2 && 1 <= k <= LegacyOf(n.db)))
  }

  /** A receipt time appears by exactly the events that `Clocks` describes, and is theirs. */
  ghost predicate ClocksKept(n: Node, event: Event, n': Node) {
    forall k: nat, t: nat ::
      ReceiptTime(n'.db, k) == Some(t) <==> (ReceiptTime(n.db, k) == Some(t) || Clocks(n, event, n', k, t))
  }

  lemma InsertClocks(cfg: Config, n: Node, e: LogEvent, now: nat, ws: seq<Mutation>, overflow: bool)
    requires NodeInv(cfg, n) && now > 0 && InsertOutcome(n.db, e, now) == Write(ws) && !GenerationExhausted(n.db, ws)
    ensures ClocksKept(n, Transact(Insert(e, now), overflow), After(n, Insert(e, now), Committed(n.db, ws, overflow)))
  {
    hide InsertOutcome, Committed, ReceiptTime, VersionOf, Views, GenerationExhausted, RunOk;
    InsertReceipt(cfg, n.db, n.log, e, now, ws, overflow);
    NodeHead(cfg, n);
    NoTimeAhead(cfg, n);
  }

  lemma NodeHead(cfg: Config, n: Node)
    requires NodeInv(cfg, n)
    ensures Head(n.db) == |n.log|
  {
    hide RunOk, ProtocolOk, SchemaOk;
  }

  lemma NoTimeAhead(cfg: Config, n: Node)
    requires NodeInv(cfg, n)
    ensures ReceiptTime(n.db, |n.log| + 1) == None
  {
    hide RunOk, ProtocolOk, SchemaOk, LedgerOk, ReceiptTime;
    StoredTime(n.db, n.log, |n.log| + 1);
  }

  lemma MigrateClocks(cfg: Config, n: Node, batch: nat, now: nat, ws: seq<Mutation>, overflow: bool)
    requires NodeInv(cfg, n) && now > 0 && MigrateOutcome(n.db, batch, now) == Write(ws)
    ensures ClocksKept(n, Transact(MigrateBatch(batch, now), overflow), After(n, MigrateBatch(batch, now), Committed(n.db, ws, overflow)))
  {
    hide MigrateOutcome, Committed, ReceiptTime, VersionOf, RunOk, LegacyOf, Views;
    var d := Committed(n.db, ws, overflow);
    MigrateReceipt(cfg, n.db, n.log, batch, now, ws, overflow);
    forall k: nat ensures MigratedTime(d, n.db, k, now) && (k <= LegacyOf(n.db) && VersionOf(n.db) != V2 ==> ReceiptTime(n.db, k) == None) {
      LegacyTime(cfg, n, k);
    }
  }

  lemma LegacyTime(cfg: Config, n: Node, k: nat)
    requires NodeInv(cfg, n)
    ensures k <= LegacyOf(n.db) && VersionOf(n.db) != V2 ==> ReceiptTime(n.db, k) == None
  {
    hide RunOk, ProtocolOk, SchemaOk, LedgerOk, ReceiptTime, VersionOf;
    StoredTime(n.db, n.log, k);
  }

  lemma OtherClocks(n: Node, event: Event, n': Node)
    requires SameClocks(n'.db, n.db) && (event.Transact? ==> !event.op.Insert? && !event.op.MigrateBatch?)
    ensures ClocksKept(n, event, n')
  {
    hide ReceiptTime;
  }

  lemma StorageClocks(d: Database, db: Database)
    requires StorageChange(d, db)
    ensures SameClocks(d, db)
  {
    hide MetaRowsOk;
    SameReadings(d, db);
    ReceiptFrame(d, db);
  }

  lemma NothingClocked(n: Node, event: Event, n': Node)
    requires n'.db == n.db && n'.log == n.log
    ensures ClocksKept(n, event, n')
  {
    hide ReceiptTime;
  }

  lemma TransactionClocks(cfg: Config, n: Node, op: Op, overflow: bool)
    requires NodeInv(cfg, n) && op.Timed()
    ensures ClocksKept(n, Transact(op, overflow), Transacted(cfg, n, op, overflow))
  {
    hide NodeInv, Decide, Committed, GenerationExhausted, DecidedWrites, ClocksKept;
    var n' := Transacted(cfg, n, op, overflow);
    match Decide(cfg, n, op)
    case Refuse(_) => NothingClocked(n, Transact(op, overflow), n');
    case Write(ws) =>
      Decided(cfg, n, op, ws);
      if GenerationExhausted(n.db, ws) {
        NothingClocked(n, Transact(op, overflow), n');
      } else {
        CommitClocks(cfg, n, op, ws, overflow);
      }
  }

  lemma CommitClocks(cfg: Config, n: Node, op: Op, ws: seq<Mutation>, overflow: bool)
    requires NodeInv(cfg, n) && op.Timed() && DecidedWrites(cfg, n, op, ws) && !GenerationExhausted(n.db, ws)
    ensures ClocksKept(n, Transact(op, overflow), After(n, op, Committed(n.db, ws, overflow)))
  {
    hide NodeInv, Committed, GenerationExhausted, ClocksKept, RetirementDecides, CaptureDecides, InsertOutcome, MigrateOutcome, SameClocks;
    if op.Insert? {
      InsertClocks(cfg, n, op.event, op.now, ws, overflow);
    } else if op.MigrateBatch? {
      MigrateClocks(cfg, n, op.batch, op.now, ws, overflow);
    } else {
      OthersKeep(cfg, n, op, ws, overflow);
      OtherClocks(n, Transact(op, overflow), After(n, op, Committed(n.db, ws, overflow)));
    }
  }

  /** Whatever the event, receipt times appear by `Clocks` alone, and none ever changes. */
  lemma EventClocks(cfg: Config, n: Node, event: Event, n': Node)
    requires NodeInv(cfg, n) && Next(cfg, n, event) == Some(n')
    ensures ClocksKept(n, event, n')
  {
    hide NodeInv, Transacted, ClocksKept, SameClocks, StorageChange, Reopened, Reopenable, Installable;
    if event.Transact? {
      TransactionClocks(cfg, n, event.op, event.overflow);
    } else if event.StartSession? || event.DropSession? || event.Cutover? {
      StorageKept(cfg, n, event);
      StorageClocks(n'.db, n.db);
      OtherClocks(n, event, n');
    } else if event.Restart? {
      NodeHasMeta(cfg, n);
      RestartSame(event.found, n.db);
      StorageClocks(n'.db, n.db);
      OtherClocks(n, event, n');
    } else {
      NothingClocked(n, event, n');
    }
  }

  // ---- whole histories ----------------------------------------------------------------------------------------

  ghost predicate ClockedBefore(states: seq<Node>, events: seq<Event>, i: nat, k: nat, t: nat)
    requires |states| == |events| + 1 && i < |states|
  {
    exists j :: 0 <= j < i && Clocks(states[j], events[j], states[j + 1], k, t)
  }

  /** A receipt time is the clock of exactly one kind of event in the past: the insert that
      accepted the record, or, for a legacy record, the call that ended the migration. */
  lemma {:induction false} ReceiptOrigin(cfg: Config, states: seq<Node>, events: seq<Event>, i: nat, k: nat, t: nat)
    requires IsHistory(cfg, states, events) && i < |states|
    ensures ReceiptTime(states[i].db, k) == Some(t) <==> ClockedBefore(states, events, i, k, t)
    decreases i
  {
    hide NodeInv, Next, ReceiptTime, Clocks, FreshStore;
    if i == 0 {
      FreshTimes(cfg, states[0], k);
    } else {
      ReceiptOrigin(cfg, states, events, i - 1, k, t);
      HistoryKeeps(cfg, states, events, i - 1);
      assert StepAt(cfg, states, events, i - 1);
      EventClocks(cfg, states[i - 1], events[i - 1], states[i]);
      assert ClockedBefore(states, events, i, k, t) <==>
             ClockedBefore(states, events, i - 1, k, t) || Clocks(states[i - 1], events[i - 1], states[i], k, t);
    }
  }

  lemma FreshTimes(cfg: Config, n: Node, k: nat)
    requires FreshStore(cfg, n)
    ensures ReceiptTime(n.db, k) == None
  {}

  /** The clock that dated record `k` is at least the retention period before the deletion. */
  ghost predicate AgedInHistory(cfg: Config, states: seq<Node>, events: seq<Event>, i: nat, k: nat)
    requires |states| == |events| + 1 && i < |events| && events[i].Transact? && events[i].op.ApplyOp?
  {
    exists t: nat :: ClockedBefore(states, events, i, k, t) && t + cfg.retention <= events[i].op.now
  }

  /** Every body ever deleted was deleted by a confirmed pending apply inside a verified set,
      and the insert that accepted it, or the call that ended its migration, lies at least the
      retention period in the past. */
  lemma DeletionJustified(cfg: Config, states: seq<Node>, events: seq<Event>, i: nat, k: nat)
    requires IsHistory(cfg, states, events) && i < |events|
    requires HotAt(states[i], k) && !HotAt(states[i + 1], k)
    ensures Justified(cfg, states[i], events[i], k) && AgedInHistory(cfg, states, events, i, k)
  {
    hide NodeInv, Next, ReceiptTime, ClockedBefore, HotAt, FreshStore, SetCovers;
    DeletionDecided(cfg, states, events, i, k);
    var t := ReceiptTime(states[i].db, k).value;
    ReceiptOrigin(cfg, states, events, i, k, t);
  }
}
