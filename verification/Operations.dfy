/** The inbox as one state machine: every domain operation, in any order, on one database.
    An operation is one transaction; a capture also reads a snapshot and seals later. */
module Operations {
  import opened Types
  import opened Store
  import opened Gateway
  import opened Replay
  import opened Archive
  import opened Invariant
  import opened Lifecycle
  import opened Insertion
  import opened Migration
  import opened Retirement
  import opened Cache
  import opened Backup
  import opened Recovery
  import Compaction

  /** Where `Capture` stands; only one runs at a time. */
  datatype CaptureRun = NoRun | Begun(id: string) | Packing(id: string, snapshot: Database, was: Log)

  /** `log` is the accept log so far; `recovering` is the flag in memory, and `clearing` counts
      the admissions whose transaction has committed and whose second lock section, which
      clears that flag, is still to come. */
  datatype Node = Node(db: Database, log: Log, recovering: bool, clearing: nat, run: CaptureRun)

  datatype Op =
    | Insert(event: LogEvent, now: nat)
    | MigrateBatch(batch: nat, now: nat)
    | PlanOp(plan: RetirementPlan, now: nat)
    | ApplyOp(id: string, seen: Option<RetirementStatus>, authority: bool, now: nat)
    | AbortOp(plan: RetirementPlan, seen: Option<RetirementStatus>, authority: bool, now: nat)
    | Rehydrate(set_: string, records: seq<ExportRecord>)
    | Evict(through: nat)
    | Begin(id: string)
    | Abandon(id: string)
    | SealSet(manifest: Manifest)
    | Upload(id: string, stored: bool)
    | Verify(id: string, completion: Completion, now: nat)
    | SetRecovery
    | Admit(approval: SignedApproval, now: nat)
  {
    /** Every clock reading is after the zero time. */
    predicate Timed() {
      match this
      case Insert(_, now) => now > 0
      case MigrateBatch(_, now) => now > 0
      case PlanOp(_, now) => now > 0
      case ApplyOp(_, _, _, now) => now > 0
      case AbortOp(_, _, _, now) => now > 0
      case Verify(_, _, now) => now > 0
      case Admit(_, now) => now > 0
      case _ => true
    }
  }

  datatype Event =
    | Transact(op: Op, overflow: bool)
    | ReadSnapshot
    | EndCapture
    | RaiseFlag
    | ClearRecovering
    | Restart(found: Database)
    | StartSession(generation: string)
    | DropSession
    | Cutover(installed: Database)

  /** What the transaction decides from what it sees. */
  function Decide(cfg: Config, n: Node, op: Op): Outcome {
    match op
    case Insert(e, now) => if n.recovering then Refuse(Unavailable) else InsertOutcome(n.db, e, now)
    case MigrateBatch(batch, now) =>
      if batch < 1 || batch > 1000 then Refuse(LifecycleConflict) else MigrateOutcome(n.db, batch, now)
    case PlanOp(p, now) => PlanOutcome(cfg, n.db, p, now)
    case ApplyOp(id, seen, authority, now) => ApplyOutcome(cfg, n.db, id, seen, authority, now)
    case AbortOp(p, seen, authority, now) => AbortOutcome(cfg, n.db, p, seen, authority, now)
    case Rehydrate(set_, records) => RehydrateOutcome(cfg, n.db, set_, records)
    case Evict(through) => EvictOutcome(cfg, n.db, through)
    case Begin(id) => if n.run.NoRun? then BeginOutcome(n.db, id) else Refuse(LifecycleConflict)
    case Abandon(id) => if n.run.NoRun? then AbandonOutcome(n.db, id) else Refuse(LifecycleConflict)
    case SealSet(m) =>
      if n.run.Packing? && ScopeOf(cfg, n.run.snapshot, n.run.id, m) then SealOutcome(n.db, n.run.id, m)
      else Refuse(LifecycleConflict)
    case Upload(id, stored) => if n.run.NoRun? then UploadOutcome(n.db, id, stored) else Refuse(LifecycleConflict)
    case Verify(id, completion, now) => VerifyOutcome(cfg, n.db, id, completion, now)
    case SetRecovery => SetRecoveryOutcome()
    case Admit(a, now) => AdmitOutcome(cfg, n.db, a, now)
  }

  function LogAfter(n: Node, op: Op): Log {
    if op.Insert? then n.log + [RecordFor(n.db, op.event)] else n.log
  }

  function RunAfter(n: Node, op: Op): CaptureRun {
    match op
    case Begin(id) => Begun(id)
    case SealSet(_) => NoRun
    case _ => n.run
  }

  /** The node after a commit. The flag goes up inside the closure that raises the fence. */
  function After(n: Node, op: Op, d: Database): Node {
    Node(d, LogAfter(n, op), n.recovering || op.SetRecovery?, if op.Admit? then n.clearing + 1 else n.clearing, RunAfter(n, op))
  }

  /** A refused transaction leaves no trace; one that cannot commit leaves at most the flag. */
  function Transacted(cfg: Config, n: Node, op: Op, overflow: bool): Node {
    match Decide(cfg, n, op)
    case Refuse(_) => n
    case Write(ws) =>
      if GenerationExhausted(n.db, ws) then n.(recovering := n.recovering || op.SetRecovery?)
      else After(n, op, Committed(n.db, ws, overflow))
  }

  /** A file that online compaction may put in place of the live one. */
  predicate Installable(d: Database, db: Database) {
    && Core(d) == Core(db)
    && JournalWithin(Rows(d, MutationJournal), Generation(d)) && MetaRowsOk(Rows(d, Meta))
    && (VersionOf(d) != V2 ==> !HasSession(d))
  }

  /** A file that an open may find: an interrupted session, if any, is dropped. */
  predicate Reopenable(found: Database, db: Database) {
    Core(found) == Core(db) && JournalWithin(Rows(found, MutationJournal), Generation(found)) && MetaRowsOk(Rows(found, Meta))
  }

  function Reopened(found: Database): Database {
    if HasSession(found) then Committed(found, Compaction.DropWrites, false) else found
  }

  /** None when the event cannot happen in this state. RaiseFlag is a fence whose commit
      failed. The second lock section of an admission looks at nothing. */
  function Next(cfg: Config, n: Node, event: Event): Option<Node> {
    match event
    case Transact(op, overflow) => if op.Timed() then Some(Transacted(cfg, n, op, overflow)) else None
    case ReadSnapshot =>
      if n.run.Begun? && Ready(cfg, n.db) == None then Some(n.(run := Packing(n.run.id, n.db, n.log))) else None
    case EndCapture => Some(n.(run := NoRun))
    case RaiseFlag => Some(n.(recovering := true))
    case ClearRecovering => if n.clearing == 0 then None else Some(n.(recovering := false, clearing := n.clearing - 1))
    case Restart(found) =>
      if Reopenable(found, n.db) then Some(Node(Reopened(found), n.log, Fenced(found), 0, NoRun)) else None
    case StartSession(generation) =>
      if VersionOf(n.db) != V2 || MutationJournal !in n.db || Rows(n.db, MutationJournal) != map[] || HasSession(n.db) then None
      else Some(n.(db := Committed(n.db, Compaction.StartWrites(generation), false)))
    case DropSession => Some(n.(db := Committed(n.db, Compaction.DropWrites, false)))
    case Cutover(d) => if Installable(d, n.db) then Some(n.(db := d)) else None
  }

  // ---- the invariant of the machine -----------------------------------------------------------------

  ghost predicate RunOk(cfg: Config, n: Node) {
    match n.run
    case NoRun => true
    case Begun(id) => InFlight(n.db, id)
    case Packing(id, snapshot, was) => InFlight(n.db, id) && SnapshotOf(cfg, snapshot, was, n.db, n.log)
  }

  ghost predicate NodeInv(cfg: Config, n: Node) {
    Inv(cfg, n.db, n.log) && RunOk(cfg, n)
  }

  /** What holds between a state and a later one. */
  ghost predicate Later(n': Node, n: Node) {
    Promises(n'.db, n.db) && n.log <= n'.log
  }

  lemma LaterTrans(c: Node, b: Node, a: Node)
    requires Later(c, b) && Later(b, a)
    ensures Later(c, a)
  {
    PromisesTrans(c.db, b.db, a.db);
  }

  /** A new store. */
  predicate FreshStore(cfg: Config, n: Node) {
    && n.db.Keys == BaseBuckets && n.log == [] && n.run.NoRun? && !n.recovering && n.clearing == 0
    && n.db[Meta].rows.Keys == {Field(Identity), Field(SchemaVersion)}
    && n.db[Meta].rows[Field(Identity)].Text? && n.db[Meta].rows[Field(SchemaVersion)] == Tag(V1)
    && n.db[Events] == EmptyTable && n.db[Ids].rows == map[]
  }

  lemma FreshNode(cfg: Config, n: Node)
    requires FreshStore(cfg, n)
    ensures NodeInv(cfg, n)
  {
    hide AgeFloor, Generation, ProtocolOk;
    var db := n.db;
    assert Rows(db, Meta).Keys == {Field(Identity), Field(SchemaVersion)};
    assert VersionOf(db) == V1 && MetaNum(db, LegacyThrough) == 0 && MetaNum(db, BackfilledThrough) == 0;
    assert Floor(db) == 0 && MetaNum(db, CapturedThrough) == 0 && MetaNum(db, CacheBytes) == 0;
    assert SchemaOk(db);
    assert Rows(db, Ids) == map[] && LedgerOk(db, []);
    EmptyProtocol(cfg, db);
  }

  lemma EmptyProtocol(cfg: Config, db: Database)
    requires Rows(db, Captures) == Rows(db, Catalog) == Rows(db, Operations) == map[]
    requires Floor(db) == 0 && MetaNum(db, CapturedThrough) == 0
    ensures ProtocolOk(cfg, db)
  {
    forall n: nat ensures !SomeCapture(map[], n) && !SomeCatalog(map[], n) && !SomeOperation(map[], n) {}
  }

  // ---- one transaction ------------------------------------------------------------------------------

  /** Everything one committed write-set of an operation guarantees. */
  ghost predicate Kept(cfg: Config, n: Node, op: Op, ws: seq<Mutation>, overflow: bool) {
    var d := Committed(n.db, ws, overflow);
    && Inv(cfg, d, LogAfter(n, op)) && Promises(d, n.db)
    && (!op.Abandon? && !op.SealSet? ==> InFlightKept(d, n.db))
    && (!op.ApplyOp? ==> Floor(d) == Floor(n.db))
    && (!op.SetRecovery? && !op.Admit? ==> Fenced(d) == Fenced(n.db))
    && (!op.PlanOp? && !op.ApplyOp? && !op.AbortOp? ==> Rows(d, Operations) == Rows(n.db, Operations))
    && (op.Begin? || op.Abandon? || op.SealSet? || op.Upload? ==> OnlyCaptures(d, n.db))
    && (ws != [] ==> Committable(n.db, ws))
  }

  lemma AdvancesKept(cfg: Config, n: Node, op: Op, ws: seq<Mutation>, overflow: bool)
    requires Inv(cfg, Committed(n.db, ws, overflow), LogAfter(n, op)) && Advances(Committed(n.db, ws, overflow), n.db)
    requires !op.Begin? && !op.Abandon? && !op.SealSet? && !op.Upload? && (ws != [] ==> Committable(n.db, ws))
    ensures Kept(cfg, n, op, ws, overflow)
  {}

  /** What the decision is, for the operations on records and the cache. */
  ghost predicate DataDecides(cfg: Config, n: Node, op: Op, ws: seq<Mutation>) {
    && (op.Insert? ==> InsertOutcome(n.db, op.event, op.now) == Write(ws))
    && (op.MigrateBatch? ==> MigrateOutcome(n.db, op.batch, op.now) == Write(ws))
    && (op.Rehydrate? ==> RehydrateOutcome(cfg, n.db, op.set_, op.records) == Write(ws))
    && (op.Evict? ==> EvictOutcome(cfg, n.db, op.through) == Write(ws))
  }

  lemma DataKept(cfg: Config, n: Node, op: Op, ws: seq<Mutation>, overflow: bool)
    requires Inv(cfg, n.db, n.log) && DataDecides(cfg, n, op, ws) && op.Timed()
    requires op.Insert? || op.MigrateBatch? || op.Rehydrate? || op.Evict?
    ensures Kept(cfg, n, op, ws, overflow)
  {
    hide Inv, Promises, Committed, InFlightKept, OnlyCaptures, InsertOutcome, MigrateOutcome, RehydrateOutcome, EvictOutcome;
    if op.Insert? {
      InsertKeeps(cfg, n.db, n.log, op.event, op.now, ws, overflow);
    } else if op.MigrateBatch? {
      MigrateKeeps(cfg, n.db, n.log, op.batch, op.now, ws, overflow);
    } else if op.Rehydrate? {
      RehydrateKeeps(cfg, n.db, n.log, op.set_, op.records, ws, overflow);
    } else {
      EvictionKeeps(cfg, n.db, n.log, op.through, ws, overflow);
    }
    AdvancesKept(cfg, n, op, ws, overflow);
  }

  lemma SettledKept(cfg: Config, n: Node, op: Op, ws: seq<Mutation>, overflow: bool)
    requires Inv(cfg, Committed(n.db, ws, overflow), n.log) && Settled(Committed(n.db, ws, overflow), n.db)
    requires (op.SetRecovery? || op.Admit?) && Committable(n.db, ws)
    ensures Kept(cfg, n, op, ws, overflow)
  {}

  lemma FenceKept(cfg: Config, n: Node, op: Op, ws: seq<Mutation>, overflow: bool)
    requires NodeInv(cfg, n) && (op.SetRecovery? || op.Admit?)
    requires if op.SetRecovery? then SetRecoveryOutcome() == Write(ws) else AdmitOutcome(cfg, n.db, op.approval, op.now) == Write(ws)
    ensures Kept(cfg, n, op, ws, overflow)
  {
    if op.SetRecovery? {
      SetRecoveryKeeps(cfg, n.db, n.log, ws, overflow);
    } else {
      AdmitKeeps(cfg, n.db, n.log, op.approval, op.now, ws, overflow);
    }
    SettledKept(cfg, n, op, ws, overflow);
  }

  ghost predicate RetirementDecides(cfg: Config, n: Node, op: Op, ws: seq<Mutation>) {
    && (op.PlanOp? ==> PlanOutcome(cfg, n.db, op.plan, op.now) == Write(ws))
    && (op.ApplyOp? ==> ApplyOutcome(cfg, n.db, op.id, op.seen, op.authority, op.now) == Write(ws))
    && (op.AbortOp? ==> AbortOutcome(cfg, n.db, op.plan, op.seen, op.authority, op.now) == Write(ws))
  }

  lemma RecordedKept(cfg: Config, n: Node, op: Op, ws: seq<Mutation>, overflow: bool)
    requires Inv(cfg, Committed(n.db, ws, overflow), n.log) && Recorded(Committed(n.db, ws, overflow), n.db)
    requires (op.PlanOp? || op.AbortOp?) && (ws != [] ==> Committable(n.db, ws))
    ensures Kept(cfg, n, op, ws, overflow)
  {}

  lemma RetirementKept(cfg: Config, n: Node, op: Op, ws: seq<Mutation>, overflow: bool)
    requires Inv(cfg, n.db, n.log) && RetirementDecides(cfg, n, op, ws) && op.Timed()
    requires op.PlanOp? || op.ApplyOp? || op.AbortOp?
    ensures Kept(cfg, n, op, ws, overflow)
  {
    hide Inv, Promises, Committed, InFlightKept, OnlyCaptures, Recorded, PlanOutcome, ApplyOutcome, AbortOutcome;
    if op.PlanOp? {
      PlanKeeps(cfg, n.db, n.log, op.plan, op.now, ws, overflow);
      RecordedKept(cfg, n, op, ws, overflow);
    } else if op.AbortOp? {
      AbortKeeps(cfg, n.db, n.log, op.plan, op.seen, op.authority, op.now, ws, overflow);
      RecordedKept(cfg, n, op, ws, overflow);
    } else {
      ApplyKeeps(cfg, n.db, n.log, op.id, op.seen, op.authority, op.now, ws, overflow);
    }
  }

  ghost predicate CaptureDecides(cfg: Config, n: Node, op: Op, ws: seq<Mutation>) {
    && (op.Begin? ==> BeginOutcome(n.db, op.id) == Write(ws))
    && (op.Abandon? ==> AbandonOutcome(n.db, op.id) == Write(ws))
    && (op.SealSet? ==> n.run.Packing? && ScopeOf(cfg, n.run.snapshot, n.run.id, op.manifest)
                        && SealOutcome(n.db, n.run.id, op.manifest) == Write(ws))
    && (op.Upload? ==> UploadOutcome(n.db, op.id, op.stored) == Write(ws))
    && (op.Verify? ==> VerifyOutcome(cfg, n.db, op.id, op.completion, op.now) == Write(ws))
  }

  lemma CaptureKept(cfg: Config, n: Node, op: Op, ws: seq<Mutation>, overflow: bool)
    requires NodeInv(cfg, n) && CaptureDecides(cfg, n, op, ws)
    requires op.Begin? || op.Abandon? || op.SealSet? || op.Upload? || op.Verify?
    ensures Kept(cfg, n, op, ws, overflow)
  {
    hide Inv, Promises, Committed, InFlightKept, OnlyCaptures, SealOutcome, VerifyOutcome;
    if op.Begin? {
      BeginKeeps(cfg, n.db, n.log, op.id, ws, overflow);
    } else if op.Abandon? {
      AbandonKeeps(cfg, n.db, n.log, op.id, ws, overflow);
    } else if op.SealSet? {
      SealKeeps(cfg, n.db, n.log, n.run.snapshot, n.run.was, n.run.id, op.manifest, ws, overflow);
    } else if op.Upload? {
      UploadKeeps(cfg, n.db, n.log, op.id, op.stored, ws, overflow);
    } else {
      VerifyKeeps(cfg, n.db, n.log, op.id, op.completion, op.now, ws, overflow);
    }
  }

  /** What the decision is, whatever the operation. */
  ghost predicate DecidedWrites(cfg: Config, n: Node, op: Op, ws: seq<Mutation>) {
    && DataDecides(cfg, n, op, ws) && RetirementDecides(cfg, n, op, ws) && CaptureDecides(cfg, n, op, ws)
    && (op.SetRecovery? ==> SetRecoveryOutcome() == Write(ws))
    && (op.Admit? ==> AdmitOutcome(cfg, n.db, op.approval, op.now) == Write(ws))
    && (op.Begin? || op.Abandon? || op.Upload? ==> n.run.NoRun?)
  }

  lemma Decided(cfg: Config, n: Node, op: Op, ws: seq<Mutation>)
    requires Decide(cfg, n, op) == Write(ws)
    ensures DecidedWrites(cfg, n, op, ws)
  {}

  lemma DecisionKept(cfg: Config, n: Node, op: Op, ws: seq<Mutation>, overflow: bool)
    requires NodeInv(cfg, n) && DecidedWrites(cfg, n, op, ws) && op.Timed()
    ensures Kept(cfg, n, op, ws, overflow)
  {
    if op.Insert? || op.MigrateBatch? || op.Rehydrate? || op.Evict? {
      DataKept(cfg, n, op, ws, overflow);
    } else if op.SetRecovery? || op.Admit? {
      FenceKept(cfg, n, op, ws, overflow);
    } else if op.PlanOp? || op.ApplyOp? || op.AbortOp? {
      RetirementKept(cfg, n, op, ws, overflow);
    } else {
      CaptureKept(cfg, n, op, ws, overflow);
    }
  }

  lemma TransactKept(cfg: Config, n: Node, op: Op, ws: seq<Mutation>, overflow: bool)
    requires NodeInv(cfg, n) && Decide(cfg, n, op) == Write(ws) && op.Timed()
    ensures Kept(cfg, n, op, ws, overflow)
  {
    Decided(cfg, n, op, ws);
    DecisionKept(cfg, n, op, ws, overflow);
  }

  // ---- one event ----------------------------------------------------------------------------------------

  lemma SnapshotStays(cfg: Config, snapshot: Database, was: Log, db: Database, log: Log, d: Database, log': Log)
    requires SnapshotOf(cfg, snapshot, was, db, log) && Promises(d, db) && InFlightKept(d, db) && log <= log'
    ensures SnapshotOf(cfg, snapshot, was, d, log')
  {
    PromisesTrans(d, db, snapshot);
  }

  lemma RunStays(cfg: Config, n: Node, op: Op, log': Log, d: Database)
    requires RunOk(cfg, n) && !op.Begin? && n.log <= log' && Promises(d, n.db)
    requires (op.Abandon? ==> n.run.NoRun?) && (!op.Abandon? && !op.SealSet? ==> InFlightKept(d, n.db))
    ensures RunOk(cfg, Node(d, log', n.recovering, n.clearing, RunAfter(n, op)))
  {
    hide VersionOf, SnapshotOf, Head, InFlight, Floor, MetaNum, Rows, KeepsRows, StoreId, Promises, ReceiptTime;
    if n.run.Packing? && !op.SealSet? && !op.Abandon? {
      SnapshotStays(cfg, n.run.snapshot, n.run.was, n.db, n.log, d, log');
    }
  }

  lemma BeginRuns(cfg: Config, db: Database, log: Log, id: string, ws: seq<Mutation>, overflow: bool)
    requires Inv(cfg, db, log) && BeginOutcome(db, id) == Write(ws)
    ensures InFlight(Committed(db, ws, overflow), id)
  {
    BeginKeeps(cfg, db, log, id, ws, overflow);
  }

  lemma RunAdvances(cfg: Config, n: Node, op: Op, ws: seq<Mutation>, overflow: bool)
    requires NodeInv(cfg, n) && DecidedWrites(cfg, n, op, ws) && Promises(Committed(n.db, ws, overflow), n.db)
    requires !op.Abandon? && !op.SealSet? ==> InFlightKept(Committed(n.db, ws, overflow), n.db)
    ensures RunOk(cfg, After(n, op, Committed(n.db, ws, overflow)))
  {
    hide Inv, Promises, Committed, SnapshotOf, InFlight, InFlightKept, DataDecides, RetirementDecides;
    if op.Begin? {
      BeginRuns(cfg, n.db, n.log, op.id, ws, overflow);
    } else {
      RunStays(cfg, n, op, LogAfter(n, op), Committed(n.db, ws, overflow));
    }
  }

  lemma WrittenKeeps(cfg: Config, n: Node, op: Op, ws: seq<Mutation>, overflow: bool)
    requires NodeInv(cfg, n) && DecidedWrites(cfg, n, op, ws) && Kept(cfg, n, op, ws, overflow)
    ensures var n' := After(n, op, Committed(n.db, ws, overflow));
      NodeInv(cfg, n') && Later(n', n)
  {
    RunAdvances(cfg, n, op, ws, overflow);
  }

  /** The state after a committed transaction. */
  lemma CommittedKeeps(cfg: Config, n: Node, op: Op, ws: seq<Mutation>, overflow: bool)
    requires NodeInv(cfg, n) && DecidedWrites(cfg, n, op, ws) && op.Timed()
    ensures var n' := After(n, op, Committed(n.db, ws, overflow));
      NodeInv(cfg, n') && Later(n', n)
  {
    DecisionKept(cfg, n, op, ws, overflow);
    WrittenKeeps(cfg, n, op, ws, overflow);
  }

  lemma TransactKeeps(cfg: Config, n: Node, op: Op, overflow: bool)
    requires NodeInv(cfg, n) && op.Timed()
    ensures NodeInv(cfg, Transacted(cfg, n, op, overflow)) && Later(Transacted(cfg, n, op, overflow), n)
  {
    hide NodeInv, Later, Decide, DecidedWrites, Committed, GenerationExhausted;
    match Decide(cfg, n, op)
    case Refuse(_) => MemoryKeeps(cfg, n, n.recovering, n.clearing);
    case Write(ws) =>
      Decided(cfg, n, op, ws);
      CommittedKeeps(cfg, n, op, ws, overflow);
      MemoryKeeps(cfg, n, n.recovering || op.SetRecovery?, n.clearing);
  }

  /** What only happens in memory. */
  lemma MemoryKeeps(cfg: Config, n: Node, recovering: bool, clearing: nat)
    requires NodeInv(cfg, n)
    ensures var n' := n.(recovering := recovering, clearing := clearing); NodeInv(cfg, n') && Later(n', n)
    ensures var n' := n.(run := NoRun); NodeInv(cfg, n') && Later(n', n)
    ensures Later(n, n)
  {
    hide Inv, SnapshotOf, InFlight;
  }

  /** Only the journal and the keys of the storage file differ, and both are in order. */
  ghost predicate StorageChange(d: Database, db: Database) {
    && SameViews(d, db) && Generation(d) >= Generation(db)
    && (MetaRowsOk(Rows(db, Meta)) ==> MetaRowsOk(Rows(d, Meta)))
    && (JournalWithin(Rows(db, MutationJournal), Generation(db)) ==> JournalWithin(Rows(d, MutationJournal), Generation(d)))
  }

  lemma StorageKeeps(cfg: Config, d: Database, db: Database, log: Log)
    requires StorageChange(d, db) && Inv(cfg, db, log)
    ensures Inv(cfg, d, log) && Advances(d, db)
  {
    SameReadings(d, db);
    LedgerFrame(d, db, log);
    ProtocolFrame(cfg, d, db);
    SchemaFrame(d, db);
    PromisesFrame(d, db, db);
  }

  lemma InstalledSame(d: Database, db: Database)
    requires Installable(d, db)
    ensures StorageChange(d, db)
  {
    CoreLookup(d, db);
    assert Get(d, Meta, Field(SchemaVersion)) == Get(db, Meta, Field(SchemaVersion));
  }

  /** `d` is `db` with a session open and its first journal entry. */
  ghost predicate SessionOpened(d: Database, db: Database, generation: string, entry: seq<Mutation>) {
    && Rows(d, Meta) == Rows(db, Meta)[Field(ManifestRequired) := Flag][Field(CompactionSession) := Text(generation)]
                          [Field(MutationGeneration) := Num(Generation(db) + 1)]
    && d.Keys == db.Keys && (forall b :: b != Meta && b != MutationJournal ==> TableOf(d, b) == TableOf(db, b))
    && Rows(d, MutationJournal) == map[Seq(Generation(db) + 1) := WriteSet(entry)]
  }

  lemma OpenedSame(d: Database, db: Database, generation: string, entry: seq<Mutation>)
    requires SessionOpened(d, db, generation, entry) && VersionOf(db) == V2
    requires entry != [] && forall w <- entry :: w.bucket != MutationJournal
    ensures StorageChange(d, db)
  {}

  lemma StartSame(db: Database, generation: string)
    requires Meta in db && MutationJournal in db && Rows(db, MutationJournal) == map[] && VersionOf(db) == V2
    ensures StorageChange(Committed(db, Compaction.StartWrites(generation), false), db)
  {
    var entry := Sealing(db, Compaction.StartWrites(generation));
    Compaction.StartRows(db, generation);
    assert forall w <- entry :: w.bucket != MutationJournal;
    OpenedSame(Committed(db, Compaction.StartWrites(generation), false), db, generation, entry);
  }

  lemma ClosedSame(d: Database, db: Database)
    requires Compaction.SessionClosed(d, db)
    ensures StorageChange(d, db) && !HasSession(d)
  {
    assert TableOf(d, MutationJournal) == TableOf(db, MutationJournal);
  }

  lemma DropSame(db: Database)
    requires Meta in db
    ensures StorageChange(Committed(db, Compaction.DropWrites, false), db)
  {
    Compaction.DropRows(db);
    ClosedSame(Committed(db, Compaction.DropWrites, false), db);
  }

  /** The database was exchanged or its session changed; the run and the flag carry on. */
  lemma StorageEvent(cfg: Config, n: Node, d: Database)
    requires NodeInv(cfg, n) && StorageChange(d, n.db)
    ensures NodeInv(cfg, n.(db := d)) && Later(n.(db := d), n)
  {
    StorageKeeps(cfg, d, n.db, n.log);
    if n.run.Packing? { SnapshotStays(cfg, n.run.snapshot, n.run.was, n.db, n.log, d, n.log); }
  }

  lemma StorageKept(cfg: Config, n: Node, event: Event)
    requires NodeInv(cfg, n) && Next(cfg, n, event).Some? && (event.StartSession? || event.DropSession? || event.Cutover?)
    ensures StorageChange(Next(cfg, n, event).value.db, n.db)
    ensures Next(cfg, n, event).value == n.(db := Next(cfg, n, event).value.db)
  {
    if event.StartSession? {
      StartSame(n.db, event.generation);
    } else if event.DropSession? {
      DropSame(n.db);
    } else {
      InstalledSame(event.installed, n.db);
    }
  }

  lemma ReopenedSame(d: Database, db: Database, e: Database)
    requires Core(db) == Core(e) && (Compaction.SessionClosed(d, db) || (d == db && !HasSession(db)))
    requires MetaRowsOk(Rows(db, Meta)) && JournalWithin(Rows(db, MutationJournal), Generation(db))
    ensures StorageChange(d, e) && Fenced(d) == Fenced(db)
  {
    hide Core, MetaRowsOk, Compaction.SessionClosed, Generation;
    CoreLookup(db, e);
    if d != db || HasSession(db) { ClosedSame(d, db); }
    ClosedFence(d, db);
    CoreCounts(db, e);
  }

  lemma CoreCounts(d: Database, db: Database)
    requires Core(d) == Core(db)
    ensures Generation(d) == Generation(db)
  {
    hide Core;
    CoreLookup(d, db);
    assert Get(d, Meta, Field(MutationGeneration)) == Get(db, Meta, Field(MutationGeneration));
  }

  lemma ClosedFence(d: Database, db: Database)
    requires Compaction.SessionClosed(d, db) || d == db
    ensures Fenced(d) == Fenced(db)
  {}

  /** Whatever file of the same contents an open finds, nothing but the session changes. */
  lemma RestartSame(found: Database, db: Database)
    requires Reopenable(found, db) && Meta in db
    ensures StorageChange(Reopened(found), db) && Fenced(Reopened(found)) == Fenced(found) == Fenced(db)
  {
    hide StorageChange;
    CoreLookup(found, db);
    if HasSession(found) { Compaction.DropRows(found); }
    ReopenedSame(Reopened(found), found, db);
  }

  lemma RestartKeeps(cfg: Config, n: Node, found: Database)
    requires NodeInv(cfg, n) && Reopenable(found, n.db)
    ensures NodeInv(cfg, Node(Reopened(found), n.log, Fenced(found), 0, NoRun))
    ensures Later(Node(Reopened(found), n.log, Fenced(found), 0, NoRun), n)
  {
    RestartSame(found, n.db);
    StorageKeeps(cfg, Reopened(found), n.db, n.log);
  }

  lemma ReadKeeps(cfg: Config, n: Node)
    requires NodeInv(cfg, n) && n.run.Begun? && Ready(cfg, n.db) == None
    ensures NodeInv(cfg, n.(run := Packing(n.run.id, n.db, n.log))) && Later(n.(run := Packing(n.run.id, n.db, n.log)), n)
  {
    hide Inv, Ready, InFlight, SnapshotOf, Promises;
    MemoryKeeps(cfg, n, n.recovering, n.clearing);
    ReadyAtV2(cfg, n.db);
    OwnSnapshot(cfg, n.db, n.log);
  }

  lemma ReadyAtV2(cfg: Config, db: Database)
    requires Ready(cfg, db) == None
    ensures VersionOf(db) == V2
  {}

  lemma OwnSnapshot(cfg: Config, db: Database, log: Log)
    requires Inv(cfg, db, log) && VersionOf(db) == V2
    ensures SnapshotOf(cfg, db, log, db, log)
  {
    hide Inv, VersionOf;
  }

  /** Every event keeps the invariant and takes no promise back. */
  lemma EventKeeps(cfg: Config, n: Node, event: Event)
    requires NodeInv(cfg, n) && Next(cfg, n, event).Some?
    ensures NodeInv(cfg, Next(cfg, n, event).value) && Later(Next(cfg, n, event).value, n)
  {
    hide NodeInv, Later, Transacted, Installable, Reopenable, Committed;
    if event.Transact? {
      TransactKeeps(cfg, n, event.op, event.overflow);
    } else if event.ReadSnapshot? {
      ReadKeeps(cfg, n);
    } else if event.Restart? {
      RestartKeeps(cfg, n, event.found);
    } else if event.StartSession? || event.DropSession? || event.Cutover? {
      StorageKept(cfg, n, event);
      StorageEvent(cfg, n, Next(cfg, n, event).value.db);
    } else {
      MemoryKeeps(cfg, n, event.RaiseFlag?, if n.clearing > 0 then n.clearing - 1 else 0);
      MemoryKeeps(cfg, n, true, n.clearing);
    }
  }
}
