/** The main results about the domain operations, over whole runs. */
module Runs {
  import opened Types
  import opened Store
  import opened Gateway
  import opened Archive
  import opened Invariant
  import opened Lifecycle
  import opened Insertion
  import opened Retirement
  import opened Backup
  import opened Recovery
  import opened Operations

  ghost predicate StepAt(cfg: Config, states: seq<Node>, events: seq<Event>, i: nat)
    requires |states| == |events| + 1 && i < |events|
  {
    Next(cfg, states[i], events[i]) == Some(states[i + 1])
  }

  /** Any interleaving of operations, captures, cutovers and restarts from a new store. */
  ghost predicate IsHistory(cfg: Config, states: seq<Node>, events: seq<Event>) {
    && |states| == |events| + 1
    && FreshStore(cfg, states[0])
    && forall i :: 0 <= i < |events| ==> StepAt(cfg, states, events, i)
  }

  lemma StepKeeps(cfg: Config, states: seq<Node>, events: seq<Event>, i: nat, j: nat)
    requires |states| == |events| + 1 && i < |events| && j == i + 1
    requires StepAt(cfg, states, events, i) && NodeInv(cfg, states[i])
    ensures NodeInv(cfg, states[j]) && Later(states[j], states[i])
  {
    EventKeeps(cfg, states[i], events[i]);
  }

  lemma StartKeeps(cfg: Config, states: seq<Node>, events: seq<Event>)
    requires IsHistory(cfg, states, events)
    ensures NodeInv(cfg, states[0])
  {
    FreshNode(cfg, states[0]);
  }

  lemma {:induction false} Invariance<S>(P: S -> bool, states: seq<S>, i: nat)
    requires i < |states| && P(states[0])
    requires forall j :: 0 < j < |states| && P(states[j - 1]) ==> P(states[j])
    ensures P(states[i])
  {
    if i > 0 { Invariance(P, states, i - 1); }
  }

  /** The invariant of the database, and with it every view of the log and every protocol
      fact, holds in every reachable state. */
  lemma HistoryKeeps(cfg: Config, states: seq<Node>, events: seq<Event>, i: nat)
    requires IsHistory(cfg, states, events) && i < |states|
    ensures NodeInv(cfg, states[i])
  {
    hide NodeInv, Next;
    StartKeeps(cfg, states, events);
    forall j | 0 < j < |states| && NodeInv(cfg, states[j - 1]) ensures NodeInv(cfg, states[j]) {
      StepKeeps(cfg, states, events, j - 1, j);
    }
    Invariance((n: Node) => NodeInv(cfg, n), states, i);
  }

  lemma HistoryInv(cfg: Config, states: seq<Node>, events: seq<Event>, i: nat)
    requires IsHistory(cfg, states, events) && i < |states|
    ensures Inv(cfg, states[i].db, states[i].log)
  {
    hide Inv, RunOk;
    HistoryKeeps(cfg, states, events, i);
  }

  lemma HistoryStep(cfg: Config, states: seq<Node>, events: seq<Event>, i: nat, j: nat)
    requires IsHistory(cfg, states, events) && i < |events| && j == i + 1
    ensures Later(states[j], states[i])
  {
    HistoryKeeps(cfg, states, events, i);
    StepKeeps(cfg, states, events, i, j);
  }

  /** Head, floor, accept log, terminal operations, catalog and receipt times: what one state
      shows, every later state still shows. */
  lemma {:induction false} NothingTakenBack(cfg: Config, states: seq<Node>, events: seq<Event>, i: nat, j: nat)
    requires IsHistory(cfg, states, events) && i <= j < |states|
    ensures Later(states[j], states[i])
    decreases j
  {
    if i < j {
      NothingTakenBack(cfg, states, events, i, j - 1);
      HistoryStep(cfg, states, events, j - 1, j);
      LaterTrans(states[j], states[j - 1], states[i]);
    }
  }

  // ---- duplicates ---------------------------------------------------------------------------------------

  /** Once accepted, an id is answered the same way for ever: after migration, retirement,
      eviction, cutover or restart, the digest first accepted decides, and nothing changes. */
  lemma FirstAnswerStands(cfg: Config, states: seq<Node>, events: seq<Event>, i: nat, j: nat, k: nat, e: LogEvent, now: nat, overflow: bool)
    requires IsHistory(cfg, states, events) && i <= j < |states| && k < |states[i].log|
    requires e.id == states[i].log[k].event.id
    ensures InsertOutcome(states[j].db, e, now) ==
            Refuse(if !Acceptable(e) then InvalidEvent
                   else if ContentOf(e) == states[i].log[k].content then DuplicateEvent else BillingConflict)
    ensures Transacted(cfg, states[j], Insert(e, now), overflow) == states[j]
  {
    hide IsHistory, Views, InsertOutcome, Acceptable, ContentOf, Promises, RunOk;
    NothingTakenBack(cfg, states, events, i, j);
    HistoryInv(cfg, states, events, j);
    assert states[j].log[k] == states[i].log[k] && states[j].log[k] in states[j].log;
    ReinsertionAnswers(cfg, states[j].db, states[j].log, e, now);
  }

  // ---- deletion -------------------------------------------------------------------------------------------

  predicate HotAt(n: Node, k: nat) { Seq(k) in Rows(n.db, Events) }

  /** The event is an apply of a pending operation that the authority confirmed, over a range
      that includes `k`, inside a set whose signed completion verifies, at an age of at least
      the retention period. */
  predicate Justified(cfg: Config, n: Node, event: Event, k: nat) {
    event.Transact? && event.op.ApplyOp? &&
    (var op := event.op;
     && op.seen.Some? && op.authority && cfg.retirementEnabled
     && (var st := op.seen.value;
         && st.state == Pending && Get(n.db, Operations, Name(op.id)) == Some(Operation(st))
         && Floor(n.db) + 1 == st.from <= k <= st.through
         && SetCovers(cfg, n.db, st.setId, st.from, st.through)
         && AgedBy(n.db, k, cfg.retention, op.now)))
  }

  lemma HotMeans(cfg: Config, n: Node, k: nat)
    requires NodeInv(cfg, n)
    ensures HotAt(n, k) <==> Floor(n.db) < k <= |n.log|
  {
    assert HotOk(Rows(n.db, Events), n.log, Floor(n.db));
  }

  lemma FloorStays(cfg: Config, n: Node, op: Op, overflow: bool)
    requires NodeInv(cfg, n) && op.Timed() && !op.ApplyOp?
    ensures Floor(Transacted(cfg, n, op, overflow).db) == Floor(n.db)
  {
    hide NodeInv, Committed, Inv, Promises, Floor, Decide, DecidedWrites, InFlightKept, OnlyCaptures, Fenced;
    match Decide(cfg, n, op)
    case Refuse(_) =>
    case Write(ws) =>
      Decided(cfg, n, op, ws);
      DecisionKept(cfg, n, op, ws, overflow);
  }

  lemma StorageFloor(d: Database, db: Database)
    requires StorageChange(d, db)
    ensures Floor(d) == Floor(db) && Fenced(d) == Fenced(db)
  {
    hide MetaRowsOk;
    SameReadings(d, db);
  }

  lemma FloorMoves(cfg: Config, n: Node, event: Event)
    requires NodeInv(cfg, n) && Next(cfg, n, event).Some? && Floor(Next(cfg, n, event).value.db) != Floor(n.db)
    ensures event.Transact? && event.op.ApplyOp?
  {
    hide NodeInv, Transacted, StorageChange, Committed, Floor, Installable, Reopenable, Reopened, Decide, Promises;
    if event.Transact? && !event.op.ApplyOp? {
      FloorStays(cfg, n, event.op, event.overflow);
    } else if event.StartSession? || event.DropSession? || event.Cutover? {
      StorageKept(cfg, n, event);
      StorageFloor(Next(cfg, n, event).value.db, n.db);
    } else if event.Restart? {
      NodeHasMeta(cfg, n);
      RestartSame(event.found, n.db);
      StorageFloor(Reopened(event.found), n.db);
    }
  }

  lemma AppliedJustified(cfg: Config, n: Node, id: string, seen: Option<RetirementStatus>, authority: bool, now: nat,
                         ws: seq<Mutation>, overflow: bool, k: nat)
    requires Inv(cfg, n.db, n.log) && now > 0 && ApplyOutcome(cfg, n.db, id, seen, authority, now) == Write(ws)
    requires Floor(n.db) < k <= Floor(Committed(n.db, ws, overflow))
    ensures Justified(cfg, n, Transact(ApplyOp(id, seen, authority, now), overflow), k)
  {
    ApplyDecides(cfg, n.db, id, seen, authority, now);
    AppliedFloor(cfg, n.db, n.log, id, seen, authority, now, ws, overflow);
  }

  lemma AppliedFloor(cfg: Config, db: Database, log: Log, id: string, seen: Option<RetirementStatus>, authority: bool, now: nat,
                     ws: seq<Mutation>, overflow: bool)
    requires Inv(cfg, db, log) && now > 0 && ApplyOutcome(cfg, db, id, seen, authority, now) == Write(ws) && ws != []
    ensures seen.Some? && Floor(Committed(db, ws, overflow)) == seen.value.through
  {
    ApplyKeeps(cfg, db, log, id, seen, authority, now, ws, overflow);
  }

  lemma MovedByApply(cfg: Config, n: Node, id: string, seen: Option<RetirementStatus>, authority: bool, now: nat, overflow: bool)
    returns (ws: seq<Mutation>)
    requires Floor(Transacted(cfg, n, ApplyOp(id, seen, authority, now), overflow).db) != Floor(n.db)
    ensures ApplyOutcome(cfg, n.db, id, seen, authority, now) == Write(ws)
    ensures Floor(Transacted(cfg, n, ApplyOp(id, seen, authority, now), overflow).db) == Floor(Committed(n.db, ws, overflow))
  {
    ws := ApplyOutcome(cfg, n.db, id, seen, authority, now).writes;
  }

  lemma EventJustified(cfg: Config, n: Node, event: Event, n': Node, k: nat)
    requires NodeInv(cfg, n) && Next(cfg, n, event) == Some(n') && Floor(n.db) < k <= Floor(n'.db)
    ensures Justified(cfg, n, event, k)
  {
    hide Views, RunOk, Justified, ApplyOutcome, Committed, Floor;
    FloorMoves(cfg, n, event);
    var op := event.op;
    var ws := MovedByApply(cfg, n, op.id, op.seen, op.authority, op.now, event.overflow);
    AppliedJustified(cfg, n, op.id, op.seen, op.authority, op.now, ws, event.overflow, k);
  }

  /** Every body ever deleted was old enough by its stored receipt time, and covered, when it
      was deleted. */
  lemma DeletionDecided(cfg: Config, states: seq<Node>, events: seq<Event>, i: nat, k: nat)
    requires IsHistory(cfg, states, events) && i < |events|
    requires HotAt(states[i], k) && !HotAt(states[i + 1], k)
    ensures Justified(cfg, states[i], events[i], k)
  {
    HistoryKeeps(cfg, states, events, i);
    assert StepAt(cfg, states, events, i);
    StepKeeps(cfg, states, events, i, i + 1);
    HotMeans(cfg, states[i], k);
    HotMeans(cfg, states[i + 1], k);
    EventJustified(cfg, states[i], events[i], states[i + 1], k);
  }

  // ---- the protocols in every reachable state ----------------------------------------------------------------

  predicate ActiveAt(captures: Rowset, k: Key) {
    k in captures && captures[k].Capture? && Active(captures[k].p.state)
  }

  ghost predicate InOneSet(captures: Rowset, n: nat) {
    exists k :: CaptureHolds(captures, k, n) && forall j :: CaptureHolds(captures, j, n) ==> j == k
  }

  ghost predicate InOneRetirement(operations: Rowset, n: nat) {
    exists k :: OperationHolds(operations, k, n) && forall j :: OperationHolds(operations, j, n) ==> j == k
  }

  /** At most one capture is in flight, and every captured sequence is in exactly one sealed,
      uploaded or verified set. */
  lemma CapturesPartition(cfg: Config, states: seq<Node>, events: seq<Event>, i: nat)
    requires IsHistory(cfg, states, events) && i < |states|
    ensures var db, captures := states[i].db, Rows(states[i].db, Captures);
      && (forall j, k :: ActiveAt(captures, j) && ActiveAt(captures, k) ==> j == k)
      && (forall n: nat :: InOneSet(captures, n) <==> 1 <= n <= MetaNum(db, CapturedThrough))
      && Floor(db) <= MetaNum(db, CapturedThrough) <= Head(db)
  {
    HistoryKeeps(cfg, states, events, i);
    var db, captures := states[i].db, Rows(states[i].db, Captures);
    assert CapturesOk(cfg, captures, StoreId(db), MetaNum(db, CapturedThrough));
    forall n: nat ensures InOneSet(captures, n) <==> 1 <= n <= MetaNum(db, CapturedThrough) {
      if SomeCapture(captures, n) {
        var k :| k in captures && CaptureHolds(captures, k, n);
        assert forall j :: CaptureHolds(captures, j, n) ==> j == k;
      }
      if InOneSet(captures, n) {
        var k :| CaptureHolds(captures, k, n);
        assert SomeCapture(captures, n);
      }
    }
  }

  /** Every retired sequence is in exactly one completed operation, and the hot events are
      exactly the sequences after the floor. */
  lemma RetirementsPartition(cfg: Config, states: seq<Node>, events: seq<Event>, i: nat)
    requires IsHistory(cfg, states, events) && i < |states|
    ensures forall n: nat :: InOneRetirement(Rows(states[i].db, Operations), n) <==> 1 <= n <= Floor(states[i].db)
    ensures forall k: nat :: HotAt(states[i], k) <==> Floor(states[i].db) < k <= Head(states[i].db)
  {
    HistoryKeeps(cfg, states, events, i);
    var operations := Rows(states[i].db, Operations);
    forall n: nat ensures InOneRetirement(operations, n) <==> 1 <= n <= Floor(states[i].db) {
      assert OperationsOk(cfg, operations, StoreId(states[i].db), Floor(states[i].db));
      if SomeOperation(operations, n) {
        var k :| k in operations && OperationHolds(operations, k, n);
        assert forall j :: OperationHolds(operations, j, n) ==> j == k;
      }
      if InOneRetirement(operations, n) {
        var k :| OperationHolds(operations, k, n);
        assert SomeOperation(operations, n);
      }
    }
    forall k: nat ensures HotAt(states[i], k) <==> Floor(states[i].db) < k <= Head(states[i].db) {
      HotMeans(cfg, states[i], k);
    }
  }

  // ---- recovery ------------------------------------------------------------------------------------------------

  predicate IsAdmission(event: Event) { event.Transact? && event.op.Admit? }
  predicate RaisesFence(event: Event) { event.Transact? && event.op.SetRecovery? }

  /** The flag is up and no admission is about to clear it. */
  predicate Held(n: Node) { n.recovering && n.clearing == 0 }

  lemma CapturesFrozen(cfg: Config, d: Database, db: Database, log: Log)
    requires Inv(cfg, d, log) && Inv(cfg, db, log) && Promises(d, db) && OnlyCaptures(d, db)
    ensures ReadState(cfg, d) == ReadState(cfg, db)
  {}

  /** Behind the fence only captures and the fence itself are ever written, as long as the
      flag turns inserts away. */
  lemma FencedDecision(cfg: Config, n: Node, op: Op)
    requires Fenced(n.db) && n.recovering && !op.Admit?
    ensures op.Begin? || op.Abandon? || op.SealSet? || op.Upload? || op.SetRecovery? || Decide(cfg, n, op) == Write([])
            || Decide(cfg, n, op).Refuse?
    ensures op.Insert? ==> Decide(cfg, n, op).Refuse?
  {}

  lemma KeptFrozen(cfg: Config, n: Node, op: Op, ws: seq<Mutation>, overflow: bool)
    requires NodeInv(cfg, n) && Kept(cfg, n, op, ws, overflow) && (op.Begin? || op.Abandon? || op.SealSet? || op.Upload?)
    ensures ReadState(cfg, Committed(n.db, ws, overflow)) == ReadState(cfg, n.db)
  {
    hide Committed, ReadState, OnlyCaptures, Views, RunOk;
    CapturesFrozen(cfg, Committed(n.db, ws, overflow), n.db, n.log);
  }

  lemma FencedCommit(cfg: Config, n: Node, op: Op, ws: seq<Mutation>, overflow: bool)
    requires NodeInv(cfg, n) && Operations.DecidedWrites(cfg, n, op, ws) && op.Timed() && Fenced(n.db)
    requires op.Begin? || op.Abandon? || op.SealSet? || op.Upload? || op.SetRecovery?
    ensures ReadState(cfg, Committed(n.db, ws, overflow)) == ReadState(cfg, n.db)
  {
    hide Committed, Views, RunOk, Kept, Settled, DataDecides, RetirementDecides, CaptureDecides;
    if op.SetRecovery? {
      SetRecoveryKeeps(cfg, n.db, n.log, ws, overflow);
    } else {
      DecisionKept(cfg, n, op, ws, overflow);
      KeptFrozen(cfg, n, op, ws, overflow);
    }
  }

  lemma FencedTransaction(cfg: Config, n: Node, op: Op, overflow: bool)
    requires NodeInv(cfg, n) && Fenced(n.db) && Held(n) && !op.Admit? && op.Timed()
    ensures ReadState(cfg, Transacted(cfg, n, op, overflow).db) == ReadState(cfg, n.db)
    ensures Held(Transacted(cfg, n, op, overflow))
  {
    hide NodeInv, ReadState, Decide, Committed, DecidedWrites;
    FencedDecision(cfg, n, op);
    match Decide(cfg, n, op)
    case Refuse(_) =>
    case Write(ws) =>
      if ws != [] {
        Decided(cfg, n, op, ws);
        FencedCommit(cfg, n, op, ws, overflow);
      } else {
        assert Committed(n.db, [], overflow) == n.db by { EmptyCommit(n.db, overflow); }
      }
  }

  lemma EmptyCommit(db: Database, overflow: bool)
    ensures Committed(db, [], overflow) == db
  {}

  lemma FencedEvent(cfg: Config, n: Node, event: Event, n': Node)
    requires NodeInv(cfg, n) && Fenced(n.db) && Held(n) && !IsAdmission(event) && Next(cfg, n, event) == Some(n')
    ensures ReadState(cfg, n'.db) == ReadState(cfg, n.db) && Fenced(n'.db) && Held(n')
  {
    hide NodeInv, Transacted;
    if event.Transact? {
      FencedTransaction(cfg, n, event.op, event.overflow);
    } else if event.StartSession? || event.DropSession? || event.Cutover? {
      StorageKept(cfg, n, event);
      ReadingFrame(cfg, n'.db, n.db);
    } else if event.Restart? {
      NodeHasMeta(cfg, n);
      RestartSame(event.found, n.db);
      ReadingFrame(cfg, n'.db, n.db);
    }
  }

  /** A domain write-set leaves the generation to the commit. */
  lemma RoomToCommit(db: Database, ws: seq<Mutation>)
    requires DomainWrites(ws) && Generation(db) < MAX_UINT64
    ensures !GenerationExhausted(db, ws)
  {
    DomainFrame(db, ws);
    assert Get(ApplyAll(db, ws), Meta, Field(MutationGeneration)) == Get(db, Meta, Field(MutationGeneration));
  }

  lemma NodeHasMeta(cfg: Config, n: Node)
    requires NodeInv(cfg, n)
    ensures Meta in n.db
  {}

  lemma FencedStep(cfg: Config, states: seq<Node>, events: seq<Event>, i: nat)
    requires |states| == |events| + 1 && i < |events| && StepAt(cfg, states, events, i) && NodeInv(cfg, states[i])
    requires Fenced(states[i].db) && Held(states[i]) && !IsAdmission(events[i])
    ensures ReadState(cfg, states[i + 1].db) == ReadState(cfg, states[i].db)
    ensures NodeInv(cfg, states[i + 1]) && Fenced(states[i + 1].db) && Held(states[i + 1])
  {
    hide NodeInv, Next, ReadState, Held, Later;
    FencedEvent(cfg, states[i], events[i], states[i + 1]);
    EventKeeps(cfg, states[i], events[i]);
  }

  /** A run from `n` on in which nothing is admitted. */
  ghost predicate Continues(cfg: Config, n: Node, states: seq<Node>, events: seq<Event>) {
    && |states| == |events| + 1 && states[0] == n
    && forall i :: 0 <= i < |events| ==> StepAt(cfg, states, events, i) && !IsAdmission(events[i])
  }

  /** Whatever happens before an admission, the approver's reading of `n` stays true. */
  ghost predicate ReadingHolds(cfg: Config, n: Node) {
    forall states: seq<Node>, events: seq<Event> :: Continues(cfg, n, states, events) ==> ReadState(cfg, states[|events|].db) == ReadState(cfg, n.db)
  }

  lemma {:induction false} HeldStands(cfg: Config, n: Node, states: seq<Node>, events: seq<Event>, j: nat)
    requires NodeInv(cfg, n) && Fenced(n.db) && Held(n) && Continues(cfg, n, states, events) && j < |states|
    ensures ReadState(cfg, states[j].db) == ReadState(cfg, n.db) && NodeInv(cfg, states[j]) && Fenced(states[j].db) && Held(states[j])
    decreases j
  {
    hide NodeInv, Next, ReadState, Held;
    if j > 0 {
      HeldStands(cfg, n, states, events, j - 1);
      FencedStep(cfg, states, events, j - 1);
    }
  }

  /** An insert that is not turned away is accepted behind the fence, and moves the high water. */
  lemma InsertedBehind(cfg: Config, n: Node, e: LogEvent)
    requires NodeInv(cfg, n) && !n.recovering && Acceptable(e) && Name(e.id) !in Rows(n.db, Ids)
    requires Head(n.db) < MAX_UINT64 && Generation(n.db) < MAX_UINT64
    ensures var n' := Transacted(cfg, n, Insert(e, 1), false); Head(n'.db) == Head(n.db) + 1
  {
    hide NodeInv, Committed, InsertWrites;
    var ws := InsertWrites(n.db, e, 1);
    assert Decide(cfg, n, Insert(e, 1)) == Write(ws);
    InsertMovesHead(cfg, n, e, ws);
  }

  lemma InsertMovesHead(cfg: Config, n: Node, e: LogEvent, ws: seq<Mutation>)
    requires NodeInv(cfg, n) && InsertOutcome(n.db, e, 1) == Write(ws) && Generation(n.db) < MAX_UINT64
    ensures !GenerationExhausted(n.db, ws) && Head(Committed(n.db, ws, false)) == Head(n.db) + 1
  {
    hide Committed, InsertOutcome, RunOk;
    InsertKeeps(cfg, n.db, n.log, e, 1, ws, false);
    InsertAllowed(cfg, n, e, ws);
    RoomToCommit(n.db, ws);
    HeadIsLength(cfg, Committed(n.db, ws, false), n.log + [RecordFor(n.db, e)]);
    HeadIsLength(cfg, n.db, n.log);
  }

  lemma InsertAllowed(cfg: Config, n: Node, e: LogEvent, ws: seq<Mutation>)
    requires NodeInv(cfg, n) && InsertOutcome(n.db, e, 1) == Write(ws)
    ensures DomainWrites(ws)
  {
    hide InsertOutcome, LedgerOk, ProtocolOk, RunOk;
    VersionRead(n.db);
    InsertDecides(n.db, e, 1, ws);
  }

  lemma VersionRead(db: Database)
    requires SchemaOk(db)
    ensures BucketsOk(db) && (HasVersion(db, V1) <==> VersionOf(db) == V1)
  {}

  lemma HeadIsLength(cfg: Config, db: Database, log: Log)
    requires Inv(cfg, db, log)
    ensures Head(db) == |log|
  {}

  /** The run that breaks a reading whose flag is down or about to be cleared. */
  lemma Unheld(cfg: Config, n: Node, e: LogEvent) returns (states: seq<Node>, events: seq<Event>)
    requires NodeInv(cfg, n) && !Held(n) && Acceptable(e) && Name(e.id) !in Rows(n.db, Ids)
    requires Head(n.db) < MAX_UINT64 && Generation(n.db) < MAX_UINT64
    ensures Continues(cfg, n, states, events) && ReadState(cfg, states[|events|].db) != ReadState(cfg, n.db)
  {
    hide NodeInv, Transacted, Acceptable;
    var insert := Transact(Insert(e, 1), false);
    if n.recovering {
      var m := n.(recovering := false, clearing := n.clearing - 1);
      assert NodeInv(cfg, m) by { EventKeeps(cfg, n, ClearRecovering); }
      states, events := [n, m, Transacted(cfg, m, insert.op, false)], [ClearRecovering, insert];
      InsertedBehind(cfg, m, e);
    } else {
      states, events := [n, Transacted(cfg, n, insert.op, false)], [insert];
      InsertedBehind(cfg, n, e);
    }
  }

  /** A reading behind the fence stands until the admission, whatever happens in between, if
      and only if the flag in memory is up and no earlier admission is about to clear it. The
      event `e` only says that the store has room for one more. */
  lemma ReadingStandsIff(cfg: Config, states: seq<Node>, events: seq<Event>, i: nat, e: LogEvent)
    requires IsHistory(cfg, states, events) && i < |states| && Fenced(states[i].db)
    requires Acceptable(e) && Name(e.id) !in Rows(states[i].db, Ids)
    requires Head(states[i].db) < MAX_UINT64 && Generation(states[i].db) < MAX_UINT64
    ensures ReadingHolds(cfg, states[i]) <==> Held(states[i])
  {
    hide NodeInv, Next, ReadState, Held, Acceptable, IsHistory;
    var n := states[i];
    HistoryKeeps(cfg, states, events, i);
    if Held(n) {
      forall ss: seq<Node>, es: seq<Event> | Continues(cfg, n, ss, es) ensures ReadState(cfg, ss[|es|].db) == ReadState(cfg, n.db) {
        HeldStands(cfg, n, ss, es, |es|);
      }
    } else {
      var ss, es := Unheld(cfg, n, e);
    }
  }

  // ---- when the fence is raised --------------------------------------------------------------------------------

  /** No fence is raised while an admission still has its flag to clear. Raising it only at
      start-up, before any admission, is one way to keep to this. */
  ghost predicate Untangled(states: seq<Node>, events: seq<Event>, i: nat)
    requires |states| == |events| + 1 && i < |states|
  {
    forall k :: 0 <= k < i && RaisesFence(events[k]) ==> states[k].clearing == 0
  }

  lemma UntangledTransaction(cfg: Config, n: Node, op: Op, overflow: bool)
    requires NodeInv(cfg, n) && op.Timed() && (Fenced(n.db) ==> Held(n)) && (op.SetRecovery? ==> n.clearing == 0)
    ensures var n' := Transacted(cfg, n, op, overflow); Fenced(n'.db) ==> Held(n')
  {
    hide NodeInv, Decide, Committed, DecidedWrites, Kept, Fenced;
    match Decide(cfg, n, op)
    case Refuse(_) =>
    case Write(ws) =>
      if op.Admit? {
        AdmissionLowers(cfg, n, op.approval, op.now, ws, overflow);
      } else if !op.SetRecovery? {
        Decided(cfg, n, op, ws);
        DecisionKept(cfg, n, op, ws, overflow);
        FenceStays(cfg, n, op, ws, overflow);
      }
  }

  lemma FenceStays(cfg: Config, n: Node, op: Op, ws: seq<Mutation>, overflow: bool)
    requires Kept(cfg, n, op, ws, overflow) && !op.Admit? && !op.SetRecovery?
    ensures Fenced(Committed(n.db, ws, overflow)) == Fenced(n.db)
  {
    hide Committed, Inv, Promises;
  }

  lemma AdmissionLowers(cfg: Config, n: Node, a: SignedApproval, now: nat, ws: seq<Mutation>, overflow: bool)
    requires NodeInv(cfg, n) && Decide(cfg, n, Admit(a, now)) == Write(ws)
    ensures !Fenced(Committed(n.db, ws, overflow)) && Fenced(n.db)
  {
    hide Committed, Views, Settled, RunOk;
    AdmitKeeps(cfg, n.db, n.log, a, now, ws, overflow);
  }

  lemma UntangledEvent(cfg: Config, n: Node, event: Event, n': Node)
    requires NodeInv(cfg, n) && Next(cfg, n, event) == Some(n')
    requires (Fenced(n.db) ==> Held(n)) && (RaisesFence(event) ==> n.clearing == 0)
    ensures Fenced(n'.db) ==> Held(n')
  {
    hide NodeInv, Transacted;
    if event.Transact? {
      UntangledTransaction(cfg, n, event.op, event.overflow);
    } else if event.StartSession? || event.DropSession? || event.Cutover? {
      StorageKept(cfg, n, event);
      SameReadings(n'.db, n.db);
    } else if event.Restart? {
      NodeHasMeta(cfg, n);
      RestartSame(event.found, n.db);
    }
  }

  /** In a run that keeps to it, the fence is never up without being held. */
  lemma {:induction false} UntangledHeld(cfg: Config, states: seq<Node>, events: seq<Event>, i: nat)
    requires IsHistory(cfg, states, events) && i < |states| && Untangled(states, events, i)
    ensures Fenced(states[i].db) ==> Held(states[i])
    decreases i
  {
    hide NodeInv, Next, Held;
    if i > 0 {
      UntangledHeld(cfg, states, events, i - 1);
      HistoryKeeps(cfg, states, events, i - 1);
      assert StepAt(cfg, states, events, i - 1);
      UntangledEvent(cfg, states[i - 1], events[i - 1], states[i]);
    } else {
      FreshUnfenced(cfg, states[0]);
    }
  }

  lemma FreshUnfenced(cfg: Config, n: Node)
    requires FreshStore(cfg, n)
    ensures !Fenced(n.db)
  {}

  /** Between a reading behind a held fence and the admission, across restarts, cutovers and
      operations already in flight, nothing the approver signed for changes; so an approval
      of that reading is admitted exactly while it is valid. */
  lemma ReadingStands(cfg: Config, states: seq<Node>, events: seq<Event>, i: nat, j: nat)
    requires IsHistory(cfg, states, events) && i <= j < |states| && Fenced(states[i].db)
    requires Untangled(states, events, i) && forall k :: i <= k < j ==> !IsAdmission(events[k])
    ensures ReadState(cfg, states[j].db) == ReadState(cfg, states[i].db)
    ensures forall a: SignedApproval, now: nat ::
              AdmitOutcome(cfg, states[j].db, a, now).Write? <==> ApprovalValid(cfg, a, now) && SignedFor(cfg, a.payload, states[i].db)
  {
    hide NodeInv, Next, ReadState, Held, FreshStore, ApprovalValid, ApprovalMatches;
    UntangledHeld(cfg, states, events, i);
    HistoryKeeps(cfg, states, events, i);
    SuffixContinues(cfg, states, events, i, j);
    HeldStands(cfg, states[i], states[i..j + 1], events[i..j], j - i);
    assert states[i..j + 1][j - i] == states[j];
    forall a: SignedApproval, now: nat
      ensures AdmitOutcome(cfg, states[j].db, a, now).Write? <==> ApprovalValid(cfg, a, now) && SignedFor(cfg, a.payload, states[i].db)
    {
      SameAdmission(cfg, states[j].db, states[i].db, a, now);
    }
  }

  /** Stores that read the same admit the same approvals. */
  lemma SameAdmission(cfg: Config, d: Database, db: Database, a: SignedApproval, now: nat)
    requires ReadState(cfg, d) == ReadState(cfg, db) && Fenced(d) && Fenced(db)
    ensures AdmitOutcome(cfg, d, a, now).Write? <==> ApprovalValid(cfg, a, now) && SignedFor(cfg, a.payload, db)
  {
    hide ReadState, ApprovalValid, SignedFor;
    AdmitsExactly(cfg, db, a, now);
  }

  lemma SuffixContinues(cfg: Config, states: seq<Node>, events: seq<Event>, i: nat, j: nat)
    requires |states| == |events| + 1 && i <= j < |states|
    requires forall k :: 0 <= k < |events| ==> StepAt(cfg, states, events, k)
    requires forall k :: i <= k < j ==> !IsAdmission(events[k])
    ensures Continues(cfg, states[i], states[i..j + 1], events[i..j])
  {
    hide Next, IsAdmission;
    forall k | 0 <= k < j - i ensures StepAt(cfg, states[i..j + 1], events[i..j], k) && !IsAdmission(events[i..j][k]) {
      assert StepAt(cfg, states, events, i + k);
    }
  }

  /** The tangled run: an admission commits, the fence is raised again before the admission
      clears the flag, and an event is accepted behind the raised fence. */
  lemma TangledRun(cfg: Config, n: Node, a: SignedApproval, now: nat, e: LogEvent) returns (states: seq<Node>)
    requires NodeInv(cfg, n) && now > 0 && AdmitOutcome(cfg, n.db, a, now).Write?
    requires Acceptable(e) && Name(e.id) !in Rows(n.db, Ids) && Head(n.db) < MAX_UINT64 && Generation(n.db) < MAX_UINT64 - 2
    ensures |states| == 5 && states[0] == n
    ensures var events := [Transact(Admit(a, now), false), Transact(SetRecovery, false), ClearRecovering, Transact(Insert(e, 1), false)];
      forall i :: 0 <= i < 4 ==> StepAt(cfg, states, events, i)
    ensures Fenced(states[2].db) && ReadState(cfg, states[4].db) != ReadState(cfg, states[2].db)
  {
    hide NodeInv, Acceptable, ReadState, Transacted;
    var b := Transacted(cfg, n, Admit(a, now), false);
    AdmittedState(cfg, n, a, now);
    var c := Transacted(cfg, b, SetRecovery, false);
    RaisedState(cfg, b);
    var d := c.(recovering := false, clearing := c.clearing - 1);
    assert NodeInv(cfg, d) by { EventKeeps(cfg, c, ClearRecovering); }
    var f := Transacted(cfg, d, Insert(e, 1), false);
    InsertedBehind(cfg, d, e);
    HighWaterRead(cfg, f.db, c.db);
    states := [n, b, c, d, f];
    var events := [Transact(Admit(a, now), false), Transact(SetRecovery, false), ClearRecovering, Transact(Insert(e, 1), false)];
    forall i | 0 <= i < 4 ensures StepAt(cfg, states, events, i) {
      assert i == 0 || i == 1 || i == 2 || i == 3;
    }
  }

  lemma HighWaterRead(cfg: Config, d: Database, db: Database)
    requires Head(d) != Head(db)
    ensures ReadState(cfg, d) != ReadState(cfg, db)
  {}

  lemma AdmittedState(cfg: Config, n: Node, a: SignedApproval, now: nat)
    requires NodeInv(cfg, n) && now > 0 && AdmitOutcome(cfg, n.db, a, now).Write? && Generation(n.db) < MAX_UINT64
    ensures var b := Transacted(cfg, n, Admit(a, now), false);
      && NodeInv(cfg, b) && b.clearing > 0 && Rows(b.db, Ids) == Rows(n.db, Ids) && Head(b.db) == Head(n.db)
      && Generation(b.db) == Generation(n.db) + 1
  {
    hide NodeInv, Committed, AdmitOutcome, FenceWritten, Promises;
    var ws := AdmitOutcome(cfg, n.db, a, now).writes;
    TransactKeeps(cfg, n, Admit(a, now), false);
    NodeHasMeta(cfg, n);
    AdmitEffect(cfg, n.db, a, now, ws);
    FenceCommitted(cfg, n, ws);
  }

  lemma RaisedState(cfg: Config, n: Node)
    requires NodeInv(cfg, n) && Generation(n.db) < MAX_UINT64
    ensures var c := Transacted(cfg, n, SetRecovery, false);
      && NodeInv(cfg, c) && c.clearing == n.clearing && Fenced(c.db) && Rows(c.db, Ids) == Rows(n.db, Ids) && Head(c.db) == Head(n.db)
      && Generation(c.db) == Generation(n.db) + 1
  {
    hide NodeInv, Committed, FenceWritten, Promises, Get, Rows, DomainWrites, GenerationExhausted;
    var ws := SetRecoveryOutcome().writes;
    TransactKeeps(cfg, n, SetRecovery, false);
    NodeHasMeta(cfg, n);
    SetRecoveryEffect(n.db, ws);
    FenceCommitted(cfg, n, ws);
  }

  /** A commit that only touched the fence. */
  lemma FenceCommitted(cfg: Config, n: Node, ws: seq<Mutation>)
    requires NodeInv(cfg, n) && FenceWritten(ApplyAll(n.db, ws), n.db) && Generation(n.db) < MAX_UINT64
    requires ws != [] && Applicable(n.db, ws) && DomainWrites(ws) && forall w <- ws :: Replayable(w)
    ensures var d := Committed(n.db, ws, false);
      && !GenerationExhausted(n.db, ws) && Generation(d) == Generation(n.db) + 1
      && Rows(d, Ids) == Rows(n.db, Ids) && Head(d) == Head(n.db) && Fenced(d) == Fenced(ApplyAll(n.db, ws))
  {
    hide Committed, NodeInv, ApplyAll, FenceWritten, SameViews, Generation, Head, Fenced, DomainWrites, GenerationExhausted;
    NodeSession(cfg, n);
    FenceReadings(ApplyAll(n.db, ws), n.db);
    CommitSameViews(n.db, ws, false);
    SameReadings(Committed(n.db, ws, false), ApplyAll(n.db, ws));
    CommitCounts(n.db, ws);
    RoomToCommit(n.db, ws);
  }

  lemma NodeSession(cfg: Config, n: Node)
    requires NodeInv(cfg, n)
    ensures Meta in n.db && (HasSession(n.db) ==> MutationJournal in n.db)
  {
    hide LedgerOk, ProtocolOk, RunOk, MetaRowsOk;
  }

  lemma CommitCounts(db: Database, ws: seq<Mutation>)
    requires DomainWrites(ws) && ws != [] && Meta in db && (HasSession(db) ==> MutationJournal in db)
    ensures Generation(Committed(db, ws, false)) == Generation(db) + 1
  {
    hide Committed, DomainWrites, ApplyAll;
    CommitEffect(db, ws, false);
  }
}
