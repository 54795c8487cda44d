/** The whole service: domain operations on the live file while the compactor copies, swaps
    and reclaims it, and while the machine crashes and reopens. */
module Service {
  import opened Types
  import opened Store
  import opened Gateway
  import opened Replay
  import opened Invariant
  import opened Lifecycle
  import opened Insertion
  import opened Operations
  import opened Runs
  import opened Receipts
  import opened Compaction
  import Directories
  import Paging
  import Safety = CompactionSafety
  import Steps = CompactionSteps

  datatype Whole = Whole(sys: System, node: Node)

  datatype Action =
    | Domain(op: Op, overflow: bool)
    | Local(event: Event)
    | Storage(step: Step)

  /** Events that touch no file. */
  predicate IsLocal(event: Event) { event.ReadSnapshot? || event.EndCapture? || event.RaiseFlag? || event.ClearRecovering? }

  function AfterStorage(w: Whole, sys: System): Node {
    if sys.proc.None? then w.node
    else if w.sys.proc.None? then Node(LiveDb(sys), w.node.log, Fenced(LiveDb(sys)), 0, NoRun)
    else w.node.(db := LiveDb(sys))
  }

  /** A domain write-set is a commit step of the storage; every other storage step leaves the
      log, and a new process starts from what it finds on disk. */
  function NextWhole(cfg: Config, w: Whole, action: Action): Option<Whole> {
    match action
    case Domain(op, overflow) =>
      if w.sys.proc.None? || !op.Timed() then None
      else (match Decide(cfg, w.node, op)
            case Refuse(_) => Some(w)
            case Write(ws) =>
              if ws == [] then Some(w.(node := Transacted(cfg, w.node, op, overflow)))
              else match Compaction.Next(w.sys, Commit(ws, overflow))
                case None => None
                case Some(sys) => Some(Whole(sys, Transacted(cfg, w.node, op, overflow))))
    case Local(event) =>
      if w.sys.proc.None? || !IsLocal(event) then None
      else (match Operations.Next(cfg, w.node, event) case None => None case Some(n) => Some(w.(node := n)))
    case Storage(step) =>
      if step.Commit? then None
      else match Compaction.Next(w.sys, step)
        case None => None
        case Some(sys) => Some(Whole(sys, AfterStorage(w, sys)))
  }

  ghost predicate WholeInv(cfg: Config, w: Whole) {
    && Safety.Inv(w.sys) && NodeInv(cfg, w.node)
    && Core(w.node.db) == Core(w.sys.acked)
    && (w.sys.proc.Some? ==> w.node.db == LiveDb(w.sys))
    && (w.sys.proc.Some? && !w.sys.proc.value.run.Idle? ==> VersionOf(w.node.db) == V2)
  }

  // ---- a database that takes the place of another ------------------------------------------------------

  lemma TypedMeta(d: Database, db: Database)
    requires Core(d) == Core(db) && MetaRowsOk(Rows(db, Meta)) && Meta in d && Safety.StorageTyped(d)
    ensures MetaRowsOk(Rows(d, Meta))
  {
    CoreLookup(d, db);
    forall k | k in Rows(d, Meta) ensures k.Field? && MetaValueOk(k.f, Rows(d, Meta)[k]) {
      if k !in StorageFields { assert Get(d, Meta, Field(k.f)) == Get(db, Meta, Field(k.f)); }
    }
  }

  lemma TakesPlace(cfg: Config, n: Node, d: Database)
    requires NodeInv(cfg, n) && Core(d) == Core(n.db) && Safety.HealthyDb(d)
    requires HasSession(d) ==> HasSession(n.db) || VersionOf(n.db) == V2
    ensures Installable(d, n.db)
  {
    hide RunOk, LedgerOk, ProtocolOk, Core, MetaRowsOk;
    TypedMeta(d, n.db);
    CoreLookup(d, n.db);
    assert Get(d, Meta, Field(SchemaVersion)) == Get(n.db, Meta, Field(SchemaVersion));
  }

  /** What the service does to the node is one event of the machine in Operations, or nothing. */
  ghost predicate Explained(cfg: Config, n: Node, n': Node) {
    n' == n || exists event: Event :: Operations.Next(cfg, n, event) == Some(n')
  }

  /** The same, by an event that is no transaction. */
  ghost predicate QuietlyExplained(cfg: Config, n: Node, n': Node) {
    n' == n || exists event: Event :: !event.Transact? && Operations.Next(cfg, n, event) == Some(n')
  }

  lemma ExplainedKeeps(cfg: Config, n: Node, n': Node)
    requires NodeInv(cfg, n) && Explained(cfg, n, n')
    ensures NodeInv(cfg, n') && Later(n', n)
  {
    hide NodeInv, Operations.Next, Promises;
    if n' != n {
      var event: Event :| Operations.Next(cfg, n, event) == Some(n');
      EventKeeps(cfg, n, event);
    } else {
      LaterSelf(n);
    }
  }

  lemma LaterSelf(n: Node)
    ensures Later(n, n)
  {}

  // ---- storage steps ------------------------------------------------------------------------------------

  /** Steps that leave the live file and the acknowledged state alone. */
  predicate Quiet(step: Step) {
    !step.Commit? && !step.ResetJournal? && !step.StartSession? && !step.DropSession? && !step.SwapDurable?
    && !step.SwapAmbiguous? && !step.Open?
  }

  predicate Rewrites(step: Step) { step.ReplayBatch? || step.Gate? }

  lemma RewriteLive(s: System, step: Step, s': System)
    requires Safety.Inv(s) && s.proc.Some? && Rewrites(step) && Compaction.Next(s, step) == Some(s')
    ensures s'.acked == s.acked && s'.proc.Some? && LiveDb(s') == LiveDb(s)
  {
    hide Safety.CutsGood, Safety.CutsSelect, Safety.SparesManifest, Safety.HealthyDb, Core, Safety.Tracking, Replayed,
         HasEntries, ReplayAccepts;
    var p := s.proc.value;
    assert p.run.HasCandidate() && p.run.candidate != p.liveId;
  }

  predicate Adds(step: Step) {
    step.StrayTemporary? || step.Bootstrap? || step.CopyCandidate? || step.Publish? || step.Reclaim?
  }

  lemma AddLive(s: System, step: Step, s': System)
    requires s.proc.Some? && Directories.IsDb(s.disk.files, s.proc.value.liveId) && Adds(step) && Compaction.Next(s, step) == Some(s')
    ensures s'.acked == s.acked && s'.proc.Some? && LiveDb(s') == LiveDb(s)
  {}

  lemma LiveIsDb(s: System)
    requires Safety.Inv(s) && s.proc.Some?
    ensures Directories.IsDb(s.disk.files, s.proc.value.liveId)
  {
    hide Safety.CutsGood, Safety.SparesManifest, Safety.RunInv, Safety.HealthyDb;
  }

  lemma QuietLive(s: System, step: Step, s': System)
    requires Safety.Inv(s) && s.proc.Some? && Quiet(step) && Compaction.Next(s, step) == Some(s')
    ensures s'.acked == s.acked && (s'.proc.Some? ==> LiveDb(s') == LiveDb(s))
  {
    hide Safety.Inv, Committed, Directories.Visible;
    if Rewrites(step) {
      RewriteLive(s, step, s');
    } else if Adds(step) {
      LiveIsDb(s);
      AddLive(s, step, s');
    }
  }

  /** A compaction starts only at version 2. */
  lemma RunNeedsV2(s: System, step: Step, s': System)
    requires s.proc.Some? && Compaction.Next(s, step) == Some(s') && !step.Commit?
    requires s'.proc.Some? && !s'.proc.value.run.Idle?
    ensures !s.proc.value.run.Idle? || HasVersion(LiveDb(s), V2)
  {}

  lemma StorageInv(s: System, step: Step, s': System)
    requires Safety.Inv(s) && Compaction.Next(s, step) == Some(s')
    ensures Safety.Inv(s') && (s'.proc.Some? ==> Safety.HealthyDb(LiveDb(s')) && Core(LiveDb(s')) == Core(s'.acked))
  {
    Steps.StepKeeps(s, step);
  }

  lemma QuietExplained(cfg: Config, w: Whole, step: Step, s': System)
    requires WholeInv(cfg, w) && w.sys.proc.Some? && Quiet(step) && Compaction.Next(w.sys, step) == Some(s')
    ensures AfterStorage(w, s') == w.node && s'.acked == w.sys.acked && (s'.proc.Some? ==> LiveDb(s') == w.node.db)
  {
    hide Safety.Inv, NodeInv, Compaction.Next;
    QuietLive(w.sys, step, s');
  }

  lemma ExchangedSession(s: System, step: Step, s': System)
    requires Safety.Inv(s) && s.proc.Some? && Compaction.Next(s, step) == Some(s')
    requires step.ResetJournal? || step.SwapDurable? || step.SwapAmbiguous?
    ensures s'.acked == s.acked && s'.proc.Some?
    ensures HasVersion(LiveDb(s), V2) || !s.proc.value.run.Idle?
  {}

  /** A reset of the journal and a swap install a file with the contents of the live one. */
  lemma ExchangeExplained(cfg: Config, w: Whole, step: Step, s': System)
    requires WholeInv(cfg, w) && w.sys.proc.Some? && Compaction.Next(w.sys, step) == Some(s')
    requires step.ResetJournal? || step.SwapDurable? || step.SwapAmbiguous?
    ensures s'.proc.Some? && Operations.Next(cfg, w.node, Cutover(LiveDb(s'))) == Some(AfterStorage(w, s'))
  {
    hide Safety.Inv, NodeInv, Compaction.Next, Installable, Core, Safety.HealthyDb;
    StorageInv(w.sys, step, s');
    ExchangedSession(w.sys, step, s');
    TakesPlace(cfg, w.node, LiveDb(s'));
  }

  // ---- sessions and reopening ------------------------------------------------------------------------------

  lemma StartFacts(s: System, s': System)
    requires Safety.Inv(s) && s.proc.Some? && Compaction.NextStart(s) == Some(s')
    ensures s'.proc.Some? && !s.proc.value.run.Idle? && MutationJournal in LiveDb(s) && Rows(LiveDb(s), MutationJournal) == map[]
    ensures (LiveDb(s') == LiveDb(s) && s'.acked == s.acked) ||
            (!HasSession(LiveDb(s)) && s'.acked == LiveDb(s')
             && LiveDb(s') == Committed(LiveDb(s), StartWrites(s.proc.value.run.generation), false))
  {}

  lemma StartExplained(cfg: Config, w: Whole, s': System)
    requires WholeInv(cfg, w) && w.sys.proc.Some? && Compaction.NextStart(w.sys) == Some(s')
    ensures s'.proc.Some? && QuietlyExplained(cfg, w.node, AfterStorage(w, s'))
  {
    hide Safety.Inv, NodeInv, Compaction.NextStart, Committed, StartWrites;
    StartFacts(w.sys, s');
    if LiveDb(s') != LiveDb(w.sys) {
      var event := Event.StartSession(w.sys.proc.value.run.generation);
      assert Operations.Next(cfg, w.node, event) == Some(AfterStorage(w, s'));
    }
  }

  lemma DropFacts(s: System, s': System)
    requires Safety.Inv(s) && s.proc.Some? && Compaction.NextDrop(s) == Some(s')
    ensures s'.proc.Some? && s'.proc.value.run == s.proc.value.run
    ensures s'.acked == LiveDb(s') && LiveDb(s') == Committed(LiveDb(s), DropWrites, false)
  {}

  lemma DropExplained(cfg: Config, w: Whole, s': System)
    requires WholeInv(cfg, w) && w.sys.proc.Some? && Compaction.NextDrop(w.sys) == Some(s')
    ensures s'.proc.Some? && Operations.Next(cfg, w.node, Event.DropSession) == Some(AfterStorage(w, s'))
  {
    hide Safety.Inv, NodeInv, Compaction.NextDrop, Committed, DropWrites;
    DropFacts(w.sys, s');
  }

  lemma OpenFacts(s: System, s': System) returns (found: Database)
    requires Safety.Inv(s) && s.proc.None? && Compaction.NextOpen(s) == Some(s')
    ensures s'.proc.Some? && s'.proc.value.run.Idle? && Core(found) == Core(s.acked) && Safety.HealthyDb(found)
    ensures s'.acked == LiveDb(s') && LiveDb(s') == Reopened(found)
  {
    var d := Directories.Visible(s.disk);
    assert Safety.Good(d, s.disk.files, s.acked);
    found := DbAt(s, Directories.SelectedIn(d, s.disk.files).value);
  }

  /** Whatever the crash left, the reopened service starts from a file with the contents of
      the last acknowledged database: it is a restart of the machine. */
  lemma OpenExplained(cfg: Config, w: Whole, s': System) returns (found: Database)
    requires WholeInv(cfg, w) && w.sys.proc.None? && Compaction.NextOpen(w.sys) == Some(s')
    ensures s'.proc.Some? && Operations.Next(cfg, w.node, Restart(found)) == Some(AfterStorage(w, s'))
  {
    hide Safety.Inv, NodeInv, Compaction.NextOpen, Core, Reopened, Views, LiveDb, StorageChange, MetaRowsOk;
    found := OpenFacts(w.sys, s');
    NodeMeta(cfg, w.node);
    TypedMeta(found, w.node.db);
    RestartSame(found, w.node.db);
  }

  lemma NodeMeta(cfg: Config, n: Node)
    requires NodeInv(cfg, n)
    ensures MetaRowsOk(Rows(n.db, Meta)) && Meta in n.db
  {}

  lemma DownFacts(s: System, step: Step, s': System)
    requires s.proc.None? && Compaction.Next(s, step) == Some(s') && !step.Open?
    ensures s'.proc.None? && s'.acked == s.acked
  {}

  /** Every storage step is one event for the node, or none. */
  lemma StorageExplained(cfg: Config, w: Whole, step: Step, s': System)
    requires WholeInv(cfg, w) && Compaction.Next(w.sys, step) == Some(s') && !step.Commit?
    ensures QuietlyExplained(cfg, w.node, AfterStorage(w, s'))
  {
    hide WholeInv, Operations.Next, NextStart, NextDrop, NextOpen;
    if w.sys.proc.None? {
      if step.Open? {
        var found := OpenExplained(cfg, w, s');
      } else {
        DownFacts(w.sys, step, s');
      }
    } else if step.StartSession? {
      StartExplained(cfg, w, s');
    } else if step.DropSession? {
      DropExplained(cfg, w, s');
    } else if step.ResetJournal? || step.SwapDurable? || step.SwapAmbiguous? {
      ExchangeExplained(cfg, w, step, s');
    } else if !step.Open? {
      QuietExplained(cfg, w, step, s');
    }
  }

  lemma RunsAtV2(cfg: Config, w: Whole, step: Step, s': System)
    requires WholeInv(cfg, w) && Compaction.Next(w.sys, step) == Some(s') && !step.Commit?
    requires s'.proc.Some? && !s'.proc.value.run.Idle?
    ensures w.sys.proc.Some? && VersionOf(w.node.db) == V2
  {
    hide Safety.Inv, NodeInv, Core;
    OnlyRunning(w.sys, step, s');
    RunNeedsV2(w.sys, step, s');
  }

  lemma OnlyRunning(s: System, step: Step, s': System)
    requires Compaction.Next(s, step) == Some(s') && s'.proc.Some? && !s'.proc.value.run.Idle?
    ensures s.proc.Some?
  {}

  lemma VersionKept(n': Node, n: Node)
    requires Later(n', n) && VersionOf(n.db) == V2
    ensures VersionOf(n'.db) == V2
  {}

  lemma StorageStepKeeps(cfg: Config, w: Whole, step: Step, s': System)
    requires WholeInv(cfg, w) && Compaction.Next(w.sys, step) == Some(s') && !step.Commit?
    ensures WholeInv(cfg, Whole(s', AfterStorage(w, s')))
  {
    hide Safety.Inv, NodeInv, Operations.Next, Core, Compaction.Next, LiveDb, Safety.HealthyDb;
    StorageExplained(cfg, w, step, s');
    ExplainedKeeps(cfg, w.node, AfterStorage(w, s'));
    StorageInv(w.sys, step, s');
    if s'.proc.None? { AckedStays(w.sys, step, s'); }
    if s'.proc.Some? && !s'.proc.value.run.Idle? {
      RunsAtV2(cfg, w, step, s');
      VersionKept(AfterStorage(w, s'), w.node);
    }
  }

  lemma AckedStays(s: System, step: Step, s': System)
    requires Compaction.Next(s, step) == Some(s') && s'.proc.None? && !step.Commit?
    ensures s'.acked == s.acked
  {}

  // ---- domain transactions ------------------------------------------------------------------------------------

  lemma CommitFacts(s: System, ws: seq<Mutation>, overflow: bool, s': System)
    requires Safety.Inv(s) && s.proc.Some? && Compaction.Next(s, Commit(ws, overflow)) == Some(s')
    ensures s'.proc == s.proc && s'.acked == LiveDb(s') == Committed(LiveDb(s), ws, overflow)
    ensures !GenerationExhausted(LiveDb(s), ws)
  {}

  /** Every write-set an operation decides on is one the storage accepts, unless the inbox
      has failed, the gate is held or the generation is used up. */
  lemma DomainCommits(cfg: Config, w: Whole, op: Op, ws: seq<Mutation>, overflow: bool)
    requires WholeInv(cfg, w) && w.sys.proc.Some? && op.Timed() && Decide(cfg, w.node, op) == Write(ws) && ws != []
    ensures Compaction.Next(w.sys, Commit(ws, overflow)).Some? <==>
              var p := w.sys.proc.value; !p.failed && !p.run.HoldsGate() && !GenerationExhausted(w.node.db, ws)
  {
    TransactKept(cfg, w.node, op, ws, overflow);
  }

  lemma DomainKeeps(cfg: Config, w: Whole, op: Op, ws: seq<Mutation>, overflow: bool, s': System)
    requires WholeInv(cfg, w) && w.sys.proc.Some? && op.Timed() && Decide(cfg, w.node, op) == Write(ws)
    requires Compaction.Next(w.sys, Commit(ws, overflow)) == Some(s')
    ensures WholeInv(cfg, Whole(s', Transacted(cfg, w.node, op, overflow)))
  {
    hide Safety.Inv, NodeInv, Core, Compaction.Next, LiveDb, Decide, Promises, Safety.HealthyDb;
    StorageInv(w.sys, Commit(ws, overflow), s');
    CommitFacts(w.sys, ws, overflow, s');
    TransactKeeps(cfg, w.node, op, overflow);
    if VersionOf(w.node.db) == V2 { VersionKept(Transacted(cfg, w.node, op, overflow), w.node); }
  }

  /** A transaction that writes nothing. */
  lemma EmptyKeeps(cfg: Config, w: Whole, op: Op, overflow: bool)
    requires WholeInv(cfg, w) && op.Timed() && Decide(cfg, w.node, op) == Write([])
    ensures WholeInv(cfg, w.(node := Transacted(cfg, w.node, op, overflow)))
  {
    hide Safety.Inv, NodeInv, Core, LiveDb, Decide;
    TransactKeeps(cfg, w.node, op, overflow);
    assert Committed(w.node.db, [], overflow) == w.node.db;
  }

  lemma LocalSame(cfg: Config, n: Node, event: Event)
    requires IsLocal(event) && Operations.Next(cfg, n, event).Some?
    ensures Operations.Next(cfg, n, event).value.db == n.db
  {}

  lemma LocalKeeps(cfg: Config, w: Whole, event: Event)
    requires WholeInv(cfg, w) && IsLocal(event) && Operations.Next(cfg, w.node, event).Some?
    ensures WholeInv(cfg, w.(node := Operations.Next(cfg, w.node, event).value))
  {
    hide NodeInv, Operations.Next, Safety.Inv, Core, LiveDb;
    LocalSame(cfg, w.node, event);
    EventKeeps(cfg, w.node, event);
  }

  /** Every action of the whole service, crashes and reopens included, keeps the invariant. */
  lemma ActionKeeps(cfg: Config, w: Whole, action: Action, w': Whole)
    requires WholeInv(cfg, w) && NextWhole(cfg, w, action) == Some(w')
    ensures WholeInv(cfg, w')
  {
    hide WholeInv, AfterStorage, Transacted, Decide, Compaction.Next, Operations.Next;
    match action
    case Domain(op, overflow) =>
      if Decide(cfg, w.node, op).Write? {
        var ws := Decide(cfg, w.node, op).writes;
        if ws == [] { EmptyKeeps(cfg, w, op, overflow); } else { DomainKeeps(cfg, w, op, ws, overflow, w'.sys); }
      }
    case Local(event) => LocalKeeps(cfg, w, event);
    case Storage(step) => StorageStepKeeps(cfg, w, step, w'.sys);
  }

  /** To the node, every action of the service is one event or none. */
  lemma ActionExplained(cfg: Config, w: Whole, action: Action, w': Whole)
    requires WholeInv(cfg, w) && NextWhole(cfg, w, action) == Some(w')
    ensures Explained(cfg, w.node, w'.node)
    ensures action.Domain? ==>
              w'.node == w.node || Operations.Next(cfg, w.node, Transact(action.op, action.overflow)) == Some(w'.node)
    ensures !action.Domain? ==> QuietlyExplained(cfg, w.node, w'.node)
  {
    hide WholeInv, AfterStorage, Transacted, Decide, Compaction.Next;
    match action
    case Domain(op, overflow) =>
      assert w'.node == w.node || Operations.Next(cfg, w.node, Transact(op, overflow)) == Some(w'.node);
    case Local(event) => assert Operations.Next(cfg, w.node, event) == Some(w'.node);
    case Storage(step) => StorageExplained(cfg, w, step, w'.sys);
  }

  // ---- whole runs -----------------------------------------------------------------------------------------------

  predicate FreshWhole(cfg: Config, w: Whole) {
    Safety.Fresh(w.sys) && FreshStore(cfg, w.node) && w.node.db == w.sys.acked
  }

  lemma FreshKeeps(cfg: Config, w: Whole)
    requires FreshWhole(cfg, w)
    ensures WholeInv(cfg, w)
  {
    hide Safety.Fresh, Safety.Inv, FreshStore, NodeInv, Core;
    FreshDown(w.sys);
    Safety.FreshInv(w.sys);
    FreshNode(cfg, w.node);
  }

  lemma FreshDown(s: System)
    requires Safety.Fresh(s)
    ensures s.proc.None?
  {}

  ghost predicate ActionAt(cfg: Config, states: seq<Whole>, actions: seq<Action>, i: nat)
    requires |states| == |actions| + 1 && i < |actions|
  {
    NextWhole(cfg, states[i], actions[i]) == Some(states[i + 1])
  }

  ghost predicate IsService(cfg: Config, states: seq<Whole>, actions: seq<Action>) {
    && |states| == |actions| + 1 && FreshWhole(cfg, states[0])
    && forall i :: 0 <= i < |actions| ==> ActionAt(cfg, states, actions, i)
  }

  lemma ServiceStep(cfg: Config, states: seq<Whole>, actions: seq<Action>, i: nat, j: nat)
    requires |states| == |actions| + 1 && i < |actions| && j == i + 1
    requires ActionAt(cfg, states, actions, i) && WholeInv(cfg, states[i])
    ensures WholeInv(cfg, states[j]) && Explained(cfg, states[i].node, states[j].node)
  {
    hide WholeInv, NextWhole, Explained;
    ActionKeeps(cfg, states[i], actions[i], states[j]);
    ActionExplained(cfg, states[i], actions[i], states[j]);
  }

  lemma ServiceKeeps(cfg: Config, states: seq<Whole>, actions: seq<Action>, i: nat)
    requires IsService(cfg, states, actions) && i < |states|
    ensures WholeInv(cfg, states[i])
  {
    hide WholeInv, FreshWhole, NextWhole;
    FreshKeeps(cfg, states[0]);
    forall j | 0 < j < |states| && WholeInv(cfg, states[j - 1]) ensures WholeInv(cfg, states[j]) {
      ServiceStep(cfg, states, actions, j - 1, j);
    }
    Invariance((w: Whole) => WholeInv(cfg, w), states, i);
  }

  // ---- a run of the service is a history ---------------------------------------------------------------------

  /** Each state of the service shows the node of one state of the history, in order; states
      in which nothing happened to the node share one. */
  ghost predicate Follows(states: seq<Whole>, history: seq<Node>, at: seq<nat>) {
    && |at| == |states|
    && (forall i :: 0 <= i < |at| ==> at[i] < |history| && history[at[i]] == states[i].node)
    && (forall i, j :: 0 <= i <= j < |at| ==> at[i] <= at[j])
  }

  /** One more state of the service: one more state of the history, or the same. */
  lemma FollowsOneMore(cfg: Config, states: seq<Whole>, history: seq<Node>, events: seq<Event>, at: seq<nat>, w': Whole)
    returns (history': seq<Node>, events': seq<Event>, at': seq<nat>)
    requires states != [] && IsHistory(cfg, history, events) && Follows(states, history, at)
    requires at[|at| - 1] == |history| - 1 && Explained(cfg, states[|states| - 1].node, w'.node)
    ensures IsHistory(cfg, history', events') && Follows(states + [w'], history', at')
    ensures at'[|at'| - 1] == |history'| - 1
  {
    hide Operations.Next, FreshStore;
    var n := states[|states| - 1].node;
    if w'.node == n {
      history', events', at' := history, events, at + [at[|at| - 1]];
    } else {
      var event: Event :| Operations.Next(cfg, n, event) == Some(w'.node);
      history', events', at' := history + [w'.node], events + [event], at + [|history|];
      HistoryGrows(cfg, history, events, event, w'.node);
    }
  }

  lemma HistoryGrows(cfg: Config, history: seq<Node>, events: seq<Event>, event: Event, n: Node)
    requires IsHistory(cfg, history, events) && Operations.Next(cfg, history[|history| - 1], event) == Some(n)
    ensures IsHistory(cfg, history + [n], events + [event])
  {
    hide Operations.Next, FreshStore;
    forall i | 0 <= i < |events| + 1 ensures StepAt(cfg, history + [n], events + [event], i) {
      if i < |events| { assert StepAt(cfg, history, events, i); }
    }
  }

  lemma {:induction false} FollowsPrefix(cfg: Config, states: seq<Whole>, actions: seq<Action>, k: nat)
    returns (history: seq<Node>, events: seq<Event>, at: seq<nat>)
    requires IsService(cfg, states, actions) && k < |states|
    ensures IsHistory(cfg, history, events) && Follows(states[..k + 1], history, at) && at[k] == |history| - 1
  {
    hide WholeInv, NextWhole, Explained, FreshStore, Safety.Fresh;
    if k == 0 {
      history, events, at := [states[0].node], [], [0];
    } else {
      history, events, at := FollowsPrefix(cfg, states, actions, k - 1);
      ServiceKeeps(cfg, states, actions, k - 1);
      ServiceStep(cfg, states, actions, k - 1, k);
      assert states[..k + 1] == states[..k] + [states[k]];
      history, events, at := FollowsOneMore(cfg, states[..k], history, events, at, states[k]);
    }
  }

  /** Every run of the whole service, with its real compactor, crashes and reopens, is a
      history of the domain machine: what holds of every history holds of the service. */
  lemma ServiceIsHistory(cfg: Config, states: seq<Whole>, actions: seq<Action>)
    returns (history: seq<Node>, events: seq<Event>, at: seq<nat>)
    requires IsService(cfg, states, actions)
    ensures IsHistory(cfg, history, events) && Follows(states, history, at)
  {
    history, events, at := FollowsPrefix(cfg, states, actions, |actions|);
    assert states[..|actions| + 1] == states;
  }

  /** Nothing accepted is lost and no promise is taken back, through any interleaving of
      operations, compactions, failures, crashes and reopens. */
  lemma NothingLost(cfg: Config, states: seq<Whole>, actions: seq<Action>, i: nat, j: nat)
    requires IsService(cfg, states, actions) && i <= j < |states|
    ensures Later(states[j].node, states[i].node)
  {
    hide IsService, IsHistory, Later;
    var history, events, at := ServiceIsHistory(cfg, states, actions);
    NothingTakenBack(cfg, history, events, at[i], at[j]);
  }

  /** Whenever the inbox is up, the open file carries every view of the whole accept log. */
  lemma ServedLog(cfg: Config, states: seq<Whole>, actions: seq<Action>, i: nat)
    requires IsService(cfg, states, actions) && i < |states| && states[i].sys.proc.Some?
    ensures Invariant.Inv(cfg, LiveDb(states[i].sys), states[i].node.log)
  {
    hide Safety.Inv, Views, IsService;
    ServiceKeeps(cfg, states, actions, i);
  }

  /** The first answer to an id stands across the compactor, crashes and reopens. */
  lemma ServedAnswer(cfg: Config, states: seq<Whole>, actions: seq<Action>, i: nat, j: nat, k: nat, e: LogEvent, now: nat)
    requires IsService(cfg, states, actions) && i <= j < |states| && k < |states[i].node.log|
    requires e.id == states[i].node.log[k].event.id
    ensures InsertOutcome(states[j].node.db, e, now) ==
            Refuse(if !Acceptable(e) then InvalidEvent
                   else if ContentOf(e) == states[i].node.log[k].content then DuplicateEvent else BillingConflict)
  {
    hide IsService, IsHistory, InsertOutcome, Acceptable, Transacted;
    var history, events, at := ServiceIsHistory(cfg, states, actions);
    FirstAnswerStands(cfg, history, events, at[i], at[j], k, e, now, false);
  }

  ghost predicate DatedBefore(states: seq<Whole>, actions: seq<Action>, i: nat, k: nat, t: nat)
    requires |states| == |actions| + 1 && i < |states|
  {
    exists j :: 0 <= j < i && actions[j].Domain?
      && Clocks(states[j].node, Transact(actions[j].op, actions[j].overflow), states[j + 1].node, k, t)
  }

  lemma QuietClocks(cfg: Config, n: Node, n': Node)
    requires NodeInv(cfg, n) && QuietlyExplained(cfg, n, n')
    ensures SameClocks(n'.db, n.db)
  {
    hide NodeInv, Operations.Next, ClocksKept, ReceiptTime;
    if n' != n {
      var event: Event :| !event.Transact? && Operations.Next(cfg, n, event) == Some(n');
      EventClocks(cfg, n, event, n');
      QuietSame(cfg, n, event, n');
    }
  }

  lemma QuietSame(cfg: Config, n: Node, event: Event, n': Node)
    requires ClocksKept(n, event, n') && !event.Transact?
    ensures SameClocks(n'.db, n.db)
  {
    hide ReceiptTime;
    forall k: nat ensures ReceiptTime(n'.db, k) == ReceiptTime(n.db, k) {
      if ReceiptTime(n'.db, k).Some? { assert ReceiptTime(n.db, k) == Some(ReceiptTime(n'.db, k).value); }
      if ReceiptTime(n.db, k).Some? { assert ReceiptTime(n'.db, k) == Some(ReceiptTime(n.db, k).value); }
    }
  }

  /** One action of the service, on one receipt time. */
  lemma ActionClocks(cfg: Config, w: Whole, action: Action, w': Whole, k: nat, t: nat)
    requires WholeInv(cfg, w) && NextWhole(cfg, w, action) == Some(w')
    ensures ReceiptTime(w'.node.db, k) == Some(t) <==>
              ReceiptTime(w.node.db, k) == Some(t)
              || (action.Domain? && Clocks(w.node, Transact(action.op, action.overflow), w'.node, k, t))
  {
    hide WholeInv, NextWhole, Operations.Next, ReceiptTime, Clocks, NodeInv, QuietlyExplained, Explained;
    ActionExplained(cfg, w, action, w');
    WholeNode(cfg, w);
    if !action.Domain? {
      QuietClocks(cfg, w.node, w'.node);
    } else if w'.node == w.node {
      NotClocked(cfg, w.node, Transact(action.op, action.overflow), k, t);
    } else {
      EventClocks(cfg, w.node, Transact(action.op, action.overflow), w'.node);
    }
  }

  lemma NotClocked(cfg: Config, n: Node, event: Event, k: nat, t: nat)
    ensures !Clocks(n, event, n, k, t)
  {}

  /** In the running service, too, a receipt time is the clock of the insert that accepted the
      record or of the call that ended its migration; no compaction or crash makes one. */
  lemma {:induction false} ServedOrigin(cfg: Config, states: seq<Whole>, actions: seq<Action>, i: nat, k: nat, t: nat)
    requires IsService(cfg, states, actions) && i < |states|
    ensures ReceiptTime(states[i].node.db, k) == Some(t) <==> DatedBefore(states, actions, i, k, t)
    decreases i
  {
    hide WholeInv, NextWhole, ReceiptTime, Clocks, FreshStore, Safety.Fresh;
    if i == 0 {
      FreshTimes(cfg, states[0].node, k);
    } else {
      ServedOrigin(cfg, states, actions, i - 1, k, t);
      ServiceKeeps(cfg, states, actions, i - 1);
      assert ActionAt(cfg, states, actions, i - 1);
      ActionClocks(cfg, states[i - 1], actions[i - 1], states[i], k, t);
    }
  }

  /** No compaction, crash or reopen deletes a body: only a justified apply does, and the clock
      that dated the record lies at least the retention period before it. */
  lemma ServedDeletion(cfg: Config, states: seq<Whole>, actions: seq<Action>, i: nat, k: nat)
    requires IsService(cfg, states, actions) && i < |actions|
    requires HotAt(states[i].node, k) && !HotAt(states[i + 1].node, k)
    ensures actions[i].Domain? && Justified(cfg, states[i].node, Transact(actions[i].op, actions[i].overflow), k)
    ensures exists t: nat :: DatedBefore(states, actions, i, k, t) && t + cfg.retention <= actions[i].op.now
  {
    hide WholeInv, NextWhole, Justified, Operations.Next, HotAt, NodeInv, FreshWhole, Explained, QuietlyExplained, DatedBefore, ReceiptTime;
    ServiceKeeps(cfg, states, actions, i);
    assert ActionAt(cfg, states, actions, i);
    ActionExplained(cfg, states[i], actions[i], states[i + 1]);
    WholeNode(cfg, states[i]);
    if actions[i].Domain? {
      ExplainedDeletion(cfg, states[i].node, Transact(actions[i].op, actions[i].overflow), states[i + 1].node, k);
      JustifiedAge(cfg, states[i].node, Transact(actions[i].op, actions[i].overflow), k);
      ServedOrigin(cfg, states, actions, i, k, ReceiptTime(states[i].node.db, k).value);
    } else {
      QuietKeepsHot(cfg, states[i].node, states[i + 1].node, k);
    }
  }

  lemma JustifiedAge(cfg: Config, n: Node, event: Event, k: nat)
    requires Justified(cfg, n, event, k)
    ensures ReceiptTime(n.db, k).Some? && ReceiptTime(n.db, k).value + cfg.retention <= event.op.now
  {
    hide ReceiptTime;
  }

  /** The `k`-th page was served from the open file of a running process. */
  ghost predicate PolledAt(states: seq<Whole>, at: seq<nat>, limits: seq<nat>, pages: seq<Paging.Page>, k: nat)
    requires k < |pages| == |at| == |limits|
  {
    && at[k] < |states| && (k > 0 ==> at[k - 1] <= at[k]) && states[at[k]].sys.proc.Some?
    && Paging.PageOutcome(LiveDb(states[at[k]].sys), Paging.TextBefore(pages, k), limits[k]) == Ok(pages[k])
  }

  ghost predicate IsPolling(states: seq<Whole>, at: seq<nat>, limits: seq<nat>, pages: seq<Paging.Page>) {
    |pages| == |at| == |limits| && forall k :: 0 <= k < |pages| ==> PolledAt(states, at, limits, pages, k)
  }

  /** Pages read from the service, with compactions, crashes and reopens in between, add up to
      exactly the first records of the accept log. */
  lemma ServedPages(cfg: Config, states: seq<Whole>, actions: seq<Action>, at: seq<nat>, limits: seq<nat>,
                    pages: seq<Paging.Page>, k: nat)
    requires IsService(cfg, states, actions) && IsPolling(states, at, limits, pages) && k < |pages|
    ensures at[k] < |states| && pages[k].next.after <= |states[at[k]].node.log|
    ensures Paging.Flatten(pages[..k + 1]) == states[at[k]].node.log[..pages[k].next.after]
  {
    hide IsService, IsHistory, Paging.PageOutcome, PolledAt;
    var history, events, shown := ServiceIsHistory(cfg, states, actions);
    forall i | 0 <= i < |pages| ensures at[i] < |states| && PolledAt(states, at, limits, pages, i) { PollReads(states, at, limits, pages, i); }
    var where := seq(|at|, i requires 0 <= i < |at| => shown[at[i]]);
    forall i | 0 <= i < |pages| ensures Paging.ServedAt(history, where, limits, pages, i) {
      PollServed(cfg, states, actions, at, limits, pages, i);
    }
    Paging.PagesAddUp(cfg, history, events, where, limits, pages, k);
  }

  lemma PollReads(states: seq<Whole>, at: seq<nat>, limits: seq<nat>, pages: seq<Paging.Page>, k: nat)
    requires |pages| == |at| == |limits| && k < |pages| && PolledAt(states, at, limits, pages, k)
    ensures at[k] < |states| && (k > 0 ==> at[k - 1] <= at[k])
  {}

  lemma PollServed(cfg: Config, states: seq<Whole>, actions: seq<Action>, at: seq<nat>, limits: seq<nat>,
                   pages: seq<Paging.Page>, k: nat)
    requires IsService(cfg, states, actions) && |pages| == |at| == |limits| && k < |pages| && PolledAt(states, at, limits, pages, k)
    ensures at[k] < |states| && (k > 0 ==> at[k - 1] <= at[k])
    ensures Paging.PageOutcome(states[at[k]].node.db, Paging.TextBefore(pages, k), limits[k]) == Ok(pages[k])
  {
    hide IsService, NodeInv, Safety.Inv, Paging.PageOutcome, Core;
    ServiceKeeps(cfg, states, actions, at[k]);
  }

  lemma QuietKeepsHot(cfg: Config, n: Node, n': Node, k: nat)
    requires NodeInv(cfg, n) && QuietlyExplained(cfg, n, n') && HotAt(n, k)
    ensures HotAt(n', k)
  {
    hide NodeInv, Operations.Next, HotAt, Promises;
    if n' != n {
      var event: Event :| !event.Transact? && Operations.Next(cfg, n, event) == Some(n');
      EventKeeps(cfg, n, event);
      if Floor(n'.db) != Floor(n.db) { FloorMoves(cfg, n, event); }
      HotMeans(cfg, n, k);
      HotMeans(cfg, n', k);
    }
  }

  lemma ExplainedDeletion(cfg: Config, n: Node, event: Event, n': Node, k: nat)
    requires NodeInv(cfg, n) && Operations.Next(cfg, n, event) == Some(n') && HotAt(n, k) && !HotAt(n', k)
    ensures Justified(cfg, n, event, k)
  {
    hide NodeInv, Operations.Next, HotAt, Promises, Justified;
    EventKeeps(cfg, n, event);
    HotMeans(cfg, n, k);
    HotMeans(cfg, n', k);
    EventJustified(cfg, n, event, n', k);
  }

  lemma WholeNode(cfg: Config, w: Whole)
    requires WholeInv(cfg, w)
    ensures NodeInv(cfg, w.node)
  {
    hide NodeInv, Safety.Inv;
  }
}
