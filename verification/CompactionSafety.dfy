/** What every run of the compaction protocol keeps, at every crash point. */
module CompactionSafety {
  import opened Types
  import opened Store
  import opened Gateway
  import opened Directories
  import opened Replay
  import opened Compaction

  predicate HealthyDb(db: Database) {
    Meta in db && (HasSession(db) ==> MutationJournal in db) && JournalBounded(db) && StorageTyped(db)
  }

  predicate StorageTyped(db: Database) {
    && (HasSession(db) ==> Rows(db, Meta)[Field(CompactionSession)].Text?)
    && (Field(StorageGeneration) in Rows(db, Meta) ==> Rows(db, Meta)[Field(StorageGeneration)].Text?)
  }

  /** A crash that leaves this directory loses nothing. */
  predicate Good(d: Directory, files: Files, acked: Database) {
    && Preserves(d, files, acked)
    && (var db := files[SelectedIn(d, files).value].db;
        && HealthyDb(db)
        && (ActiveManifest !in d ==> StorageGenerationOf(db) == None))
  }

  ghost predicate CutsGood(disk: Disk, acked: Database) {
    forall k :: 0 <= k <= |disk.pending| ==> Good(Cut(disk, k), disk.files, acked)
  }

  ghost predicate CutsSelect(disk: Disk, id: FileId) {
    forall k :: 0 <= k <= |disk.pending| ==> SelectedIn(Cut(disk, k), disk.files) == Some(id)
  }

  predicate SessionMine(live: Database, generation: string) {
    HasSession(live) ==> SessionOf(live, generation)
  }

  /** The candidate tracks the live file while the session lasts; once a replay has seen the
      session, its loss shows as a missing generation. */
  predicate Tracking(c: Database, low: nat, live: Database, checked: bool) {
    && low <= Generation(live)
    && JournalWithin(JournalOf(c), low)
    && (HasSession(live) ==> Tracks(c, low, live))
    && (checked && !HasSession(live) ==> HasGap(low, live))
  }

  predicate RunInv(run: Run, files: Files, live: Database, liveId: FileId, owner: string) {
    && (run.HasCandidate() ==> IsDb(files, run.candidate) && run.candidate != liveId)
    && (!run.Idle? && !run.JournalReset? ==> owner == StoreId(live))
    && match run
       case Idle => true
       case JournalReset(_) => JournalOf(live) == map[] && MutationJournal in live
       case Started(g) => SessionMine(live, g)
       case Snapshotted(g, c) => SessionMine(live, g) && Tracking(c, Generation(c), live, false)
       case Copying(g, id, low, checked) => SessionMine(live, g) && Tracking(files[id].db, low, live, checked)
       case Ready(g, id, low) => SessionMine(live, g) && Tracking(files[id].db, low, live, true)
       case Prepared(g, id, final) =>
         && Core(files[id].db) == Core(live) && HealthyDb(files[id].db)
         && StorageGenerationOf(files[id].db) == Some(g) && Generation(files[id].db) == final
       case Renamed(g, id) => Core(files[id].db) == Core(live)
       case Stranded(g, id) => Core(files[id].db) == Core(live)
  }

  predicate Named(d: Directory, name: FileName, id: FileId) { name in d && d[name] == id }

  /** The file that the visible manifest names. */
  function NamedId(p: Process): FileId { if p.run.Switched() then p.run.candidate else p.liveId }
  function NamedFile(p: Process): FileName { if p.run.Switched() then GenerationFile(p.run.generation) else p.live }

  ghost predicate ProcInv(s: System, p: Process) {
    && IsDb(s.disk.files, p.liveId)
    && HealthyDb(LiveDb(s.(proc := Some(p))))
    && Core(s.disk.files[p.liveId].db) == Core(s.acked)
    && RunInv(p.run, s.disk.files, s.disk.files[p.liveId].db, p.liveId, p.owner)
    && (!p.run.Switched() && (!p.failed || !p.run.Idle?) ==> CutsSelect(s.disk, p.liveId))
    && SelectedIn(Visible(s.disk), s.disk.files) == Some(NamedId(p))
    && TargetIn(Visible(s.disk), s.disk.files) == Some(NamedFile(p))
    && (p.run.Stranded? ==> p.failed)
    && (p.run.HasCandidate() ==> Named(Visible(s.disk), GenerationFile(p.run.generation), p.run.candidate))
    && (p.live.Anchor? || p.live.GenerationFile?)
    && forall r <- p.retired ::
         r.1 in s.disk.files && r.1 != p.liveId && (p.run.HasCandidate() ==> r.1 != p.run.candidate)
  }

  ghost predicate Inv(s: System) {
    && CutsGood(s.disk, s.acked)
    && (s.proc.Some? ==> ProcInv(s, s.proc.value))
    && SparesManifest(s.disk.pending)
    && (!s.exposed && ManifestDemanded(s.acked) ==> ActiveManifest in s.disk.durable)
  }

  /** A store that was just created or has just been opened without a manifest. */
  predicate Fresh(s: System) {
    && s.disk.durable == map[Anchor := 0] && s.disk.pending == []
    && s.disk.files == map[0 := DbFile(s.acked)]
    && HealthyDb(s.acked) && !ManifestDemanded(s.acked) && StorageGenerationOf(s.acked) == None
    && s.proc == None && !s.exposed
  }

  lemma FreshInv(s: System)
    requires Fresh(s)
    ensures Inv(s)
  {
    assert Cut(s.disk, 0) == s.disk.durable;
  }

  // ---- files that no directory selects ----------------------------------------------------------

  /** A new file, or new contents of a database file that is not selected, changes nothing
      for a directory. */
  lemma OtherFile(d: Directory, files: Files, acked: Database, id: FileId, c: Content)
    requires Good(d, files, acked) && SelectedIn(d, files) != Some(id)
    requires id !in files || (IsDb(files, id) && c.DbFile?)
    ensures Good(d, files[id := c], acked)
    ensures SelectedIn(d, files[id := c]) == SelectedIn(d, files)
    ensures TargetIn(d, files[id := c]) == TargetIn(d, files)
  {}

  lemma OtherFileCuts(disk: Disk, acked: Database, id: FileId, c: Content)
    requires CutsGood(disk, acked)
    requires id !in disk.files || (IsDb(disk.files, id) && c.DbFile?)
    requires forall k :: 0 <= k <= |disk.pending| ==> SelectedIn(Cut(disk, k), disk.files) != Some(id)
    ensures var disk' := disk.(files := disk.files[id := c]);
      && CutsGood(disk', acked)
      && forall k :: 0 <= k <= |disk.pending| ==>
           && Cut(disk', k) == Cut(disk, k)
           && SelectedIn(Cut(disk', k), disk'.files) == SelectedIn(Cut(disk, k), disk.files)
           && TargetIn(Cut(disk', k), disk'.files) == TargetIn(Cut(disk, k), disk.files)
  {
    var disk' := disk.(files := disk.files[id := c]);
    forall k | 0 <= k <= |disk.pending|
      ensures Cut(disk', k) == Cut(disk, k)
      ensures Good(Cut(disk', k), disk'.files, acked)
      ensures SelectedIn(Cut(disk', k), disk'.files) == SelectedIn(Cut(disk, k), disk.files)
      ensures TargetIn(Cut(disk', k), disk'.files) == TargetIn(Cut(disk, k), disk.files)
    {
      OtherFile(Cut(disk, k), disk.files, acked, id, c);
    }
  }

  /** Appending an operation that keeps the visible directory good keeps all cuts good. */
  lemma AppendGood(disk: Disk, acked: Database, op: DirOp)
    requires CutsGood(disk, acked)
    requires Good(Perform(Visible(disk), op), disk.files, acked)
    ensures CutsGood(Append(disk, op), acked)
    ensures forall id: FileId :: CutsSelect(disk, id) && SelectedIn(Perform(Visible(disk), op), disk.files) == Some(id)
              ==> CutsSelect(Append(disk, op), id)
  {
    AppendCuts(disk, op);
    var disk' := Append(disk, op);
    forall k | 0 <= k <= |disk'.pending| ensures Good(Cut(disk', k), disk'.files, acked) {
      if k <= |disk.pending| { assert Cut(disk', k) == Cut(disk, k); }
    }
    forall id: FileId, k | CutsSelect(disk, id) && SelectedIn(Perform(Visible(disk), op), disk.files) == Some(id)
                && 0 <= k <= |disk'.pending|
      ensures SelectedIn(Cut(disk', k), disk'.files) == Some(id)
    {
      if k <= |disk.pending| { assert Cut(disk', k) == Cut(disk, k); }
    }
  }

  lemma SyncGood(disk: Disk, acked: Database)
    requires CutsGood(disk, acked)
    ensures CutsGood(Synced(disk), acked)
    ensures forall id: FileId :: SelectedIn(Visible(disk), disk.files) == Some(id) ==> CutsSelect(Synced(disk), id)
    ensures Visible(Synced(disk)) == Visible(disk)
  {
    SyncedCuts(disk);
    assert Good(Visible(disk), disk.files, acked);
    assert forall k :: 0 <= k <= |Synced(disk).pending| ==> Cut(Synced(disk), k) == Visible(disk);
  }

  /** No pending operation unlinks the manifest or renames it away. */
  predicate SparesManifest(ops: seq<DirOp>) {
    forall i :: 0 <= i < |ops| ==>
      ops[i] != Unlink(ActiveManifest) && (ops[i].Rename? ==> ops[i].from != ActiveManifest)
  }

  lemma {:induction false} ManifestSurvives(d: Directory, ops: seq<DirOp>)
    requires ActiveManifest in d && SparesManifest(ops)
    ensures ActiveManifest in PerformAll(d, ops)
    decreases |ops|
  {
    if ops != [] { ManifestSurvives(d, ops[..|ops| - 1]); }
  }

  // ---- rewriting the live file -------------------------------------------------------------------

  /** The live database moves on; every cut still selects it and nothing is lost. */
  lemma LiveRewrite(disk: Disk, acked: Database, id: FileId, db: Database, acked': Database)
    requires CutsGood(disk, acked) && CutsSelect(disk, id) && IsDb(disk.files, id)
    requires var old_db := disk.files[id].db;
      && HealthyDb(db) && Core(db) == Core(acked') && StoreId(db) == StoreId(old_db)
      && Generation(db) >= Generation(old_db) && StorageGenerationOf(db) == StorageGenerationOf(old_db)
    ensures var disk' := disk.(files := disk.files[id := DbFile(db)]);
      && CutsGood(disk', acked') && CutsSelect(disk', id)
      && Visible(disk') == Visible(disk)
      && SelectedIn(Visible(disk'), disk'.files) == Some(id)
      && TargetIn(Visible(disk'), disk'.files) == TargetIn(Visible(disk), disk.files)
  {
    hide StoreId, Get, PerformAll, MetaNum;
    var disk' := disk.(files := disk.files[id := DbFile(db)]);
    forall k | 0 <= k <= |disk.pending|
      ensures Good(Cut(disk', k), disk'.files, acked')
      ensures SelectedIn(Cut(disk', k), disk'.files) == Some(id)
    {
      var d := Cut(disk, k);
      assert Cut(disk', k) == d;
      assert Good(d, disk.files, acked) && SelectedIn(d, disk.files) == Some(id);
      assert PointerIn(d, disk'.files) == PointerIn(d, disk.files);
    }
  }

  lemma DropEffect(db: Database)
    requires HealthyDb(db)
    ensures var d := Committed(db, DropWrites, false);
      && HealthyDb(d) && !HasSession(d) && JournalOf(d) == JournalOf(db) && d.Keys == db.Keys
      && StoreId(d) == StoreId(db) && StorageGenerationOf(d) == StorageGenerationOf(db)
      && ManifestDemanded(d) == ManifestDemanded(db)
      && Generation(d) == Generation(db) + 1
  {
    hide Committed, ApplyAll;
    DropRows(db);
  }

  lemma StartEffect(db: Database, generation: string)
    requires HealthyDb(db) && MutationJournal in db && JournalOf(db) == map[]
    ensures var d := Committed(db, StartWrites(generation), false);
      && HealthyDb(d) && SessionOf(d, generation) && d.Keys == db.Keys
      && StoreId(d) == StoreId(db) && StorageGenerationOf(d) == StorageGenerationOf(db)
      && Generation(d) == Generation(db) + 1 && ManifestDemanded(d)
  {
    hide Committed, ApplyAll;
    StartRows(db, generation);
  }

  // ---- tracking through commits, replays and the gate ----------------------------------------------

  lemma CommitKeepsTracking(c: Database, low: nat, live: Database, ws: seq<Mutation>, overflow: bool, checked: bool)
    requires Tracking(c, low, live, checked) && HealthyDb(live) && Committable(live, ws)
    ensures Tracking(c, low, Committed(live, ws, overflow), checked)
  {
    CommitEffect(live, ws, overflow);
    if HasSession(live) {
      if overflow { OverflowLeavesGap(low, live, ws); } else { CommitTracks(c, low, live, ws); }
    } else if checked {
      GapStays(low, live, ws, overflow);
    }
  }

  lemma {:induction false} ReplayKeepsJournal(c: Database, j: Journal, low: nat, high: nat)
    requires forall g :: low < g <= high ==> forall w <- EntryAt(j, g) :: Replayable(w)
    ensures JournalOf(Replayed(c, j, low, high)) == JournalOf(c)
    decreases high
  {
    if low < high {
      ReplayKeepsJournal(c, j, low, high - 1);
      ApplyKeepsJournal(Replayed(c, j, low, high - 1), EntryAt(j, high));
    }
  }

  lemma {:induction false} ApplyKeepsJournal(db: Database, ws: seq<Mutation>)
    requires forall w <- ws :: Replayable(w)
    ensures JournalOf(ApplyAll(db, ws)) == JournalOf(db)
    decreases |ws|
  {
    if ws != [] {
      var rest := ws[..|ws| - 1];
      assert forall w <- rest :: w in ws;
      assert Replayable(ws[|ws| - 1]);
      ApplyKeepsJournal(db, rest);
    }
  }

  lemma BatchKeepsTracking(c: Database, low: nat, high: nat, live: Database, checked: bool)
    requires Tracking(c, low, live, checked) && HasSession(live) && low <= high <= Generation(live)
    ensures Tracking(Replayed(c, JournalOf(live), low, high), high, live, true)
  {
    var j := JournalOf(live);
    ReplaySplits(c, j, low, high, Generation(live));
    ReplayKeepsJournal(c, j, low, high);
    assert forall g :: high < g <= Generation(live) ==> HasEntry(j, g);
  }

  /** At the gate, finding every generation means the session was never dropped, so the
      caught-up candidate equals the live database. */
  lemma GateAgrees(c: Database, low: nat, live: Database)
    requires Tracking(c, low, live, true) && HasEntries(JournalOf(live), low, Generation(live))
    ensures HasSession(live)
    ensures Core(Replayed(c, JournalOf(live), low, Generation(live))) == Core(live)
    ensures JournalWithin(JournalOf(Replayed(c, JournalOf(live), low, Generation(live))), Generation(live))
  {
    assert !HasGap(low, live);
    ReplayKeepsJournal(c, JournalOf(live), low, Generation(live));
  }

  lemma CutoverEffect(c: Database, live: Database, generation: string)
    requires HealthyDb(live) && Core(c) == Core(live) && JournalWithin(JournalOf(c), Generation(c))
    ensures var d := CutoverDb(c, generation);
      && HealthyDb(d) && Core(d) == Core(live) && StorageGenerationOf(d) == Some(generation)
      && Generation(d) == Generation(c) && StoreId(d) == StoreId(live)
  {
    CoreLookup(c, live);
    var d := CutoverDb(c, generation);
    assert Core(d).Keys == Core(c).Keys;
    assert forall n <- Core(c).Keys :: Core(d)[n] == Core(c)[n];
    CoreLookup(d, live);
  }
}
