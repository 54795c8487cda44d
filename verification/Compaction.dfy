/** Online generation compaction as a state machine: writers commit, the compactor copies,
    replays, gates, publishes and swaps, the machine crashes and reopens. Everything under
    the inbox lock or inside one bbolt transaction is one step. */
module Compaction {
  import opened Types
  import opened Store
  import opened Gateway
  import opened Directories
  import opened Replay

  const REPLAY_BATCH: nat := 256
  const GATE_LAG: nat := 32

  /** Where `CompactOnline` stands. In Prepared and Renamed it holds the inbox lock. It is
      Stranded when the renamed manifest could not be read back: the process has failed and
      keeps the old file open. */
  datatype Run =
    | Idle
    | JournalReset(generation: string)
    | Started(generation: string)
    | Snapshotted(generation: string, snapshot: Database)
    | Copying(generation: string, candidate: FileId, replayed: nat, checked: bool)
    | Ready(generation: string, candidate: FileId, replayed: nat)
    | Prepared(generation: string, candidate: FileId, final: nat)
    | Renamed(generation: string, candidate: FileId)
    | Stranded(generation: string, candidate: FileId)
  {
    predicate HoldsGate() { JournalReset? || Prepared? || Switched() }
    predicate HasCandidate() { Copying? || Ready? || Prepared? || Switched() }
    /** The visible manifest names the candidate, the open file is still the old one. */
    predicate Switched() { Renamed? || Stranded? }
  }

  /** A running inbox: the open file, the failure latch, the compactor and the old
      generations still to be reclaimed. */
  datatype Process = Process(
    live: FileName, liveId: FileId, failed: bool, owner: string, run: Run,
    retired: set<(FileName, FileId)>)

  /** `acked` is the database after the last acknowledged mutation. `exposed` records that a
      session was started while the active manifest was not yet durable. */
  datatype System = System(disk: Disk, acked: Database, proc: Option<Process>, exposed: bool)

  function DbAt(s: System, id: FileId): Database {
    if IsDb(s.disk.files, id) then s.disk.files[id].db else map[]
  }
  function LiveDb(s: System): Database requires s.proc.Some? { DbAt(s, s.proc.value.liveId) }

  function WithFile(s: System, id: FileId, c: Content): System {
    s.(disk := s.disk.(files := s.disk.files[id := c]))
  }
  function WithRun(s: System, r: Run): System requires s.proc.Some? {
    s.(proc := Some(s.proc.value.(run := r)))
  }
  function WithOp(s: System, op: DirOp): System { s.(disk := Append(s.disk, op)) }

  /** An acknowledged commit on the live file. */
  function WithLive(s: System, db: Database): System requires s.proc.Some? {
    WithFile(s, s.proc.value.liveId, DbFile(db)).(acked := db)
  }

  predicate SessionOf(db: Database, generation: string) {
    Get(db, Meta, Field(CompactionSession)) == Some(Text(generation))
  }

  // ---- the steps ------------------------------------------------------------------------------

  datatype Step =
    | Commit(ws: seq<Mutation>, overflow: bool)
    | Fail
    | SyncDirectory
    | StrayTemporary(n: nat, id: FileId, content: Content)
    | Bootstrap(n: nat, id: FileId)
    | ResetJournal(generation: string)
    | StartSession
    | TakeSnapshot
    | CopyCandidate(id: FileId)
    | ReplayBatch(batch: nat)
    | CatchUp
    | Gate
    | Publish(n: nat, id: FileId)
    | PublishRefused
    | RereadFails
    | SwapDurable
    | SwapAmbiguous
    | Abort(unlink: bool)
    | DropSession
    | Reclaim(name: FileName, id: FileId, n: nat, markerId: FileId)
    | CleanupCandidate(generation: string)
    | Kill
    | Crash(k: nat)
    | Open

  const DropWrites: seq<Mutation> := [Delete(Meta, Field(CompactionSession))]
  function StartWrites(generation: string): seq<Mutation> {
    [Put(Meta, Field(ManifestRequired), Flag), Put(Meta, Field(CompactionSession), Text(generation))]
  }

  lemma StartRows(db: Database, generation: string)
    requires Meta in db && MutationJournal in db
    ensures var d := Committed(db, StartWrites(generation), false);
      && Rows(d, Meta) == Rows(db, Meta)[Field(ManifestRequired) := Flag][Field(CompactionSession) := Text(generation)]
                            [Field(MutationGeneration) := Num(Generation(db) + 1)]
      && d.Keys == db.Keys && (forall b :: b != Meta && b != MutationJournal ==> TableOf(d, b) == TableOf(db, b))
      && Rows(d, MutationJournal) == Rows(db, MutationJournal)[Seq(Generation(db) + 1) :=
           WriteSet(Sealing(db, StartWrites(generation)))]
  {
    var ws := StartWrites(generation);
    ApplyPair(db, Put(Meta, Field(ManifestRequired), Flag), Put(Meta, Field(CompactionSession), Text(generation)));
    var e := ApplyAll(db, ws);
    assert Generation(e) == Generation(db);
    ApplySnoc(db, ws, Put(Meta, Field(MutationGeneration), Num(Generation(e) + 1)));
  }

  /** `d` is `db` without a session. */
  ghost predicate SessionClosed(d: Database, db: Database) {
    && Rows(d, Meta) == (Rows(db, Meta) - {Field(CompactionSession)})[Field(MutationGeneration) := Num(Generation(db) + 1)]
    && d.Keys == db.Keys && forall b :: b != Meta ==> TableOf(d, b) == TableOf(db, b)
  }

  lemma DropRows(db: Database)
    requires Meta in db
    ensures SessionClosed(Committed(db, DropWrites, false), db)
  {
    var ws := DropWrites;
    ApplySingle(db, Delete(Meta, Field(CompactionSession)));
    var e := ApplyAll(db, ws);
    assert Generation(e) == Generation(db);
    ApplySnoc(db, ws, Put(Meta, Field(MutationGeneration), Num(Generation(e) + 1)));
  }

  /** The journal bucket is deleted and created again, outside the gateway. */
  function ResetDb(db: Database): Database { db[MutationJournal := EmptyTable] }

  /** The last candidate transaction of the gate. */
  function CutoverDb(c: Database, generation: string): Database {
    ApplyOne(ApplyOne(c, Delete(Meta, Field(CompactionSession))),
             Put(Meta, Field(StorageGeneration), Text(generation)))
  }

  /** None when the step is not possible in this state. */
  function Next(s: System, step: Step): Option<System> {
    if s.proc.None? then NextDown(s, step)
    else match step
      case Commit(ws, overflow) => NextCommit(s, ws, overflow)
      case Fail => if s.proc.value.run.HoldsGate() then None else Some(s.(proc := Some(s.proc.value.(failed := true))))
      case SyncDirectory => Some(s.(disk := Synced(s.disk)))
      case StrayTemporary(n, id, content) => NextStray(s, n, id, content)
      case Bootstrap(n, id) => NextBootstrap(s, n, id)
      case ResetJournal(generation) => NextReset(s, generation)
      case StartSession => NextStart(s)
      case TakeSnapshot => NextSnapshot(s)
      case CopyCandidate(id) => NextCopy(s, id)
      case ReplayBatch(batch) => NextReplay(s, batch)
      case CatchUp => NextCatchUp(s)
      case Gate => NextGate(s)
      case Publish(n, id) => NextPublish(s, n, id)
      case PublishRefused =>
        if s.proc.value.run.Prepared?
        then Some(s.(proc := Some(s.proc.value.(failed := true, run := Idle)))) else None
      case RereadFails => NextReread(s)
      case SwapDurable => NextSwap(s, true)
      case SwapAmbiguous => NextSwap(s, false)
      case Abort(unlink) => NextAbort(s, unlink)
      case DropSession => NextDrop(s)
      case Reclaim(name, id, n, markerId) => NextReclaim(s, name, id, n, markerId)
      case CleanupCandidate(generation) => NextCleanup(s, generation)
      case Kill => Some(s.(proc := None))
      case Crash(k) => NextCrash(s, k)
      case Open => None
  }

  function NextDown(s: System, step: Step): Option<System> requires s.proc.None? {
    match step
    case Crash(k) => NextCrash(s, k)
    case Open => NextOpen(s)
    case _ => None
  }

  /** Any write-set that leaves the gateway's own keys alone. */
  function NextCommit(s: System, ws: seq<Mutation>, overflow: bool): Option<System> requires s.proc.Some? {
    var p, live := s.proc.value, LiveDb(s);
    if p.failed || p.run.HoldsGate() || !Committable(live, ws) || GenerationExhausted(live, ws) then None
    else Some(WithLive(s, Committed(live, ws, overflow)))
  }

  /** A temporary file that some interrupted write leaves behind. */
  function NextStray(s: System, n: nat, id: FileId, content: Content): Option<System> {
    if Temporary(n) in Visible(s.disk) || id in s.disk.files then None
    else Some(WithOp(WithFile(s, id, content), Link(Temporary(n), id)))
  }

  /** The session of a compaction that is over is dropped. */
  function NextDrop(s: System): Option<System> requires s.proc.Some? {
    if s.proc.value.failed || !s.proc.value.run.Idle? || Generation(LiveDb(s)) >= MAX_UINT64 then None
    else Some(WithLive(s, Committed(LiveDb(s), DropWrites, false)))
  }

  /** The first manifest: a temporary file renamed over the active name. Its directory sync
      is a later SyncDirectory, or never comes. */
  function NextBootstrap(s: System, n: nat, id: FileId): Option<System> requires s.proc.Some? {
    var p := s.proc.value;
    if p.failed || !p.run.Idle? || ActiveManifest in Visible(s.disk)
       || Temporary(n) in Visible(s.disk) || id in s.disk.files then None
    else
      var m := Pointer(p.live, StoreId(LiveDb(s)), None, 0);
      Some(WithOp(WithOp(WithFile(s, id, ManifestFile(m)), Link(Temporary(n), id)),
                  Rename(Temporary(n), ActiveManifest)))
  }

  function NextReset(s: System, generation: string): Option<System> requires s.proc.Some? {
    var p, live := s.proc.value, LiveDb(s);
    if p.failed || !p.run.Idle? || !HasVersion(live, V2) || MutationJournal !in live
       || PointerIn(Visible(s.disk), s.disk.files) == None then None
    else Some(WithRun(WithFile(s, p.liveId, DbFile(ResetDb(live))), JournalReset(generation)))
  }

  function NextStart(s: System): Option<System> requires s.proc.Some? {
    var p, live := s.proc.value, LiveDb(s);
    if !p.run.JournalReset? then None
    else if HasSession(live) || Generation(live) >= MAX_UINT64 then Some(WithRun(s, Idle))
    else
      var started := WithLive(s, Committed(live, StartWrites(p.run.generation), false));
      Some(started.(proc := Some(p.(owner := StoreId(live), run := Started(p.run.generation))),
                    exposed := s.exposed || ActiveManifest !in s.disk.durable))
  }

  function NextSnapshot(s: System): Option<System> requires s.proc.Some? {
    if s.proc.value.run.Started? then Some(WithRun(s, Snapshotted(s.proc.value.run.generation, LiveDb(s)))) else None
  }

  /** The candidate file is created exclusively and filled with the snapshot. */
  function NextCopy(s: System, id: FileId): Option<System> requires s.proc.Some? {
    var p := s.proc.value;
    if !p.run.Snapshotted? then None
    else
      var name := GenerationFile(p.run.generation);
      if name in Visible(s.disk) || id in s.disk.files then None
      else Some(WithRun(WithOp(WithFile(s, id, DbFile(p.run.snapshot)), Link(name, id)),
                        Copying(p.run.generation, id, Generation(p.run.snapshot), false)))
  }

  /** One replay batch: it re-checks the session and needs every generation it covers. */
  function NextReplay(s: System, batch: nat): Option<System> requires s.proc.Some? {
    var p, live := s.proc.value, LiveDb(s);
    if !p.run.Copying? || !SessionOf(live, p.run.generation) || Generation(live) < p.run.replayed then None
    else
      var low := p.run.replayed;
      var high := low + Min(Generation(live) - low, batch);
      var j, c := JournalOf(live), DbAt(s, p.run.candidate);
      if !HasEntries(j, low, high) || !ReplayAccepts(c, j, low, high) then None
      else Some(WithRun(WithFile(s, p.run.candidate, DbFile(Replayed(c, j, low, high))),
                        p.run.(replayed := high, checked := true)))
  }

  /** The catch-up loop ends close enough to the head, and the directory is synced. */
  function NextCatchUp(s: System): Option<System> requires s.proc.Some? {
    var p := s.proc.value;
    if !p.run.Copying? || !p.run.checked then None
    else Some(WithRun(s, Ready(p.run.generation, p.run.candidate, p.run.replayed)).(disk := Synced(s.disk)))
  }

  /** The final gate does not look at the session again; it needs the missing generations. */
  function NextGate(s: System): Option<System> requires s.proc.Some? {
    var p, live := s.proc.value, LiveDb(s);
    if !p.run.Ready? || p.failed then None
    else
      var low, final := p.run.replayed, Generation(live);
      var j, c := JournalOf(live), DbAt(s, p.run.candidate);
      if final < low || final - low > GATE_LAG || !HasEntries(j, low, final) || !ReplayAccepts(c, j, low, final) then None
      else
        var caughtUp := Replayed(c, j, low, final);
        if StoreId(caughtUp) != p.owner || Generation(caughtUp) != final then None
        else Some(WithRun(WithFile(s, p.run.candidate, DbFile(CutoverDb(caughtUp, p.run.generation))),
                          Prepared(p.run.generation, p.run.candidate, final)))
  }

  function NextPublish(s: System, n: nat, id: FileId): Option<System> requires s.proc.Some? {
    var p := s.proc.value;
    if !p.run.Prepared? then None
    else
      var name := GenerationFile(p.run.generation);
      if !(name in Visible(s.disk) && Visible(s.disk)[name] == p.run.candidate)
         || Temporary(n) in Visible(s.disk) || id in s.disk.files then None
      else
        var m := Pointer(name, p.owner, Some(p.run.generation), p.run.final);
        Some(WithRun(WithOp(WithOp(WithFile(s, id, ManifestFile(m)), Link(Temporary(n), id)),
                            Rename(Temporary(n), ActiveManifest)),
                     Renamed(p.run.generation, p.run.candidate)))
  }

  /** The pointer switch is visible. When its directory sync failed the process latches
      failed, because either generation may survive a crash. */
  function NextSwap(s: System, synced: bool): Option<System> requires s.proc.Some? {
    var p := s.proc.value;
    if !p.run.Renamed? then None
    else Some(s.(disk := if synced then Synced(s.disk) else s.disk,
                 proc := Some(p.(live := GenerationFile(p.run.generation), liveId := p.run.candidate,
                                 failed := p.failed || !synced, run := Idle,
                                 retired := p.retired + {(p.live, p.liveId)}))))
  }

  /** The rename is visible but the manifest cannot be read back: the process fails with the
      old file open, and never resumes writing to it. */
  function NextReread(s: System): Option<System> requires s.proc.Some? {
    var p := s.proc.value;
    if !p.run.Renamed? then None
    else Some(s.(proc := Some(p.(failed := true, run := Stranded(p.run.generation, p.run.candidate)))))
  }

  /** Any abort before publication; an owned candidate is unlinked unless that fails. */
  function NextAbort(s: System, unlink: bool): Option<System> requires s.proc.Some? {
    var p := s.proc.value;
    if p.run.Idle? || p.run.Switched() then None
    else if !unlink || !p.run.HasCandidate() then Some(WithRun(s, Idle))
    else
      var name := GenerationFile(p.run.generation);
      if name in Visible(s.disk) && Visible(s.disk)[name] == p.run.candidate
      then Some(WithRun(WithOp(s, Unlink(name)), Idle)) else None
  }

  /** An old generation is unlinked; the anchor is replaced by a small marker instead. */
  function NextReclaim(s: System, name: FileName, id: FileId, n: nat, markerId: FileId): Option<System>
    requires s.proc.Some?
  {
    var p, d := s.proc.value, Visible(s.disk);
    if (name, id) !in p.retired || name !in d || d[name] != id then None
    else if name.GenerationFile? then Some(WithOp(s, Unlink(name)))
    else if !name.Anchor? || Temporary(n) in d || markerId in s.disk.files then None
    else Some(WithOp(WithOp(WithFile(s, markerId, RetiredMarker(StoreId(LiveDb(s)))), Link(Temporary(n), markerId)),
                     Rename(Temporary(n), Anchor)))
  }

  /** Cleanup of an interrupted run's shadow, on the evidence of the visible manifest. */
  function NextCleanup(s: System, generation: string): Option<System> requires s.proc.Some? {
    var p, d := s.proc.value, Visible(s.disk);
    var name := GenerationFile(generation);
    if p.failed || !p.run.Idle? then None
    else match PointerIn(d, s.disk.files)
      case None => None
      case Some(m) =>
        if m.storeId != StoreId(LiveDb(s)) || m.file != p.live || name == p.live || name !in d then None
        else
          var shadow := DbAt(s, d[name]);
          if StoreId(shadow) == StoreId(LiveDb(s)) && IsDb(s.disk.files, d[name])
             && (SessionOf(shadow, generation) || StorageGenerationOf(shadow) == Some(generation))
          then Some(WithOp(s, Unlink(name))) else None
  }

  function NextCrash(s: System, k: nat): Option<System> {
    if k > |s.disk.pending| then None
    else Some(s.(disk := s.disk.(durable := Cut(s.disk, k), pending := []), proc := None))
  }

  /** Open follows the manifest, syncs the directory and drops an interrupted session. */
  function NextOpen(s: System): Option<System> requires s.proc.None? {
    var d := Visible(s.disk);
    if !Opens(d, s.disk.files) then None
    else
      var id, name := SelectedIn(d, s.disk.files).value, TargetIn(d, s.disk.files).value;
      var up := s.(disk := Synced(s.disk), proc := Some(Process(name, id, false, "", Idle, {})));
      var db := DbAt(s, id);
      if !HasSession(db) then Some(up.(acked := db))
      else if Generation(db) >= MAX_UINT64 then None
      else Some(WithLive(up, Committed(db, DropWrites, false)))
  }
}
