/** Every step of the compaction protocol keeps the invariant, and what follows for whole
    runs: cutover agreement, overflow safety and crash recovery. */
module CompactionSteps {
  import opened Types
  import opened Store
  import opened Gateway
  import opened Directories
  import opened Replay
  import opened Compaction
  import opened CompactionSafety

  // ---- steps on the live file ------------------------------------------------------------------

  /** The live database is rewritten by an acknowledged commit and the compactor copes. */
  lemma LiveStep(s: System, live': Database)
    requires Inv(s) && s.proc.Some? && CutsSelect(s.disk, s.proc.value.liveId) && !s.proc.value.run.Switched()
    requires var live, p := LiveDb(s), s.proc.value;
      && HealthyDb(live') && StoreId(live') == StoreId(live) && Generation(live') >= Generation(live)
      && StorageGenerationOf(live') == StorageGenerationOf(live)
      && ManifestDemanded(live') == ManifestDemanded(live)
      && RunInv(p.run, s.disk.files[p.liveId := DbFile(live')], live', p.liveId, p.owner)
    ensures Inv(WithLive(s, live'))
  {
    LiveRewrite(s.disk, s.acked, s.proc.value.liveId, live', live');
    CoreLookup(LiveDb(s), s.acked);
  }

  lemma CommitSafe(live: Database, ws: seq<Mutation>, overflow: bool)
    requires HealthyDb(live) && Committable(live, ws)
    ensures var live' := Committed(live, ws, overflow);
      && HealthyDb(live') && StoreId(live') == StoreId(live) && Generation(live') == Generation(live) + 1
      && StorageGenerationOf(live') == StorageGenerationOf(live)
      && ManifestDemanded(live') == ManifestDemanded(live)
      && (HasSession(live') ==> Get(live', Meta, Field(CompactionSession)) == Get(live, Meta, Field(CompactionSession)))
  {
    CommitEffect(live, ws, overflow);
    CommitBounds(live, ws, overflow);
    DomainFrame(live, ws);
  }

  lemma CommitKeepsRun(run: Run, files: Files, live: Database, liveId: FileId, owner: string,
                       ws: seq<Mutation>, overflow: bool)
    requires RunInv(run, files, live, liveId, owner) && !run.HoldsGate()
    requires HealthyDb(live) && Committable(live, ws)
    ensures var live' := Committed(live, ws, overflow);
            RunInv(run, files[liveId := DbFile(live')], live', liveId, owner)
  {
    CommitSafe(live, ws, overflow);
    match run
    case Snapshotted(_, c) => CommitKeepsTracking(c, Generation(c), live, ws, overflow, false);
    case Copying(_, id, low, checked) => CommitKeepsTracking(files[id].db, low, live, ws, overflow, checked);
    case Ready(_, id, low) => CommitKeepsTracking(files[id].db, low, live, ws, overflow, true);
    case _ =>
  }

  lemma CommitKeeps(s: System, ws: seq<Mutation>, overflow: bool)
    requires Inv(s) && s.proc.Some? && NextCommit(s, ws, overflow).Some?
    ensures Inv(NextCommit(s, ws, overflow).value)
  {
    var p, live := s.proc.value, LiveDb(s);
    CommitSafe(live, ws, overflow);
    CommitKeepsRun(p.run, s.disk.files, live, p.liveId, p.owner, ws, overflow);
    LiveStep(s, Committed(live, ws, overflow));
  }

  lemma DropKeeps(s: System)
    requires Inv(s) && s.proc.Some? && NextDrop(s).Some?
    ensures Inv(NextDrop(s).value)
  {
    DropEffect(LiveDb(s));
    LiveStep(s, Committed(LiveDb(s), DropWrites, false));
  }

  lemma ResetKeeps(s: System, generation: string)
    requires Inv(s) && s.proc.Some? && NextReset(s, generation).Some?
    ensures Inv(NextReset(s, generation).value)
  {
    hide SparesManifest, SelectedIn;
    var p, live := s.proc.value, LiveDb(s);
    var live' := ResetDb(live);
    assert Core(live') == Core(live) by {
      assert forall n <- Core(live).Keys :: Core(live')[n] == Core(live)[n];
    }
    LiveRewrite(s.disk, s.acked, p.liveId, live', s.acked);
  }

  lemma StartKeeps(s: System)
    requires Inv(s) && s.proc.Some? && NextStart(s).Some?
    ensures Inv(NextStart(s).value)
  {
    hide CutsGood, CutsSelect, SelectedIn, TargetIn, SparesManifest, Visible, Committed, StartWrites, HealthyDb, ManifestDemanded, JournalOf, Generation, HasSession, ApplyAll, MetaNum, SessionOf, Core, StorageGenerationOf, Cut, Good, PointerIn, Sealing, StoreId, ApplyOne;
    var p, live := s.proc.value, LiveDb(s);
    if !HasSession(live) && Generation(live) < MAX_UINT64 {
      var live' := Committed(live, StartWrites(p.run.generation), false);
      StartEffect(live, p.run.generation);
      LiveRewrite(s.disk, s.acked, p.liveId, live', live');
    }
  }

  // ---- steps of the copy -------------------------------------------------------------------------

  lemma CopyKeeps(s: System, id: FileId)
    requires Inv(s) && s.proc.Some? && NextCopy(s, id).Some?
    ensures Inv(NextCopy(s, id).value)
  {
    hide Cut, Generation;
    var p := s.proc.value;
    var name, content := GenerationFile(p.run.generation), DbFile(p.run.snapshot);
    OtherFileCuts(s.disk, s.acked, id, content);
    var disk := s.disk.(files := s.disk.files[id := content]);
    LinkKeeps(Visible(disk), disk.files, s.acked, name, id);
    AppendGood(disk, s.acked, Link(name, id));
    AppendCuts(disk, Link(name, id));
  }

  /** A rewrite of the candidate, which no cut selects. */
  lemma CandidateStep(s: System, db: Database, run: Run)
    requires Inv(s) && s.proc.Some? && s.proc.value.run.HasCandidate() && !s.proc.value.run.Switched()
    requires run.HasCandidate() && run.candidate == s.proc.value.run.candidate && !run.Switched()
    requires run.generation == s.proc.value.run.generation
    requires var p := s.proc.value;
      RunInv(run, s.disk.files[run.candidate := DbFile(db)], LiveDb(s), p.liveId, p.owner)
    ensures Inv(WithRun(WithFile(s, run.candidate, DbFile(db)), run))
  {
    OtherFileCuts(s.disk, s.acked, run.candidate, DbFile(db));
  }

  lemma ReplayKeeps(s: System, batch: nat)
    requires Inv(s) && s.proc.Some? && NextReplay(s, batch).Some?
    ensures Inv(NextReplay(s, batch).value)
  {
    hide CutsGood, CutsSelect, SelectedIn, TargetIn, SparesManifest, ManifestDemanded, Visible, HealthyDb, Core,
         Tracking, Replayed, HasEntries, ReplayAccepts;
    var p, live := s.proc.value, LiveDb(s);
    var low := p.run.replayed;
    var high := low + Min(Generation(live) - low, batch);
    var next := Replayed(DbAt(s, p.run.candidate), JournalOf(live), low, high);
    assert Tracking(next, high, live, true) by {
      BatchKeepsTracking(DbAt(s, p.run.candidate), low, high, live, p.run.checked);
    }
    CandidateStep(s, next, p.run.(replayed := high, checked := true));
  }

  lemma SyncedSelects(s: System)
    requires Inv(s)
    ensures CutsGood(Synced(s.disk), s.acked) && Visible(Synced(s.disk)) == Visible(s.disk)
    ensures ActiveManifest in s.disk.durable ==> ActiveManifest in Synced(s.disk).durable
    ensures forall id: FileId :: SelectedIn(Visible(s.disk), s.disk.files) == Some(id) ==> CutsSelect(Synced(s.disk), id)
  {
    SyncGood(s.disk, s.acked);
    if ActiveManifest in s.disk.durable {
      assert s.disk.pending[..|s.disk.pending|] == s.disk.pending;
      ManifestSurvives(s.disk.durable, s.disk.pending);
    }
  }

  lemma SyncKeeps(s: System)
    requires Inv(s)
    ensures Inv(s.(disk := Synced(s.disk)))
  {
    SyncedSelects(s);
  }

  lemma GateKeeps(s: System)
    requires Inv(s) && s.proc.Some? && NextGate(s).Some?
    ensures Inv(NextGate(s).value)
  {
    var p, live := s.proc.value, LiveDb(s);
    var c := DbAt(s, p.run.candidate);
    GateAgrees(c, p.run.replayed, live);
    var caughtUp := Replayed(c, JournalOf(live), p.run.replayed, Generation(live));
    CutoverEffect(caughtUp, live, p.run.generation);
    CandidateStep(s, CutoverDb(caughtUp, p.run.generation),
                  Prepared(p.run.generation, p.run.candidate, Generation(live)));
  }

  // ---- publication -------------------------------------------------------------------------------

  /** A new file linked under a temporary name. */
  lemma TemporaryKeeps(s: System, n: nat, id: FileId, content: Content)
    requires CutsGood(s.disk, s.acked) && id !in s.disk.files && Temporary(n) !in Visible(s.disk)
    ensures var disk := Append(s.disk.(files := s.disk.files[id := content]), Link(Temporary(n), id));
      && CutsGood(disk, s.acked)
      && (forall x: FileId :: CutsSelect(s.disk, x) ==> CutsSelect(disk, x))
      && Visible(disk) == Visible(s.disk)[Temporary(n) := id]
      && SelectedIn(Visible(disk), disk.files) == SelectedIn(Visible(s.disk), s.disk.files)
      && TargetIn(Visible(disk), disk.files) == TargetIn(Visible(s.disk), s.disk.files)
  {
    var k := |s.disk.pending|;
    OtherFileCuts(s.disk, s.acked, id, content);
    var d1 := s.disk.(files := s.disk.files[id := content]);
    assert Good(Visible(d1), d1.files, s.acked);
    LinkKeeps(Visible(d1), d1.files, s.acked, Temporary(n), id);
    AppendGood(d1, s.acked, Link(Temporary(n), id));
    AppendCuts(d1, Link(Temporary(n), id));
    forall x: FileId | CutsSelect(s.disk, x)
      ensures CutsSelect(Append(d1, Link(Temporary(n), id)), x)
    {
      assert CutsSelect(d1, x);
      assert SelectedIn(Cut(s.disk, k), s.disk.files) == Some(x);
    }
  }

  lemma PublishKeepsGood(s: System, n: nat, id: FileId, m: Pointer, target: FileId)
    requires CutsGood(s.disk, s.acked) && id !in s.disk.files && Temporary(n) !in Visible(s.disk)
    requires WellNamed(m) && m.file in Visible(s.disk) && Visible(s.disk)[m.file] == target
    requires IsDb(s.disk.files, target) && HealthyDb(s.disk.files[target].db)
    requires Core(s.disk.files[target].db) == Core(s.acked) && PointerAdmits(m, s.disk.files[target].db)
    ensures var disk := Append(Append(s.disk.(files := s.disk.files[id := ManifestFile(m)]), Link(Temporary(n), id)),
                               Rename(Temporary(n), ActiveManifest));
      && CutsGood(disk, s.acked)
      && (CutsSelect(s.disk, target) ==> CutsSelect(disk, target))
      && Visible(disk) == (Visible(s.disk)[Temporary(n) := id] - {Temporary(n)})[ActiveManifest := id]
      && SelectedIn(Visible(disk), disk.files) == Some(target)
      && TargetIn(Visible(disk), disk.files) == Some(m.file)
  {
    TemporaryKeeps(s, n, id, ManifestFile(m));
    var d := Append(s.disk.(files := s.disk.files[id := ManifestFile(m)]), Link(Temporary(n), id));
    PublishSelects(Visible(d), d.files, s.acked, Temporary(n), m, target);
    AppendGood(d, s.acked, Rename(Temporary(n), ActiveManifest));
    AppendCuts(d, Rename(Temporary(n), ActiveManifest));
  }

  lemma StrayKeeps(s: System, n: nat, id: FileId, content: Content)
    requires Inv(s) && s.proc.Some? && NextStray(s, n, id, content).Some?
    ensures Inv(NextStray(s, n, id, content).value)
  {
    TemporaryKeeps(s, n, id, content);
  }

  lemma BootstrapKeeps(s: System, n: nat, id: FileId)
    requires Inv(s) && s.proc.Some? && NextBootstrap(s, n, id).Some?
    ensures Inv(NextBootstrap(s, n, id).value)
  {
    var p := s.proc.value;
    var m := Pointer(p.live, StoreId(LiveDb(s)), None, 0);
    assert StorageGenerationOf(LiveDb(s)) == None ==> PointerAdmits(m, LiveDb(s));
    PublishKeepsGood(s, n, id, m, p.liveId);
  }

  lemma PublishKeeps(s: System, n: nat, id: FileId)
    requires Inv(s) && s.proc.Some? && NextPublish(s, n, id).Some?
    ensures Inv(NextPublish(s, n, id).value)
  {
    hide Cut, Get, TableOf, Visible, HasSession, SelectedIn, TargetIn, CutsGood, HealthyDb, ManifestDemanded;
    var p := s.proc.value;
    var m := Pointer(GenerationFile(p.run.generation), p.owner, Some(p.run.generation), p.run.final);
    CoreLookup(s.disk.files[p.run.candidate].db, LiveDb(s));
    PublishKeepsGood(s, n, id, m, p.run.candidate);
  }

  lemma SwapKeeps(s: System, synced: bool)
    requires Inv(s) && s.proc.Some? && NextSwap(s, synced).Some?
    ensures Inv(NextSwap(s, synced).value)
  {
    var p := s.proc.value;
    assert Good(Visible(s.disk), s.disk.files, s.acked);
    if synced {
      SyncGood(s.disk, s.acked);
      if ActiveManifest in s.disk.durable {
        assert s.disk.pending[..|s.disk.pending|] == s.disk.pending;
        ManifestSurvives(s.disk.durable, s.disk.pending);
      }
    }
  }

  // ---- cleaning up ---------------------------------------------------------------------------------

  /** Unlinking a name that is not the selected file. */
  lemma UnlinkStep(s: System, name: FileName)
    requires CutsGood(s.disk, s.acked) && name != ActiveManifest && name in Visible(s.disk)
    requires TargetIn(Visible(s.disk), s.disk.files) != Some(name)
    ensures var disk := Append(s.disk, Unlink(name));
      && CutsGood(disk, s.acked) && Visible(disk) == Visible(s.disk) - {name}
      && (forall x: FileId :: CutsSelect(s.disk, x) ==> CutsSelect(disk, x))
      && SelectedIn(Visible(disk), disk.files) == SelectedIn(Visible(s.disk), s.disk.files)
      && TargetIn(Visible(disk), disk.files) == TargetIn(Visible(s.disk), s.disk.files)
  {
    var d, k := Visible(s.disk), |s.disk.pending|;
    assert Good(d, s.disk.files, s.acked);
    UnlinkKeeps(d, s.disk.files, s.acked, name);
    AppendGood(s.disk, s.acked, Unlink(name));
    AppendCuts(s.disk, Unlink(name));
    forall x: FileId | CutsSelect(s.disk, x) ensures CutsSelect(Append(s.disk, Unlink(name)), x) {
      assert SelectedIn(Cut(s.disk, k), s.disk.files) == Some(x);
    }
  }

  lemma AbortKeeps(s: System, unlink: bool)
    requires Inv(s) && s.proc.Some? && NextAbort(s, unlink).Some?
    ensures Inv(NextAbort(s, unlink).value)
  {
    var p := s.proc.value;
    if unlink && p.run.HasCandidate() { UnlinkStep(s, GenerationFile(p.run.generation)); }
  }

  /** The shadow a cleanup removes is never the generation the manifest names. */
  lemma CleanupKeeps(s: System, generation: string)
    requires Inv(s) && s.proc.Some? && NextCleanup(s, generation).Some?
    ensures Inv(NextCleanup(s, generation).value)
  {
    var name := GenerationFile(generation);
    UnlinkStep(s, name);
  }

  lemma RetireAnchor(s: System, n: nat, markerId: FileId)
    requires Inv(s) && s.proc.Some? && TargetIn(Visible(s.disk), s.disk.files) != Some(Anchor)
    requires markerId !in s.disk.files && Temporary(n) !in Visible(s.disk)
    ensures var content := RetiredMarker(StoreId(LiveDb(s)));
      var disk := Append(Append(s.disk.(files := s.disk.files[markerId := content]), Link(Temporary(n), markerId)),
                         Rename(Temporary(n), Anchor));
      && CutsGood(disk, s.acked)
      && Visible(disk) == (Visible(s.disk)[Temporary(n) := markerId] - {Temporary(n)})[Anchor := markerId]
      && (forall x: FileId :: CutsSelect(s.disk, x) ==> CutsSelect(disk, x))
      && SelectedIn(Visible(disk), disk.files) == SelectedIn(Visible(s.disk), s.disk.files)
      && TargetIn(Visible(disk), disk.files) == TargetIn(Visible(s.disk), s.disk.files)
  {
    var content := RetiredMarker(StoreId(LiveDb(s)));
    TemporaryKeeps(s, n, markerId, content);
    var k := |s.disk.pending|;
    var disk := Append(s.disk.(files := s.disk.files[markerId := content]), Link(Temporary(n), markerId));
    assert Good(Visible(disk), disk.files, s.acked);
    RetireAnchorKeeps(Visible(disk), disk.files, s.acked, Temporary(n));
    AppendGood(disk, s.acked, Rename(Temporary(n), Anchor));
    AppendCuts(disk, Rename(Temporary(n), Anchor));
    forall x: FileId | CutsSelect(s.disk, x) ensures CutsSelect(Append(disk, Rename(Temporary(n), Anchor)), x) {
      assert SelectedIn(Cut(s.disk, k), s.disk.files) == Some(x);
    }
  }

  lemma ReclaimKeeps(s: System, name: FileName, id: FileId, n: nat, markerId: FileId)
    requires Inv(s) && s.proc.Some? && NextReclaim(s, name, id, n, markerId).Some?
    ensures Inv(NextReclaim(s, name, id, n, markerId).value)
  {
    hide Inv;
    if name.GenerationFile? { ReclaimGenerationKeeps(s, name, id, n, markerId); } else { ReclaimAnchorKeeps(s, id, n, markerId); }
  }

  lemma ReclaimGenerationKeeps(s: System, name: FileName, id: FileId, n: nat, markerId: FileId)
    requires Inv(s) && s.proc.Some? && NextReclaim(s, name, id, n, markerId).Some? && name.GenerationFile?
    ensures Inv(NextReclaim(s, name, id, n, markerId).value)
  {
    hide CutsGood, ManifestDemanded, HealthyDb;
    UnlinkStep(s, name);
  }

  lemma ReclaimAnchorKeeps(s: System, id: FileId, n: nat, markerId: FileId)
    requires Inv(s) && s.proc.Some? && NextReclaim(s, Anchor, id, n, markerId).Some?
    ensures Inv(NextReclaim(s, Anchor, id, n, markerId).value)
  {
    hide CutsGood, ManifestDemanded, HealthyDb, Get, TargetIn, Cut, Visible, Good, HasSession, StoreId, StorageTyped,
         CutsSelect;
    RetireAnchor(s, n, markerId);
  }

  // ---- crash and reopen ----------------------------------------------------------------------------

  lemma CrashKeeps(s: System, k: nat)
    requires Inv(s) && NextCrash(s, k).Some?
    ensures Inv(NextCrash(s, k).value)
  {
    var s' := NextCrash(s, k).value;
    assert Good(Cut(s.disk, k), s.disk.files, s.acked);
    assert forall i :: 0 <= i <= |s'.disk.pending| ==> Cut(s'.disk, i) == Cut(s.disk, k);
    if ActiveManifest in s.disk.durable {
      ManifestSurvives(s.disk.durable, s.disk.pending[..k]);
    }
  }

  lemma OpenKeeps(s: System)
    requires Inv(s) && s.proc.None? && NextOpen(s).Some?
    ensures Inv(NextOpen(s).value)
  {
    hide HealthyDb, ManifestDemanded, Core;
    var d := Visible(s.disk);
    assert Good(d, s.disk.files, s.acked);
    var id, name := SelectedIn(d, s.disk.files).value, TargetIn(d, s.disk.files).value;
    var db := DbAt(s, id);
    CoreLookup(db, s.acked);
    SyncedSelects(s);
    var up := s.(disk := Synced(s.disk), proc := Some(Process(name, id, false, "", Idle, {})), acked := db);
    assert CutsGood(up.disk, db) by {
      assert forall k :: 0 <= k <= |up.disk.pending| ==> Cut(up.disk, k) == d;
    }
    assert Inv(up);
    if HasSession(db) {
      DropEffect(db);
      LiveStep(up, Committed(db, DropWrites, false));
    }
  }

  /** Every step, from every state that satisfies the invariant. */
  lemma StepKeeps(s: System, step: Step)
    requires Inv(s) && Next(s, step).Some?
    ensures Inv(Next(s, step).value)
  {
    hide Inv, NextCommit, NextBootstrap, NextReset, NextStart, NextCopy, NextReplay, NextCatchUp, NextGate, NextPublish,
         NextSwap, NextAbort, NextReclaim, NextCleanup, NextCrash, NextOpen, NextReread, NextStray, NextDrop, NextSnapshot, LiveDb, Committed;
    if s.proc.None? {
      match step
      case Crash(k) => CrashKeeps(s, k);
      case Open => OpenKeeps(s);
      case _ =>
    } else {
      match step
      case Commit(ws, overflow) => CommitKeeps(s, ws, overflow);
      case Fail => FailKeeps(s);
      case SyncDirectory => SyncKeeps(s);
      case StrayTemporary(n, id, content) => StrayKeeps(s, n, id, content);
      case Bootstrap(n, id) => BootstrapKeeps(s, n, id);
      case ResetJournal(generation) => ResetKeeps(s, generation);
      case StartSession => StartKeeps(s);
      case TakeSnapshot => SnapshotKeeps(s);
      case CopyCandidate(id) => CopyKeeps(s, id);
      case ReplayBatch(batch) => ReplayKeeps(s, batch);
      case CatchUp => CatchUpKeeps(s);
      case Gate => GateKeeps(s);
      case Publish(n, id) => PublishKeeps(s, n, id);
      case PublishRefused => RefusedKeeps(s);
      case RereadFails => RereadKeeps(s);
      case SwapDurable => SwapKeeps(s, true);
      case SwapAmbiguous => SwapKeeps(s, false);
      case Abort(unlink) => AbortKeeps(s, unlink);
      case DropSession => DropKeeps(s);
      case Reclaim(name, id, n, markerId) => ReclaimKeeps(s, name, id, n, markerId);
      case CleanupCandidate(generation) => CleanupKeeps(s, generation);
      case Kill => KillKeeps(s);
      case Crash(k) => CrashKeeps(s, k);
      case Open =>
    }
  }

  lemma FailKeeps(s: System)
    requires Inv(s) && s.proc.Some? && Next(s, Fail).Some?
    ensures Inv(Next(s, Fail).value)
  {
    hide CutsGood, CutsSelect, RunInv, SelectedIn, TargetIn, SparesManifest, HealthyDb, ManifestDemanded, Core, Visible;
  }

  lemma RefusedKeeps(s: System)
    requires Inv(s) && s.proc.Some? && Next(s, PublishRefused).Some?
    ensures Inv(Next(s, PublishRefused).value)
  {
    hide CutsGood, CutsSelect, SelectedIn, TargetIn, SparesManifest, HealthyDb, ManifestDemanded, Core, Visible;
  }

  lemma RereadKeeps(s: System)
    requires Inv(s) && s.proc.Some? && NextReread(s).Some?
    ensures Inv(NextReread(s).value)
  {
    hide CutsGood, CutsSelect, SelectedIn, TargetIn, SparesManifest, HealthyDb, ManifestDemanded, Core, Visible;
  }

  lemma KillKeeps(s: System)
    requires Inv(s) && s.proc.Some?
    ensures Inv(Next(s, Kill).value)
  {
    hide CutsGood, ProcInv, SparesManifest, ManifestDemanded;
  }

  lemma CatchUpKeeps(s: System)
    requires Inv(s) && s.proc.Some? && NextCatchUp(s).Some?
    ensures Inv(NextCatchUp(s).value)
  {
    hide CutsGood, CutsSelect, SelectedIn, TargetIn, SparesManifest, HealthyDb, ManifestDemanded, Core, Visible, Synced;
    SyncKeeps(s);
  }

  lemma SnapshotKeeps(s: System)
    requires Inv(s) && s.proc.Some? && NextSnapshot(s).Some?
    ensures Inv(NextSnapshot(s).value)
  {
    var live := LiveDb(s);
    assert HasEntries(JournalOf(live), Generation(live), Generation(live));
  }
}
