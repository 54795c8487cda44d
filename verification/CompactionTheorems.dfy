/** The main results about online compaction, over whole runs. */
module CompactionTheorems {
  import opened Types
  import opened Store
  import opened Gateway
  import opened Directories
  import opened Replay
  import opened Compaction
  import opened CompactionSafety
  import opened CompactionSteps

  /** A run from a fresh store: writers, compactor, failures, crashes and reopens in any order. */
  ghost predicate IsRun(states: seq<System>, steps: seq<Step>) {
    && |states| == |steps| + 1
    && Fresh(states[0])
    && forall i :: 0 <= i < |steps| ==> Next(states[i], steps[i]) == Some(states[i + 1])
  }

  lemma {:induction false} RunKeeps(states: seq<System>, steps: seq<Step>, i: nat)
    requires IsRun(states, steps) && i < |states|
    ensures Inv(states[i])
  {
    if i == 0 {
      FreshInv(states[0]);
    } else {
      RunKeeps(states, steps, i - 1);
      assert Next(states[i - 1], steps[i - 1]) == Some(states[i]);
      StepKeeps(states[i - 1], steps[i - 1]);
    }
  }

  // ---- cutover agreement ---------------------------------------------------------------------------

  /** The installed database differs from the live one in the journal bucket and the meta
      keys of the storage file, and in nothing else. */
  ghost predicate SameContents(a: Database, b: Database) {
    && a.Keys == b.Keys
    && (forall n <- a.Keys :: n != Meta && n != MutationJournal ==> a[n] == b[n])
    && (Meta in a ==>
          && a[Meta].sequence == b[Meta].sequence
          && forall k :: k != Field(CompactionSession) && k != Field(StorageGeneration) ==>
               (k in a[Meta].rows <==> k in b[Meta].rows) &&
               (k in a[Meta].rows ==> a[Meta].rows[k] == b[Meta].rows[k]))
  }

  lemma CoreIsContents(a: Database, b: Database)
    ensures Core(a) == Core(b) <==> SameContents(a, b)
  {
    assert a.Keys == Core(a).Keys && b.Keys == Core(b).Keys;
    if Core(a) == Core(b) {
      forall n | n in a.Keys && n != Meta && n != MutationJournal ensures a[n] == b[n] {
        assert Core(a)[n] == Core(b)[n];
      }
      if Meta in a {
        assert Core(a)[Meta] == Core(b)[Meta];
        assert a[Meta].rows - StorageFields == b[Meta].rows - StorageFields;
        forall k | k != Field(CompactionSession) && k != Field(StorageGeneration)
          ensures (k in a[Meta].rows <==> k in b[Meta].rows) &&
                  (k in a[Meta].rows ==> a[Meta].rows[k] == b[Meta].rows[k])
        {
          assert k in a[Meta].rows <==> k in (a[Meta].rows - StorageFields);
          assert k in b[Meta].rows <==> k in (b[Meta].rows - StorageFields);
        }
      }
    }
    if SameContents(a, b) {
      if Meta in a { assert a[Meta].rows - StorageFields == b[Meta].rows - StorageFields; }
      assert forall n <- a.Keys :: Core(a)[n] == Core(b)[n];
    }
  }

  lemma GateInstalls(s: System)
    requires Inv(s) && s.proc.Some? && NextGate(s).Some?
    ensures var s' := NextGate(s).value;
      && s'.proc.Some? && s'.proc.value.run.Prepared?
      && SameContents(DbAt(s', s'.proc.value.run.candidate), LiveDb(s))
      && !HasSession(DbAt(s', s'.proc.value.run.candidate))
      && HasSession(LiveDb(s))
  {
    var p, live := s.proc.value, LiveDb(s);
    var c := DbAt(s, p.run.candidate);
    GateAgrees(c, p.run.replayed, live);
    var caughtUp := Replayed(c, JournalOf(live), p.run.replayed, Generation(live));
    CutoverEffect(caughtUp, live, p.run.generation);
    CoreIsContents(CutoverDb(caughtUp, p.run.generation), live);
  }

  lemma SwapInstalls(s: System, synced: bool)
    requires Inv(s) && s.proc.Some? && NextSwap(s, synced).Some?
    ensures var s' := NextSwap(s, synced).value;
      s'.proc.Some? && SameContents(LiveDb(s'), LiveDb(s)) && (s'.proc.value.failed || synced)
  {
    CoreIsContents(LiveDb(NextSwap(s, synced).value), LiveDb(s));
  }

  /** However writers interleave between the snapshot and the gate, the candidate that passes
      the gate has the contents of the live database, its session was never dropped, and the
      database a swap installs has the contents of the one it replaces. */
  lemma CutoverAgrees(states: seq<System>, steps: seq<Step>, i: nat)
    requires IsRun(states, steps) && i < |steps|
    ensures steps[i] == Gate ==>
              && states[i].proc.Some? && states[i + 1].proc.Some?
              && states[i + 1].proc.value.run.Prepared?
              && SameContents(DbAt(states[i + 1], states[i + 1].proc.value.run.candidate), LiveDb(states[i]))
              && HasSession(LiveDb(states[i]))
    ensures steps[i] == SwapDurable || steps[i] == SwapAmbiguous ==>
              && states[i].proc.Some? && states[i + 1].proc.Some?
              && SameContents(LiveDb(states[i + 1]), LiveDb(states[i]))
              && (steps[i] == SwapAmbiguous ==> states[i + 1].proc.value.failed)
  {
    hide Inv, SameContents, NextGate, NextSwap, LiveDb, DbAt, HasSession;
    RunKeeps(states, steps, i);
    assert Next(states[i], steps[i]) == Some(states[i + 1]);
    if steps[i] == Gate { GateInstalls(states[i]); }
    if steps[i] == SwapDurable { SwapInstalls(states[i], true); }
    if steps[i] == SwapAmbiguous { SwapInstalls(states[i], false); }
  }

  // ---- overflow ------------------------------------------------------------------------------------

  /** A compaction whose session was dropped because the journal exceeded its bound. */
  predicate Doomed(s: System) {
    && s.proc.Some?
    && (var r := s.proc.value.run; r.Started? || r.Snapshotted? || r.Copying? || r.Ready?)
    && !HasSession(LiveDb(s))
  }

  predicate Over(s: System) { s.proc.None? || s.proc.value.run.Idle? }

  /** An oversized journal costs the writer nothing and dooms the compaction. */
  lemma OverflowDooms(s: System, ws: seq<Mutation>)
    requires Inv(s) && s.proc.Some? && NextCommit(s, ws, true).Some?
    requires var r := s.proc.value.run; r.Started? || r.Snapshotted? || r.Copying? || r.Ready?
    ensures Doomed(NextCommit(s, ws, true).value)
    ensures SameContents(Committed(LiveDb(s), ws, true), Committed(LiveDb(s), ws, false))
  {
    OverflowDrops(LiveDb(s), ws);
    OverflowIsInvisible(LiveDb(s), ws);
  }

  lemma OverflowDrops(live: Database, ws: seq<Mutation>)
    requires HealthyDb(live) && Committable(live, ws)
    ensures !HasSession(Committed(live, ws, true))
  {
    CommitEffect(live, ws, true);
  }

  lemma OverflowIsInvisible(live: Database, ws: seq<Mutation>)
    requires HealthyDb(live) && Committable(live, ws)
    ensures SameContents(Committed(live, ws, true), Committed(live, ws, false))
  {
    assert Core(Committed(live, ws, true)) == Core(SealedDb(live, ws)) by { JournalEffect(live, ws, true); }
    assert Core(Committed(live, ws, false)) == Core(SealedDb(live, ws)) by { JournalEffect(live, ws, false); }
    CoreIsContents(Committed(live, ws, true), Committed(live, ws, false));
  }

  lemma DoomedStep(s: System, step: Step)
    requires Inv(s) && Doomed(s) && Next(s, step).Some?
    ensures Doomed(Next(s, step).value) || Over(Next(s, step).value)
  {
    hide Inv, NextCommit, NextCopy, NextReplay, NextGate, NextAbort, NextReclaim, NextStray, HealthyDb, Committed, Visible;
    match step
    case Commit(ws, overflow) => DoomedCommit(s, ws, overflow);
    case StrayTemporary(n, id, content) => DoomedStray(s, n, id, content);
    case CopyCandidate(id) => DoomedCopy(s, id);
    case ReplayBatch(batch) => DoomedReplay(s, batch);
    case Gate => DoomedGate(s);
    case Abort(unlink) => DoomedAbort(s, unlink);
    case Reclaim(name, id, n, markerId) => DoomedReclaim(s, name, id, n, markerId);
    case _ =>
  }

  lemma DoomedCommit(s: System, ws: seq<Mutation>, overflow: bool)
    requires Inv(s) && Doomed(s) && NextCommit(s, ws, overflow).Some?
    ensures Doomed(NextCommit(s, ws, overflow).value)
  {
    hide CutsGood, CutsSelect, SelectedIn, TargetIn, SparesManifest, ManifestDemanded, Visible, Committed, RunInv;
    CommitSafe(LiveDb(s), ws, overflow);
  }

  lemma DoomedStray(s: System, n: nat, id: FileId, content: Content)
    requires Inv(s) && Doomed(s) && NextStray(s, n, id, content).Some?
    ensures Doomed(NextStray(s, n, id, content).value)
  {
    hide CutsGood, CutsSelect, SelectedIn, TargetIn, SparesManifest, ManifestDemanded, Visible, RunInv, HealthyDb, Core;
  }

  lemma DoomedCopy(s: System, id: FileId)
    requires Inv(s) && Doomed(s) && NextCopy(s, id).Some?
    ensures Doomed(NextCopy(s, id).value)
  {
    hide CutsGood, CutsSelect, SelectedIn, TargetIn, SparesManifest, ManifestDemanded, Visible, RunInv, HealthyDb, Core;
  }

  lemma DoomedReplay(s: System, batch: nat)
    requires Doomed(s)
    ensures NextReplay(s, batch).None?
  {}

  lemma DoomedAbort(s: System, unlink: bool)
    requires Inv(s) && Doomed(s) && NextAbort(s, unlink).Some?
    ensures Over(NextAbort(s, unlink).value)
  {
    hide Inv, Visible, Append;
  }

  lemma DoomedReclaim(s: System, name: FileName, id: FileId, n: nat, markerId: FileId)
    requires Inv(s) && Doomed(s) && NextReclaim(s, name, id, n, markerId).Some?
    ensures Doomed(NextReclaim(s, name, id, n, markerId).value)
  {
    hide CutsGood, CutsSelect, SelectedIn, TargetIn, SparesManifest, ManifestDemanded, Visible, RunInv, HealthyDb, Core;
  }

  lemma GapBlocks(c: Database, low: nat, live: Database)
    requires Tracking(c, low, live, true) && !HasSession(live)
    ensures !HasEntries(JournalOf(live), low, Generation(live))
  {}

  /** The gate misses a generation. */
  lemma DoomedGate(s: System)
    requires Inv(s) && Doomed(s)
    ensures NextGate(s).None?
  {
    var p := s.proc.value;
    if p.run.Ready? { GapBlocks(DbAt(s, p.run.candidate), p.run.replayed, LiveDb(s)); }
  }

  /** A doomed compaction never reaches the gate's far side: every later state is still
      doomed until one in which that compaction is over. */
  lemma {:induction false} OverflowNeverCutsOver(states: seq<System>, steps: seq<Step>, i: nat, j: nat)
    requires IsRun(states, steps) && i <= j < |states| && Doomed(states[i])
    ensures Doomed(states[j]) || exists k :: i < k <= j && Over(states[k])
    decreases j
  {
    hide Inv, Next, Doomed, Over;
    if i < j {
      OverflowNeverCutsOver(states, steps, i, j - 1);
      if !(exists k :: i < k <= j - 1 && Over(states[k])) {
        RunKeeps(states, steps, j - 1);
        assert Next(states[j - 1], steps[j - 1]) == Some(states[j]);
        DoomedStep(states[j - 1], steps[j - 1]);
      }
    }
  }

  // ---- crashes and reopening --------------------------------------------------------------------------

  /** At every crash point, of whatever step, the file that the surviving directory selects
      has the contents of the last acknowledged database; the reopened inbox serves them. */
  lemma CrashLosesNothing(states: seq<System>, steps: seq<Step>, i: nat, k: nat)
    requires IsRun(states, steps) && i < |states| && k <= |states[i].disk.pending|
    ensures var s := states[i]; var d := Cut(s.disk, k);
      && SelectedIn(d, s.disk.files).Some?
      && SameContents(DbAt(s, SelectedIn(d, s.disk.files).value), s.acked)
      && (Opens(d, s.disk.files) <==> ActiveManifest in d || !ManifestDemanded(s.acked))
  {
    RunKeeps(states, steps, i);
    var s := states[i];
    assert Good(Cut(s.disk, k), s.disk.files, s.acked);
    PreservedOpens(Cut(s.disk, k), s.disk.files, s.acked);
    CoreIsContents(DbAt(s, SelectedIn(Cut(s.disk, k), s.disk.files).value), s.acked);
  }

  /** In every state of every run: each crash point can be reopened if and only if the
      manifest is durable or the store does not demand one. */
  lemma ReopensIff(states: seq<System>, steps: seq<Step>, i: nat)
    requires IsRun(states, steps) && i < |states|
    ensures var s := states[i];
      (forall k :: 0 <= k <= |s.disk.pending| ==> Opens(Cut(s.disk, k), s.disk.files))
      <==> (ManifestDemanded(s.acked) ==> ActiveManifest in s.disk.durable)
  {
    hide Inv, Next, Opens, ManifestDemanded, SelectedIn, SameContents;
    RunKeeps(states, steps, i);
    var s := states[i];
    forall k | 0 <= k <= |s.disk.pending|
      ensures Opens(Cut(s.disk, k), s.disk.files) <==> ActiveManifest in Cut(s.disk, k) || !ManifestDemanded(s.acked)
    {
      CrashLosesNothing(states, steps, i, k);
    }
    if ActiveManifest in s.disk.durable { DurableManifest(s); } else { assert Cut(s.disk, 0) == s.disk.durable; }
  }

  lemma DurableManifest(s: System)
    requires Inv(s) && ActiveManifest in s.disk.durable
    ensures forall k :: 0 <= k <= |s.disk.pending| ==> ActiveManifest in Cut(s.disk, k)
  {
    forall k | 0 <= k <= |s.disk.pending| ensures ActiveManifest in Cut(s.disk, k) {
      ManifestSurvives(s.disk.durable, s.disk.pending[..k]);
    }
  }

  /** So a run in which no session was started under a manifest that was not durable can be
      reopened at every crash point. */
  lemma UnexposedReopens(states: seq<System>, steps: seq<Step>, i: nat, k: nat)
    requires IsRun(states, steps) && i < |states| && k <= |states[i].disk.pending|
    requires !states[i].exposed
    ensures Opens(Cut(states[i].disk, k), states[i].disk.files)
  {
    hide Next, Opens, ManifestDemanded;
    RunKeeps(states, steps, i);
    ReopensIff(states, steps, i);
  }

  /** Starting a session keeps every crash point reopenable exactly when the manifest it
      found is already durable. */
  lemma StartReopensIff(s: System)
    requires Inv(s) && !s.exposed && s.proc.Some? && NextStart(s).Some?
    requires !HasSession(LiveDb(s)) && Generation(LiveDb(s)) < MAX_UINT64
    ensures var s' := NextStart(s).value;
      (forall k :: 0 <= k <= |s'.disk.pending| ==> Opens(Cut(s'.disk, k), s'.disk.files))
      <==> ActiveManifest in s.disk.durable
  {
    StartKeeps(s);
    var s' := NextStart(s).value;
    StartEffect(LiveDb(s), s.proc.value.run.generation);
    forall k | 0 <= k <= |s'.disk.pending|
      ensures Opens(Cut(s'.disk, k), s'.disk.files) <==> ActiveManifest in Cut(s'.disk, k)
    {
      assert Good(Cut(s'.disk, k), s'.disk.files, s'.acked);
      PreservedOpens(Cut(s'.disk, k), s'.disk.files, s'.acked);
    }
    if ActiveManifest in s.disk.durable {
      forall k | 0 <= k <= |s'.disk.pending| ensures ActiveManifest in Cut(s'.disk, k) {
        ManifestSurvives(s'.disk.durable, s'.disk.pending[..k]);
      }
    } else {
      assert Cut(s'.disk, 0) == s.disk.durable;
    }
  }

  function LostStates(db: Database, generation: string): (states: seq<System>)
    ensures |states| == 6
  {
    var m := ManifestFile(Pointer(Anchor, StoreId(db), None, 0));
    var ops := [Link(Temporary(0), 1), Rename(Temporary(0), ActiveManifest)];
    var started := Committed(ResetDb(db), StartWrites(generation), false);
    var p := Process(Anchor, 0, false, "", Idle, {});
    var d := map[Anchor := 0];
    [ System(Disk(d, [], map[0 := DbFile(db)]), db, None, false),
      System(Disk(d, [], map[0 := DbFile(db)]), db, Some(p), false),
      System(Disk(d, ops, map[0 := DbFile(db)][1 := m]), db, Some(p), false),
      System(Disk(d, ops, map[0 := DbFile(db)][1 := m][0 := DbFile(ResetDb(db))]), db,
             Some(p.(run := JournalReset(generation))), false),
      System(Disk(d, ops, map[0 := DbFile(db)][1 := m][0 := DbFile(ResetDb(db))][0 := DbFile(started)]), started,
             Some(p.(owner := StoreId(db), run := Started(generation))), true),
      System(Disk(d, [], map[0 := DbFile(db)][1 := m][0 := DbFile(ResetDb(db))][0 := DbFile(started)]), started,
             None, true) ]
  }

  lemma LostVisible(disk: Disk, start: Disk)
    requires start.pending == [] && start.durable == disk.durable == map[Anchor := 0] && start.files == disk.files
    requires disk.pending == [Link(Temporary(0), 1), Rename(Temporary(0), ActiveManifest)]
    ensures Visible(disk) == map[Anchor := 0, ActiveManifest := 1]
  {
    AppendCuts(start, Link(Temporary(0), 1));
    var one := Append(start, Link(Temporary(0), 1));
    AppendCuts(one, Rename(Temporary(0), ActiveManifest));
    assert Append(one, Rename(Temporary(0), ActiveManifest)) == disk;
    assert Visible(start) == map[Anchor := 0];
  }

  lemma LostOpening(db: Database, generation: string)
    requires HealthyDb(db) && !HasSession(db) && !ManifestDemanded(db) && StorageGenerationOf(db) == None
    ensures var t := LostStates(db, generation); Next(t[0], Open) == Some(t[1])
  {
    hide Committed, StartWrites, HealthyDb;
    var t := LostStates(db, generation);
    assert Cut(t[0].disk, 0) == map[Anchor := 0];
    assert NextOpen(t[0]) == Some(t[1]);
  }

  lemma LostBootstrap(db: Database, generation: string)
    ensures var t := LostStates(db, generation); Next(t[1], Bootstrap(0, 1)) == Some(t[2])
  {
    hide Committed, StartWrites, NextOpen;
    var t := LostStates(db, generation);
    assert Visible(t[1].disk) == map[Anchor := 0];
    assert t[2].disk.pending == [] + [Link(Temporary(0), 1)] + [Rename(Temporary(0), ActiveManifest)];
    assert NextBootstrap(t[1], 0, 1) == Some(t[2]);
  }

  lemma LostReset(db: Database, generation: string)
    requires MutationJournal in db && HasVersion(db, V2)
    ensures var t := LostStates(db, generation); Next(t[2], ResetJournal(generation)) == Some(t[3])
  {
    hide Committed, StartWrites, NextOpen, Visible;
    var t := LostStates(db, generation);
    LostVisible(t[2].disk, t[1].disk.(files := t[2].disk.files));
    assert NextReset(t[2], generation) == Some(t[3]);
  }

  lemma LostStart(db: Database, generation: string)
    requires !HasSession(db) && Generation(db) < MAX_UINT64
    ensures var t := LostStates(db, generation); Next(t[3], StartSession) == Some(t[4])
  {
    hide Committed, StartWrites, NextOpen, Visible;
    var t := LostStates(db, generation);
    assert NextStart(t[3]) == Some(t[4]);
  }

  lemma LostCrash(db: Database, generation: string)
    requires HealthyDb(db) && MutationJournal in db && HasVersion(db, V2) && !HasSession(db)
    requires !ManifestDemanded(db) && StorageGenerationOf(db) == None && Generation(db) < MAX_UINT64
    ensures var t := LostStates(db, generation);
      Next(t[4], Crash(0)) == Some(t[5]) && NextOpen(t[5]) == None
  {
    hide Committed, StartWrites, StorageGenerationOf;
    var t := LostStates(db, generation);
    assert Cut(t[4].disk, 0) == map[Anchor := 0];
    assert NextCrash(t[4], 0) == Some(t[5]);
    assert Visible(t[5].disk) == map[Anchor := 0];
    var started := Committed(ResetDb(db), StartWrites(generation), false);
    assert ManifestDemanded(started) by { StartEffect(ResetDb(db), generation); }
    assert t[5].disk.files[0] == DbFile(started);
    assert SelectedIn(map[Anchor := 0], t[5].disk.files) == Some(0);
    assert PointerIn(map[Anchor := 0], t[5].disk.files) == None;
  }

  /** The failing family is real: on any version-2 store, a first publication whose directory
      sync fails, then a second attempt that starts its session, then a power loss, leave a
      store that no longer opens, although its contents are intact. */
  lemma LostManifest(db: Database, generation: string)
    requires HealthyDb(db) && MutationJournal in db && HasVersion(db, V2) && !HasSession(db)
    requires !ManifestDemanded(db) && StorageGenerationOf(db) == None && Generation(db) < MAX_UINT64
    ensures var states := LostStates(db, generation);
      && IsRun(states, [Open, Bootstrap(0, 1), ResetJournal(generation), StartSession, Crash(0)])
      && states[5].proc == None && NextOpen(states[5]) == None
      && SameContents(DbAt(states[5], 0), states[5].acked)
  {
    hide Next, NextOpen, Committed, StartWrites, HealthyDb, ResetDb;
    var t := LostStates(db, generation);
    LostOpening(db, generation);
    LostBootstrap(db, generation);
    LostReset(db, generation);
    LostStart(db, generation);
    LostCrash(db, generation);
    assert t[5].disk.files[0] == DbFile(t[5].acked);
    CoreIsContents(DbAt(t[5], 0), t[5].acked);
    var steps := [Open, Bootstrap(0, 1), ResetJournal(generation), StartSession, Crash(0)];
    forall i | 0 <= i < 5 ensures Next(t[i], steps[i]) == Some(t[i + 1]) {
      assert i == 0 || i == 1 || i == 2 || i == 3 || i == 4;
    }
  }

  /** The file the visible manifest names is the same, and so are its contents. */
  predicate SameFileNamed(s: System, s': System) {
    && TargetIn(Visible(s'.disk), s'.disk.files) == TargetIn(Visible(s.disk), s.disk.files)
    && SelectedIn(Visible(s'.disk), s'.disk.files) == SelectedIn(Visible(s.disk), s.disk.files)
    && SelectedIn(Visible(s.disk), s.disk.files).Some?
    && (var id := SelectedIn(Visible(s.disk), s.disk.files).value; IsDb(s'.disk.files, id) && DbAt(s', id) == DbAt(s, id))
  }

  /** The process serves and names the same files; files that were there are still there. */
  predicate OnlyNewFiles(s: System, s': System) {
    && s.proc.Some? && s'.proc.Some?
    && NamedId(s'.proc.value) == NamedId(s.proc.value) && NamedFile(s'.proc.value) == NamedFile(s.proc.value)
    && forall id <- s.disk.files :: id in s'.disk.files && s'.disk.files[id] == s.disk.files[id]
  }

  lemma ReclaimAdds(s: System, name: FileName, id: FileId, n: nat, markerId: FileId)
    requires s.proc.Some? && NextReclaim(s, name, id, n, markerId).Some?
    ensures OnlyNewFiles(s, NextReclaim(s, name, id, n, markerId).value)
  {
    hide Visible;
  }

  lemma CleanupAdds(s: System, generation: string)
    requires s.proc.Some? && NextCleanup(s, generation).Some?
    ensures OnlyNewFiles(s, NextCleanup(s, generation).value)
  {
    hide Visible, PointerIn, SessionOf, StorageGenerationOf;
  }

  lemma AbortAdds(s: System, unlink: bool)
    requires s.proc.Some? && NextAbort(s, unlink).Some?
    ensures OnlyNewFiles(s, NextAbort(s, unlink).value)
  {
    hide Visible;
  }

  lemma NamedStays(s: System, s': System)
    requires Inv(s) && Inv(s') && OnlyNewFiles(s, s')
    ensures SameFileNamed(s, s')
  {
    hide CutsSelect, SelectedIn, TargetIn, SparesManifest, ManifestDemanded, HealthyDb, Core;
    assert Good(Visible(s.disk), s.disk.files, s.acked);
  }

  /** Reclaiming an old generation, cleaning up a shadow and aborting a run never touch the
      file the visible manifest names, while a publication is under way included. */
  lemma NamedFileStays(states: seq<System>, steps: seq<Step>, i: nat)
    requires IsRun(states, steps) && i < |steps|
    requires steps[i].Reclaim? || steps[i].CleanupCandidate? || steps[i].Abort?
    ensures SameFileNamed(states[i], states[i + 1])
  {
    hide Inv, OnlyNewFiles, SameFileNamed, NextReclaim, NextCleanup, NextAbort, DbAt;
    RunKeeps(states, steps, i);
    RunKeeps(states, steps, i + 1);
    assert Next(states[i], steps[i]) == Some(states[i + 1]);
    match steps[i] {
      case Reclaim(name, id, n, markerId) => ReclaimAdds(states[i], name, id, n, markerId);
      case CleanupCandidate(generation) => CleanupAdds(states[i], generation);
      case Abort(unlink) => AbortAdds(states[i], unlink);
    }
    NamedStays(states[i], states[i + 1]);
  }
}
