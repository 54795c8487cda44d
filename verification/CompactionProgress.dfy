/** A compaction is not only safe: unless its session was dropped, the inbox failed or the lag
    is too large, it goes through. */
module CompactionProgress {
  import opened Types
  import opened Store
  import opened Gateway
  import opened Directories
  import opened Replay
  import opened Compaction
  import opened CompactionSafety
  import opened CompactionSteps
  import opened CompactionTheorems

  // ---- replay and the gate ---------------------------------------------------------------------------

  /** What the invariant says about a candidate that is being caught up. */
  lemma CandidateTracks(s: System)
    requires Inv(s) && s.proc.Some? && (s.proc.value.run.Copying? || s.proc.value.run.Ready?)
    ensures var p := s.proc.value;
      && p.owner == StoreId(LiveDb(s)) && SessionMine(LiveDb(s), p.run.generation) && p.run.candidate != p.liveId
      && IsDb(s.disk.files, p.run.candidate)
      && Tracking(DbAt(s, p.run.candidate), p.run.replayed, LiveDb(s), if p.run.Ready? then true else p.run.checked)
  {
    hide CutsGood, CutsSelect, SelectedIn, TargetIn, SparesManifest, HealthyDb, ManifestDemanded, Core, Visible, Tracking;
  }

  /** Tracking means that any stretch of generations can be replayed. */
  lemma StretchReplays(c: Database, low: nat, high: nat, live: Database)
    requires Tracks(c, low, live) && low <= high <= Generation(live)
    ensures HasEntries(JournalOf(live), low, high) && ReplayAccepts(c, JournalOf(live), low, high)
  {
    hide Core, Generation;
    ReplaySplits(c, JournalOf(live), low, high, Generation(live));
  }

  /** A replay batch goes through exactly while the session is there. */
  lemma ReplayPossibleIff(s: System, batch: nat)
    requires Inv(s) && s.proc.Some? && s.proc.value.run.Copying?
    ensures NextReplay(s, batch).Some? <==> HasSession(LiveDb(s))
    ensures NextReplay(s, batch).Some? ==>
      var t, low, final := NextReplay(s, batch).value, s.proc.value.run.replayed, Generation(LiveDb(s));
      && t.proc.Some? && t.proc.value == s.proc.value.(run := s.proc.value.run.(replayed := low + Min(final - low, batch), checked := true))
      && t.disk == s.disk.(files := t.disk.files) && t.disk.files.Keys == s.disk.files.Keys && LiveDb(t) == LiveDb(s) && t.acked == s.acked
  {
    hide Inv, Tracks, Replayed, ReplayAccepts, HasEntries, Core;
    CandidateTracks(s);
    var p, live := s.proc.value, LiveDb(s);
    var low := p.run.replayed;
    if HasSession(live) {
      StretchReplays(DbAt(s, p.run.candidate), low, low + Min(Generation(live) - low, batch), live);
    }
  }

  /** The gate opens exactly when the inbox has not failed, the session was never dropped and
      at most the permitted number of generations is left. */
  lemma GatePossibleIff(s: System)
    requires Inv(s) && s.proc.Some? && s.proc.value.run.Ready?
    ensures NextGate(s).Some? <==>
      && !s.proc.value.failed && HasSession(LiveDb(s)) && Generation(LiveDb(s)) - s.proc.value.run.replayed <= GATE_LAG
    ensures NextGate(s).Some? ==>
      var t, p := NextGate(s).value, s.proc.value;
      && t.proc.Some? && t.proc.value == p.(run := Prepared(p.run.generation, p.run.candidate, Generation(LiveDb(s))))
      && t.disk == s.disk.(files := t.disk.files) && t.disk.files.Keys == s.disk.files.Keys && t.acked == s.acked
  {
    hide Inv, Tracks, Replayed, ReplayAccepts, HasEntries, Core, CutoverDb, StoreId, Generation;
    CandidateTracks(s);
    var p, live := s.proc.value, LiveDb(s);
    if HasSession(live) {
      CaughtUp(DbAt(s, p.run.candidate), p.run.replayed, live);
    } else {
      GapBlocks(DbAt(s, p.run.candidate), p.run.replayed, live);
    }
  }

  lemma CaughtUp(c: Database, low: nat, live: Database)
    requires Tracking(c, low, live, true) && HasSession(live)
    ensures low <= Generation(live) && HasEntries(JournalOf(live), low, Generation(live)) && ReplayAccepts(c, JournalOf(live), low, Generation(live))
    ensures var d := Replayed(c, JournalOf(live), low, Generation(live)); StoreId(d) == StoreId(live) && Generation(d) == Generation(live)
  {
    hide Core, Replayed, ReplayAccepts;
    var d := Replayed(c, JournalOf(live), low, Generation(live));
    CoreLookup(d, live);
    assert Get(d, Meta, Field(MutationGeneration)) == Get(live, Meta, Field(MutationGeneration));
    assert Get(d, Meta, Field(Identity)) == Get(live, Meta, Field(Identity));
  }

  // ---- publication and swap ------------------------------------------------------------------------------

  /** Names and file ids that nothing uses yet. */
  predicate Unused(s: System, n: nat, id: FileId) { Temporary(n) !in Visible(s.disk) && id !in s.disk.files }

  lemma CandidateNamed(s: System)
    requires Inv(s) && s.proc.Some? && s.proc.value.run.HasCandidate()
    ensures var p := s.proc.value; Named(Visible(s.disk), GenerationFile(p.run.generation), p.run.candidate)
    ensures Named(Visible(s.disk), NamedFile(s.proc.value), NamedId(s.proc.value))
  {
    hide CutsGood, CutsSelect, SparesManifest, HealthyDb, ManifestDemanded, Core, RunInv;
  }

  lemma PublishPossible(s: System, n: nat, id: FileId)
    requires Inv(s) && s.proc.Some? && s.proc.value.run.Prepared? && Unused(s, n, id)
    ensures NextPublish(s, n, id).Some?
    ensures var t, p := NextPublish(s, n, id).value, s.proc.value;
      && t.proc.Some? && t.proc.value == p.(run := Renamed(p.run.generation, p.run.candidate)) && t.acked == s.acked
      && Visible(t.disk) == (Visible(s.disk)[Temporary(n) := id] - {Temporary(n)})[ActiveManifest := id]
  {
    hide Inv, Visible;
    CandidateNamed(s);
    var p := s.proc.value;
    var m := Pointer(GenerationFile(p.run.generation), p.owner, Some(p.run.generation), p.run.final);
    var d := s.disk.(files := s.disk.files[id := ManifestFile(m)]);
    AppendCuts(d, Link(Temporary(n), id));
    AppendCuts(Append(d, Link(Temporary(n), id)), Rename(Temporary(n), ActiveManifest));
    SameDirectory(s.disk, d);
  }

  lemma SameDirectory(a: Disk, b: Disk)
    requires a.durable == b.durable && a.pending == b.pending
    ensures Visible(a) == Visible(b)
  {}

  lemma SwapPossible(s: System)
    requires s.proc.Some? && s.proc.value.run.Renamed?
    ensures NextSwap(s, true).Some?
    ensures var t, p := NextSwap(s, true).value, s.proc.value;
      && t.acked == s.acked && t.disk == Synced(s.disk)
      && t.proc == Some(p.(live := GenerationFile(p.run.generation), liveId := p.run.candidate, run := Idle, retired := p.retired + {(p.live, p.liveId)}))
  {}

  /** The candidate is the open file, its manifest is durable, and it holds what was acknowledged. */
  ghost predicate Swapped(t: System, s: System, generation: string, candidate: FileId) {
    && t.proc.Some? && !t.proc.value.failed && t.proc.value.run.Idle?
    && t.proc.value.live == GenerationFile(generation) && t.proc.value.liveId == candidate
    && t.acked == s.acked && SameContents(LiveDb(t), t.acked)
    && t.disk.pending == [] && ActiveManifest in t.disk.durable
    && TargetIn(t.disk.durable, t.disk.files) == Some(GenerationFile(generation))
  }

  /** From a ready candidate the gate, the publication and the swap go through, the old file can
      be reclaimed, and the open file is the candidate with everything acknowledged. */
  lemma GateCompletes(s: System, n: nat, id: FileId) returns (gated: System, published: System, t: System)
    requires Inv(s) && s.proc.Some? && s.proc.value.run.Ready? && Unused(s, n, id)
    requires !s.proc.value.failed && HasSession(LiveDb(s)) && Generation(LiveDb(s)) - s.proc.value.run.replayed <= GATE_LAG
    ensures Next(s, Gate) == Some(gated) && Next(gated, Publish(n, id)) == Some(published) && Next(published, SwapDurable) == Some(t)
    ensures Inv(t) && Swapped(t, s, s.proc.value.run.generation, s.proc.value.run.candidate)
    ensures (s.proc.value.live, s.proc.value.liveId) in t.proc.value.retired
    ensures Named(Visible(t.disk), s.proc.value.live, s.proc.value.liveId)
  {
    hide Inv, NextGate, NextPublish, NextSwap, Visible, LiveDb, Generation, HasSession, Swapped;
    var p := s.proc.value;
    GatePossibleIff(s);
    gated := NextGate(s).value;
    StepKeeps(s, Gate);
    SameDirectory(s.disk, gated.disk);
    CandidateNamed(s);
    PublishPossible(gated, n, id);
    published := NextPublish(gated, n, id).value;
    StepKeeps(gated, Publish(n, id));
    SwapPossible(published);
    t := NextSwap(published, true).value;
    StepKeeps(published, SwapDurable);
    SyncedVisible(published.disk);
    SwapServes(t, s, p.run.generation, p.run.candidate);
    OldNames(s);
  }

  lemma OldNames(s: System)
    requires Inv(s) && s.proc.Some? && !s.proc.value.run.Switched()
    ensures s.proc.value.live.Anchor? || s.proc.value.live.GenerationFile?
    ensures Named(Visible(s.disk), s.proc.value.live, s.proc.value.liveId)
  {
    hide CutsGood, CutsSelect, SparesManifest, HealthyDb, ManifestDemanded, Core, RunInv;
  }

  lemma SyncedVisible(d: Disk)
    ensures Visible(Synced(d)) == Visible(d) && Synced(d).pending == [] && Synced(d).durable == Visible(d)
  {
    SyncedCuts(d);
  }

  lemma SwapServes(t: System, s: System, generation: string, candidate: FileId)
    requires Inv(t) && t.proc.Some? && !t.proc.value.failed && t.proc.value.run.Idle?
    requires t.proc.value.live == GenerationFile(generation) && t.proc.value.liveId == candidate && t.acked == s.acked
    requires t.disk.pending == [] && ActiveManifest in t.disk.durable && Visible(t.disk) == t.disk.durable
    ensures Swapped(t, s, generation, candidate)
  {
    hide CutsGood, CutsSelect, SparesManifest, HealthyDb, ManifestDemanded, Core, RunInv, SelectedIn, TargetIn, SameContents;
    CoreIsContents(LiveDb(t), t.acked);
  }

  lemma ReclaimPossible(t: System, name: FileName, was: FileId, n: nat, id: FileId)
    requires t.proc.Some? && (name, was) in t.proc.value.retired && Named(Visible(t.disk), name, was) && Unused(t, n, id)
    requires name.Anchor? || name.GenerationFile?
    ensures NextReclaim(t, name, was, n, id).Some?
  {
    hide Visible;
  }

  /** There is always an unused name and an unused file id. */
  lemma SomeUnused(s: System) returns (n: nat, id: FileId)
    ensures Unused(s, n, id)
  {
    hide Visible;
    var taken := set name | name in Visible(s.disk) && name.Temporary? :: name.n;
    n := Above(taken);
    assert forall name <- Visible(s.disk) :: name.Temporary? ==> name.n in taken;
    assert forall name <- Visible(s.disk) :: name.Temporary? ==> name.n < n;
    id := Above(s.disk.files.Keys);
  }

  lemma {:induction false} Above(xs: set<nat>) returns (n: nat)
    ensures forall x <- xs :: x < n
  {
    if xs == {} {
      n := 0;
    } else {
      var x :| x in xs;
      var m := Above(xs - {x});
      n := if x < m then m else x + 1;
      assert forall y <- xs :: y == x || y in xs - {x};
    }
  }

  // ---- a whole compaction, from an idle inbox ---------------------------------------------------------------

  /** Without a manifest the first one can be published, and made durable. */
  lemma BootstrapPossible(s: System, n: nat, id: FileId)
    requires Inv(s) && s.proc.Some? && s.proc.value.run.Idle? && !s.proc.value.failed
    requires ActiveManifest !in Visible(s.disk) && Unused(s, n, id)
    ensures NextBootstrap(s, n, id).Some?
    ensures var t := NextBootstrap(s, n, id).value; t.proc == s.proc && t.acked == s.acked && LiveDb(t) == LiveDb(s)
    ensures ActiveManifest in Visible(NextBootstrap(s, n, id).value.disk)
  {
    hide Inv, Visible;
    var m := Pointer(s.proc.value.live, StoreId(LiveDb(s)), None, 0);
    var d := s.disk.(files := s.disk.files[id := ManifestFile(m)]);
    AppendCuts(d, Link(Temporary(n), id));
    AppendCuts(Append(d, Link(Temporary(n), id)), Rename(Temporary(n), ActiveManifest));
    SameDirectory(s.disk, d);
    LiveExists(s);
  }

  lemma LiveExists(s: System)
    requires Inv(s) && s.proc.Some?
    ensures IsDb(s.disk.files, s.proc.value.liveId) && HealthyDb(LiveDb(s))
  {
    hide CutsGood, CutsSelect, SparesManifest, ManifestDemanded, Core, RunInv, SelectedIn, TargetIn, Visible;
  }

  lemma PointerReadable(s: System)
    requires Inv(s) && ActiveManifest in Visible(s.disk)
    ensures PointerIn(Visible(s.disk), s.disk.files).Some?
  {
    hide ProcInv, HealthyDb, Core, SparesManifest, ManifestDemanded, PointerAdmits;
    assert Good(Visible(s.disk), s.disk.files, s.acked);
  }

  /** A compaction may start: version 2, no session left, a generation to spare, a manifest in
      place and a name for the new generation. */
  predicate CanStart(s: System, generation: string) {
    && s.proc.Some? && s.proc.value.run.Idle? && !s.proc.value.failed
    && HasVersion(LiveDb(s), V2) && MutationJournal in LiveDb(s) && !HasSession(LiveDb(s)) && Generation(LiveDb(s)) < MAX_UINT64
    && ActiveManifest in Visible(s.disk) && GenerationFile(generation) !in Visible(s.disk)
  }

  /** The live database once the session has started. */
  function SessionDb(s: System, generation: string): Database requires s.proc.Some? {
    Committed(ResetDb(LiveDb(s)), StartWrites(generation), false)
  }

  lemma StartPossible(s: System, generation: string) returns (a: System, b: System)
    requires Inv(s) && CanStart(s, generation)
    ensures Next(s, ResetJournal(generation)) == Some(a) && Next(a, StartSession) == Some(b) && Inv(b)
    ensures b.proc.Some? && b.proc.value.run == Started(generation) && !b.proc.value.failed
    ensures b.proc.value.live == s.proc.value.live && b.proc.value.liveId == s.proc.value.liveId
    ensures LiveDb(b) == b.acked == SessionDb(s, generation) && SessionOf(LiveDb(b), generation)
    ensures Visible(b.disk) == Visible(s.disk)
  {
    hide Inv, PointerIn, Committed, StartWrites, HealthyDb, JournalOf, Cut;
    PointerReadable(s);
    LiveExists(s);
    a := NextReset(s, generation).value;
    StepKeeps(s, ResetJournal(generation));
    ResetKeepsSession(LiveDb(s));
    b := NextStart(a).value;
    StepKeeps(a, StartSession);
    LiveExists(a);
    ResetJournalOf(LiveDb(s));
    StartEffect(LiveDb(a), generation);
    SameDirectory(s.disk, b.disk);
  }

  lemma ResetKeepsSession(db: Database)
    requires MutationJournal in db
    ensures HasSession(ResetDb(db)) == HasSession(db) && Generation(ResetDb(db)) == Generation(db) && MutationJournal in ResetDb(db)
  {}

  lemma ResetJournalOf(db: Database)
    ensures JournalOf(ResetDb(db)) == map[]
  {}

  lemma CopyPossible(s: System, id: FileId) returns (a: System, b: System)
    requires Inv(s) && s.proc.Some? && s.proc.value.run.Started? && id !in s.disk.files
    requires GenerationFile(s.proc.value.run.generation) !in Visible(s.disk)
    ensures Next(s, TakeSnapshot) == Some(a) && Next(a, CopyCandidate(id)) == Some(b) && Inv(b)
    ensures b.proc == Some(s.proc.value.(run := Copying(s.proc.value.run.generation, id, Generation(LiveDb(s)), false)))
    ensures LiveDb(b) == LiveDb(s) && b.acked == s.acked
  {
    hide Inv, Visible;
    LiveExists(s);
    a := NextSnapshot(s).value;
    StepKeeps(s, TakeSnapshot);
    b := NextCopy(a, id).value;
    StepKeeps(a, CopyCandidate(id));
  }

  lemma CatchUpPossible(s: System, batch: nat) returns (a: System, b: System)
    requires Inv(s) && s.proc.Some? && s.proc.value.run.Copying? && HasSession(LiveDb(s))
    requires Generation(LiveDb(s)) <= s.proc.value.run.replayed + batch
    ensures Next(s, ReplayBatch(batch)) == Some(a) && Next(a, CatchUp) == Some(b) && Inv(b)
    ensures b.proc == Some(s.proc.value.(run := Ready(s.proc.value.run.generation, s.proc.value.run.candidate, Generation(LiveDb(s)))))
    ensures LiveDb(b) == LiveDb(s) && b.acked == s.acked
  {
    hide Inv, NextReplay, Visible, Tracks, Core;
    ReplayPossibleIff(s, batch);
    CandidateTracks(s);
    a := NextReplay(s, batch).value;
    StepKeeps(s, ReplayBatch(batch));
    b := NextCatchUp(a).value;
    StepKeeps(a, CatchUp);
  }

  ghost predicate IsPath(states: seq<System>, steps: seq<Step>) {
    |states| == |steps| + 1 && forall i :: 0 <= i < |steps| ==> Next(states[i], steps[i]) == Some(states[i + 1])
  }

  lemma PathGrows(states: seq<System>, steps: seq<Step>, step: Step, t: System)
    requires IsPath(states, steps) && Next(states[|steps|], step) == Some(t)
    ensures IsPath(states + [t], steps + [step])
  {
    hide Next;
  }

  /** From every idle inbox that can start one, a compaction runs to its end: session, copy,
      catch-up, gate, publication and swap, and the open file is the new generation with the
      contents of what was acknowledged when the session started. */
  lemma CompactionCompletes(s: System, generation: string) returns (states: seq<System>, steps: seq<Step>)
    requires Inv(s) && CanStart(s, generation)
    ensures IsPath(states, steps) && states[0] == s && |steps| == 9
    ensures var t := states[|steps|];
      && Inv(t) && t.proc.Some? && !t.proc.value.failed && t.proc.value.run.Idle?
      && t.proc.value.live == GenerationFile(generation) && t.disk.pending == []
      && t.acked == SessionDb(s, generation) && SameContents(LiveDb(t), t.acked)
  {
    hide Inv, Next, CanStart, SessionDb, LiveDb, Visible, SameContents, Generation;
    var a, b := StartPossible(s, generation);
    CanStartNames(s, generation);
    var n, id := SomeUnused(b);
    var c, d := CopyPossible(b, id);
    SessionThere(LiveDb(d), generation);
    var e, f := CatchUpPossible(d, REPLAY_BATCH);
    var n2, id2 := SomeUnused(f);
    var g, h, t := GateCompletes(f, n2, id2);
    states, steps := [s], [];
    PathGrows(states, steps, ResetJournal(generation), a);
    states, steps := states + [a], steps + [ResetJournal(generation)];
    PathGrows(states, steps, StartSession, b);
    states, steps := states + [b], steps + [StartSession];
    PathGrows(states, steps, TakeSnapshot, c);
    states, steps := states + [c], steps + [TakeSnapshot];
    PathGrows(states, steps, CopyCandidate(id), d);
    states, steps := states + [d], steps + [CopyCandidate(id)];
    PathGrows(states, steps, ReplayBatch(REPLAY_BATCH), e);
    states, steps := states + [e], steps + [ReplayBatch(REPLAY_BATCH)];
    PathGrows(states, steps, CatchUp, f);
    states, steps := states + [f], steps + [CatchUp];
    PathGrows(states, steps, Gate, g);
    states, steps := states + [g], steps + [Gate];
    PathGrows(states, steps, Publish(n2, id2), h);
    states, steps := states + [h], steps + [Publish(n2, id2)];
    PathGrows(states, steps, SwapDurable, t);
    states, steps := states + [t], steps + [SwapDurable];
  }

  lemma CanStartNames(s: System, generation: string)
    requires CanStart(s, generation)
    ensures GenerationFile(generation) !in Visible(s.disk)
  {}

  lemma SessionThere(db: Database, generation: string)
    requires SessionOf(db, generation)
    ensures HasSession(db)
  {}

  // ---- giving up ------------------------------------------------------------------------------------------

  /** Before publication a compaction can always be given up, its candidate removed or left. */
  lemma AbortPossible(s: System, unlink: bool)
    requires Inv(s) && s.proc.Some? && !s.proc.value.run.Idle? && !s.proc.value.run.Switched()
    ensures NextAbort(s, unlink).Some?
    ensures var t := NextAbort(s, unlink).value; t.proc == Some(s.proc.value.(run := Idle)) && LiveDb(t) == LiveDb(s) && t.acked == s.acked
  {
    hide Inv, Visible;
    if s.proc.value.run.HasCandidate() { CandidateNamed(s); }
  }

  /** The shadow of an interrupted run: another generation's database of this store. */
  predicate Shadow(s: System, generation: string) requires s.proc.Some? {
    var d, name := Visible(s.disk), GenerationFile(generation);
    && name in d && name != s.proc.value.live && IsDb(s.disk.files, d[name])
    && StoreId(DbAt(s, d[name])) == StoreId(LiveDb(s))
    && (SessionOf(DbAt(s, d[name]), generation) || StorageGenerationOf(DbAt(s, d[name])) == Some(generation))
  }

  /** A shadow is cleaned up exactly when the inbox is idle and a manifest is in place; what the
      manifest says never stands in the way. */
  lemma CleanupPossibleIff(s: System, generation: string)
    requires Inv(s) && s.proc.Some?
    ensures NextCleanup(s, generation).Some? <==>
      !s.proc.value.failed && s.proc.value.run.Idle? && ActiveManifest in Visible(s.disk) && Shadow(s, generation)
  {
    hide Inv, Visible, SessionOf, StorageGenerationOf, PointerIn;
    if ActiveManifest in Visible(s.disk) { PointerReadable(s); }
    if ActiveManifest in Visible(s.disk) && s.proc.value.run.Idle? { PointerIsLive(s); }
    PointerNeedsManifest(Visible(s.disk), s.disk.files);
  }

  lemma PointerNeedsManifest(d: Directory, files: Files)
    ensures PointerIn(d, files).Some? ==> ActiveManifest in d
  {}

  lemma PointerIsLive(s: System)
    requires Inv(s) && s.proc.Some? && s.proc.value.run.Idle? && ActiveManifest in Visible(s.disk)
    ensures PointerIn(Visible(s.disk), s.disk.files).Some?
    ensures var m := PointerIn(Visible(s.disk), s.disk.files).value; m.file == s.proc.value.live && m.storeId == StoreId(LiveDb(s))
  {
    hide CutsSelect, HealthyDb, Core, SparesManifest, ManifestDemanded, RunInv, Visible, Generation, StorageGenerationOf, PointerIn;
    VisibleAdmits(s);
  }

  lemma VisibleAdmits(s: System)
    requires Inv(s) && ActiveManifest in Visible(s.disk)
    ensures var d := Visible(s.disk);
      && PointerIn(d, s.disk.files).Some? && SelectedIn(d, s.disk.files).Some?
      && PointerIn(d, s.disk.files).value.storeId == StoreId(DbAt(s, SelectedIn(d, s.disk.files).value))
  {
    hide ProcInv, HealthyDb, Core, SparesManifest, ManifestDemanded, Generation, StorageGenerationOf;
    assert Good(Visible(s.disk), s.disk.files, s.acked);
  }

  // ---- reopening ----------------------------------------------------------------------------------------------

  /** A stopped inbox opens exactly when the manifest its store demands is there and, if an
      interrupted session is to be dropped, a generation is left for that; what it then serves
      has no session and is the acknowledged database, or that with the session dropped. */
  lemma OpenPossibleIff(s: System) returns (found: Database)
    requires Inv(s) && s.proc.None?
    ensures SameContents(found, s.acked)
    ensures NextOpen(s).Some? <==>
      && (ManifestDemanded(s.acked) ==> ActiveManifest in Visible(s.disk))
      && (HasSession(found) ==> Generation(found) < MAX_UINT64)
    ensures NextOpen(s).Some? ==>
      var t := NextOpen(s).value;
      && t.proc.Some? && !t.proc.value.failed && t.proc.value.run.Idle? && !HasSession(LiveDb(t)) && t.acked == LiveDb(t)
      && LiveDb(t) == (if HasSession(found) then Committed(found, DropWrites, false) else found)
  {
    hide CutsGood, Core, HealthyDb, SparesManifest, Committed, DropWrites, Visible, SelectedIn, ManifestDemanded, SameContents, Generation, Opens;
    VisibleGood(s);
    var d := Visible(s.disk);
    PreservedOpens(d, s.disk.files, s.acked);
    var id := SelectedIn(d, s.disk.files).value;
    found := DbAt(s, id);
    CoreIsContents(found, s.acked);
    if HasSession(found) { DropEffect(found); }
    OpensNamed(d, s.disk.files);
  }

  lemma VisibleGood(s: System)
    requires Inv(s)
    ensures var d := Visible(s.disk);
      && Preserves(d, s.disk.files, s.acked) && SelectedIn(d, s.disk.files).Some?
      && IsDb(s.disk.files, SelectedIn(d, s.disk.files).value)
      && HealthyDb(DbAt(s, SelectedIn(d, s.disk.files).value)) && Core(DbAt(s, SelectedIn(d, s.disk.files).value)) == Core(s.acked)
  {
    hide ProcInv, HealthyDb, Core, SparesManifest, ManifestDemanded, PointerAdmits;
    assert Good(Visible(s.disk), s.disk.files, s.acked);
  }

  lemma OpensNamed(d: Directory, files: Files)
    ensures Opens(d, files) ==> TargetIn(d, files).Some? && SelectedIn(d, files).Some?
  {
    hide PointerIn, PointerAdmits, ManifestDemanded;
  }
}
