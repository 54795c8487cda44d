/** Log shipping: the journal kept while a compaction session is open, and its replay onto
    the candidate. */
module Replay {
  import opened Types
  import opened Store
  import opened Gateway

  type Journal = map<Key, Value>

  predicate HasEntry(j: Journal, g: nat) { Seq(g) in j && j[Seq(g)].WriteSet? }

  predicate HasEntries(j: Journal, low: nat, high: nat) {
    forall g :: low < g <= high ==> HasEntry(j, g)
  }

  function EntryAt(j: Journal, g: nat): seq<Mutation> {
    if HasEntry(j, g) then j[Seq(g)].ws else []
  }

  /** The candidate after the write-sets of generations low+1..high. */
  function Replayed(c: Database, j: Journal, low: nat, high: nat): Database
    decreases high
  {
    if high <= low then c else ApplyAll(Replayed(c, j, low, high - 1), EntryAt(j, high))
  }

  /** `applyMutations` would not refuse any of these write-sets. */
  predicate ReplayAccepts(c: Database, j: Journal, low: nat, high: nat)
    decreases high
  {
    high <= low ||
    (ReplayAccepts(c, j, low, high - 1) && Admits(Replayed(c, j, low, high - 1), EntryAt(j, high)))
  }

  lemma {:induction false} ReplaySplits(c: Database, j: Journal, low: nat, mid: nat, high: nat)
    requires low <= mid <= high
    ensures Replayed(c, j, low, high) == Replayed(Replayed(c, j, low, mid), j, mid, high)
    ensures ReplayAccepts(c, j, low, high) <==> ReplayAccepts(c, j, low, mid) && ReplayAccepts(Replayed(c, j, low, mid), j, mid, high)
    decreases high
  {
    if mid < high { ReplaySplits(c, j, low, mid, high - 1); }
  }

  lemma {:induction false} ReplayFrame(c: Database, j: Journal, j': Journal, low: nat, high: nat)
    requires forall g :: low < g <= high ==> EntryAt(j, g) == EntryAt(j', g)
    ensures Replayed(c, j, low, high) == Replayed(c, j', low, high)
    ensures ReplayAccepts(c, j, low, high) <==> ReplayAccepts(c, j', low, high)
    decreases high
  {
    if low < high { ReplayFrame(c, j, j', low, high - 1); }
  }

  function JournalOf(db: Database): Journal { Rows(db, MutationJournal) }

  /** An entry is a write-set of a generation up to `high` that replay can apply. */
  predicate EntryOk(j: Journal, k: Key, high: nat) requires k in j {
    && k.Seq? && 0 < k.n <= high && j[k].WriteSet? && j[k].ws != []
    && forall w <- j[k].ws :: w.bucket != MutationJournal
  }

  predicate JournalWithin(j: Journal, high: nat) { forall k <- j :: EntryOk(j, k, high) }

  predicate JournalBounded(db: Database) { JournalWithin(JournalOf(db), Generation(db)) }

  /** The candidate `c` taken at generation `low` reaches the live database by replaying
      exactly the journalled write-sets after `low`, none of which is missing or refused. */
  predicate Tracks(c: Database, low: nat, live: Database) {
    && low <= Generation(live)
    && HasEntries(JournalOf(live), low, Generation(live))
    && (forall g :: low < g <= Generation(live) ==> forall w <- EntryAt(JournalOf(live), g) :: Replayable(w))
    && ReplayAccepts(c, JournalOf(live), low, Generation(live))
    && Core(Replayed(c, JournalOf(live), low, Generation(live))) == Core(live)
  }

  /** Some generation after `low` was committed without a journal entry. */
  predicate HasGap(low: nat, live: Database) {
    exists g :: low < g <= Generation(live) && !HasEntry(JournalOf(live), g)
  }

  predicate Committable(live: Database, ws: seq<Mutation>) {
    && ws != [] && DomainWrites(ws) && Applicable(live, ws)
    && (HasSession(live) ==> forall w <- ws :: Replayable(w))
  }

  lemma SealingReplayable(live: Database, ws: seq<Mutation>)
    requires Committable(live, ws) && HasSession(live)
    ensures forall w <- Sealing(live, ws) :: Replayable(w)
  {}

  lemma CommitJournals(live: Database, ws: seq<Mutation>)
    requires Committable(live, ws) && Meta in live && MutationJournal in live && HasSession(live)
    ensures var next := Committed(live, ws, false);
      && JournalOf(next) == JournalOf(live)[Seq(Generation(live) + 1) := WriteSet(Sealing(live, ws))]
      && Generation(next) == Generation(live) + 1
      && Core(next) == Core(SealedDb(live, ws))
  {
    CommitEffect(live, ws, false);
    JournalEffect(live, ws, false);
  }

  /** One more entry, one more replay step. */
  lemma ReplayOneMore(c: Database, j: Journal, low: nat, g: nat, entry: seq<Mutation>)
    requires low <= g
    ensures var j' := j[Seq(g + 1) := WriteSet(entry)];
      && Replayed(c, j', low, g + 1) == ApplyAll(Replayed(c, j, low, g), entry)
      && (HasEntries(j, low, g) ==> HasEntries(j', low, g + 1))
      && (ReplayAccepts(c, j', low, g + 1) <==> ReplayAccepts(c, j, low, g) && Admits(Replayed(c, j, low, g), entry))
      && forall n :: low < n <= g + 1 ==> EntryAt(j', n) == if n == g + 1 then entry else EntryAt(j, n)
  {
    var j' := j[Seq(g + 1) := WriteSet(entry)];
    assert forall n :: low < n <= g ==> EntryAt(j', n) == EntryAt(j, n);
    ReplayFrame(c, j, j', low, g);
    assert EntryAt(j', g + 1) == entry;
    if HasEntries(j, low, g) {
      forall n | low < n <= g + 1 ensures HasEntry(j', n) {
        assert n <= g ==> HasEntry(j, n);
      }
    }
  }

  /** While the session lasts, a commit extends the journal by exactly one entry and the
      candidate keeps tracking the live database. */
  lemma CommitTracks(c: Database, low: nat, live: Database, ws: seq<Mutation>)
    requires Tracks(c, low, live) && Committable(live, ws)
    requires Meta in live && MutationJournal in live && HasSession(live)
    ensures Tracks(c, low, Committed(live, ws, false))
  {
    var g, entry := Generation(live), Sealing(live, ws);
    CommitJournals(live, ws);
    SealingReplayable(live, ws);
    ReplayOneMore(c, JournalOf(live), low, g, entry);
    SealingAdmitted(live, ws);
    CoreReplay(Replayed(c, JournalOf(live), low, g), live, entry);
  }

  lemma SealingAdmitted(live: Database, ws: seq<Mutation>)
    requires Committable(live, ws) && Meta in live && forall w <- Sealing(live, ws) :: Replayable(w)
    ensures Admits(live, Sealing(live, ws))
  {
    hide DomainWrites;
    ApplyKeepsBuckets(live, ws);
    ApplySnoc(live, ws, Put(Meta, Field(MutationGeneration), Num(Generation(ApplyAll(live, ws)) + 1)));
  }

  /** A commit that finds the journal over its bound leaves a generation without an entry,
      for good. */
  lemma OverflowLeavesGap(low: nat, live: Database, ws: seq<Mutation>)
    requires low <= Generation(live) && JournalBounded(live) && Committable(live, ws)
    requires Meta in live && MutationJournal in live && HasSession(live)
    ensures HasGap(low, Committed(live, ws, true)) && !HasSession(Committed(live, ws, true))
  {
    CommitEffect(live, ws, true);
    var next := Committed(live, ws, true);
    assert !HasEntry(JournalOf(next), Generation(next));
  }

  lemma GapStays(low: nat, live: Database, ws: seq<Mutation>, overflow: bool)
    requires HasGap(low, live) && !HasSession(live) && ws != [] && DomainWrites(ws) && Meta in live
    ensures HasGap(low, Committed(live, ws, overflow)) && !HasSession(Committed(live, ws, overflow))
  {
    CommitEffect(live, ws, overflow);
    var g :| low < g <= Generation(live) && !HasEntry(JournalOf(live), g);
    assert !HasEntry(JournalOf(Committed(live, ws, overflow)), g);
  }

  lemma CommitBounds(live: Database, ws: seq<Mutation>, overflow: bool)
    requires JournalBounded(live) && ws != [] && DomainWrites(ws)
    requires Meta in live && (HasSession(live) ==> MutationJournal in live && forall w <- ws :: Replayable(w))
    ensures JournalBounded(Committed(live, ws, overflow))
  {
    hide DomainWrites, Committed, ApplyAll;
    CommitEffect(live, ws, overflow);
    if HasSession(live) { assert forall w <- Sealing(live, ws) :: w.bucket != MutationJournal; }
  }

  // ---- the loops of the compactor -------------------------------------------------------------

  predicate AvoidsJournal(ws: seq<Mutation>) { forall w <- ws :: w.bucket != MutationJournal }

  /** `applyMutations` would apply all of this write-set. */
  predicate Admits(db: Database, ws: seq<Mutation>) { Applicable(db, ws) && AvoidsJournal(ws) }

  predicate AdmitsOne(d: Database, w: Mutation) { w.bucket != MutationJournal && (w.Create? || w.bucket in d) }

  lemma MutationStep(db: Database, ws: seq<Mutation>, w: Mutation, d: Database, longer: seq<Mutation>)
    requires d == ApplyAll(db, ws) && longer == ws + [w]
    ensures ApplyAll(db, longer) == ApplyOne(d, w)
    ensures Admits(db, longer) <==> Admits(db, ws) && AdmitsOne(d, w)
  {
    ApplySnoc(db, ws, w);
    AvoidsSnoc(ws, w);
  }

  lemma AvoidsSnoc(ws: seq<Mutation>, w: Mutation)
    ensures AvoidsJournal(ws + [w]) <==> AvoidsJournal(ws) && w.bucket != MutationJournal
  {
    if AvoidsJournal(ws + [w]) {
      forall v | v in ws ensures v.bucket != MutationJournal { assert v in ws + [w]; }
      assert w in ws + [w];
    }
  }

  lemma {:induction false} RefusedPrefix(db: Database, ws: seq<Mutation>, k: nat)
    requires k <= |ws| && !Admits(db, ws[..k])
    ensures !Admits(db, ws)
    decreases |ws| - k
  {
    if k < |ws| {
      assert ws[..k + 1] == ws[..k] + [ws[k]];
      MutationStep(db, ws[..k], ws[k], ApplyAll(db, ws[..k]), ws[..k + 1]);
      RefusedPrefix(db, ws, k + 1);
    } else {
      assert ws[..k] == ws;
    }
  }

  /** `applyMutations`: None when a mutation is refused. */
  method ApplyMutations(db: Database, writes: seq<Mutation>) returns (r: Option<Database>)
    ensures r == if Admits(db, writes) then Some(ApplyAll(db, writes)) else None
  {
    var d := db;
    var i := 0;
    while i < |writes|
      invariant 0 <= i <= |writes| && d == ApplyAll(db, writes[..i]) && Admits(db, writes[..i])
    {
      var w := writes[i];
      assert writes[..i + 1] == writes[..i] + [w];
      MutationStep(db, writes[..i], w, d, writes[..i + 1]);
      if !AdmitsOne(d, w) {
        RefusedPrefix(db, writes, i + 1);
        return None;
      }
      d := ApplyOne(d, w);
      i := i + 1;
    }
    assert writes[..|writes|] == writes;
    r := Some(d);
  }

  /** The reading half of a replay batch or of the gate: the write-sets of generations
      low+1..high in order, or None when one is missing. */
  method CollectWriteSets(j: Journal, low: nat, high: nat) returns (sets: Option<seq<seq<Mutation>>>)
    requires low <= high
    ensures sets.Some? <==> HasEntries(j, low, high)
    ensures sets.Some? ==> |sets.value| == high - low
    ensures sets.Some? ==> forall i :: 0 <= i < high - low ==> sets.value[i] == EntryAt(j, low + 1 + i)
  {
    var acc: seq<seq<Mutation>> := [];
    var g := low + 1;
    while g <= high
      invariant low + 1 <= g <= high + 1 && |acc| == g - low - 1
      invariant HasEntries(j, low, g - 1)
      invariant forall i :: 0 <= i < |acc| ==> acc[i] == EntryAt(j, low + 1 + i)
    {
      if !HasEntry(j, g) { return None; }
      acc := acc + [EntryAt(j, g)];
      g := g + 1;
    }
    sets := Some(acc);
  }

  /** The writing half: one candidate transaction over the collected write-sets. */
  method ReplaySets(c: Database, sets: seq<seq<Mutation>>, ghost j: Journal, ghost low: nat)
    returns (r: Option<Database>)
    requires forall i :: 0 <= i < |sets| ==> sets[i] == EntryAt(j, low + 1 + i)
    ensures r.Some? <==> ReplayAccepts(c, j, low, low + |sets|)
    ensures r.Some? ==> r.value == Replayed(c, j, low, low + |sets|)
  {
    hide ApplyAll, Admits, EntryAt;
    var d := c;
    for i := 0 to |sets|
      invariant ReplayAccepts(c, j, low, low + i) && d == Replayed(c, j, low, low + i)
    {
      assert sets[i] == EntryAt(j, low + i + 1);
      var next := ApplyMutations(d, sets[i]);
      if next == None {
        RefusedStays(c, j, low, low + i + 1, low + |sets|);
        return None;
      }
      d := next.value;
    }
    r := Some(d);
  }

  lemma {:induction false} RefusedStays(c: Database, j: Journal, low: nat, mid: nat, high: nat)
    requires low <= mid <= high && !ReplayAccepts(c, j, low, mid)
    ensures !ReplayAccepts(c, j, low, high)
    decreases high
  {
    if mid < high { RefusedStays(c, j, low, mid, high - 1); }
  }
}
