/** The write gateway: a transaction that records its write-set, the commit that adds the
    generation and the journal entry, and the replay of journalled write-sets. */
module Gateway {
  import opened Types
  import opened Store

  /** What an update closure decides from the database it sees: an error, or a write-set. */
  datatype Outcome = Refuse(error: Error) | Write(writes: seq<Mutation>)

  /** The write-set as it is journalled: the new generation is part of it. */
  function Sealing(db: Database, ws: seq<Mutation>): seq<Mutation> {
    ws + [Put(Meta, Field(MutationGeneration), Num(Generation(ApplyAll(db, ws)) + 1))]
  }

  predicate GenerationExhausted(db: Database, ws: seq<Mutation>) {
    ws != [] && Generation(ApplyAll(db, ws)) >= MAX_UINT64
  }

  /** What `updateLocked` leaves behind after its closure has written `ws`. When the journal
      is over its bound (`overflow`) the session is dropped instead of journalling. */
  function Committed(db: Database, ws: seq<Mutation>, overflow: bool): Database {
    if ws == [] then db else
      var sealing := Sealing(db, ws);
      var d := ApplyAll(db, sealing);
      if !HasSession(d) then d
      else if overflow then ApplyOne(d, Delete(Meta, Field(CompactionSession)))
      else ApplyOne(d, Put(MutationJournal, Seq(Generation(d)), WriteSet(sealing)))
  }

  /** A bbolt transaction that also records its write-set. */
  class MutationTx {
    ghost const base: Database
    var db: Database
    var writes: seq<Mutation>

    ghost predicate Valid() reads this {
      db == ApplyAll(base, writes) && Applicable(base, writes)
    }

    constructor (start: Database)
      ensures Valid() && base == start && db == start && writes == []
    {
      base := start;
      db := start;
      writes := [];
    }

    method Record(w: Mutation)
      requires Valid() && (w.Create? || w.bucket in db)
      modifies this
      ensures Valid() && writes == old(writes) + [w] && db == ApplyOne(old(db), w)
    {
      ApplySnoc(base, writes, w);
      db := ApplyOne(db, w);
      writes := writes + [w];
    }

    method NextSequence(bucket: BucketName) returns (next: Option<nat>)
      requires Valid() && bucket in db
      modifies this
      ensures Valid()
      ensures next == None <==> old(db)[bucket].sequence >= MAX_UINT64
      ensures next == None ==> unchanged(this)
      ensures next.Some? ==>
                && next.value == old(db)[bucket].sequence + 1
                && writes == old(writes) + [SetSequence(bucket, next.value)]
                && db == ApplyOne(old(db), SetSequence(bucket, next.value))
    {
      var v := db[bucket].sequence;
      if v >= MAX_UINT64 { return None; }
      Record(SetSequence(bucket, v + 1));
      next := Some(v + 1);
    }
  }

  // ---- what a cutover preserves --------------------------------------------------------------

  const StorageFields: set<Key> := {Field(CompactionSession), Field(StorageGeneration)}

  /** Everything except the journal and the two meta keys that belong to one storage file. */
  function Core(db: Database): Database {
    map b | b in db :: CoreTable(b, db[b])
  }

  function CoreTable(b: BucketName, t: Table): Table {
    if b == MutationJournal then EmptyTable
    else if b == Meta then t.(rows := t.rows - StorageFields)
    else t
  }

  predicate Replayable(w: Mutation) {
    w.bucket != MutationJournal &&
    ((w.Put? || w.Delete?) && w.bucket == Meta ==> w.key !in StorageFields)
  }

  /** A write-set of the domain leaves the storage keys, the generation, the identity and the
      demand for a manifest alone, and does no more to the journal than create its bucket. */
  predicate DomainWrites(ws: seq<Mutation>) {
    forall w <- ws ::
      && (w.bucket == MutationJournal ==> w.Create?)
      && ((w.Put? || w.Delete?) && w.bucket == Meta ==>
            w.key !in StorageFields + {Field(MutationGeneration), Field(Identity), Field(ManifestRequired)})
  }

  lemma CoreStep(db: Database, w: Mutation)
    requires Replayable(w)
    ensures Core(ApplyOne(db, w)) == ApplyOne(Core(db), w)
  {
    var a, b := Core(ApplyOne(db, w)), ApplyOne(Core(db), w);
    assert a.Keys == b.Keys;
    if w.bucket in db && !w.Create? {
      var t := db[w.bucket];
      match w
      case Put(_, k, v) => assert t.rows[k := v] - StorageFields == (t.rows - StorageFields)[k := v] || w.bucket != Meta;
      case Delete(_, k) => assert (t.rows - {k}) - StorageFields == (t.rows - StorageFields) - {k};
      case SetSequence(_, _) =>
    }
    assert forall n <- a.Keys :: a[n] == b[n];
  }

  /** Replay of the same write-set on two databases with equal cores keeps them equal: the
      simulation behind online compaction. */
  lemma {:induction false} CoreReplay(a: Database, b: Database, ws: seq<Mutation>)
    requires Core(a) == Core(b)
    requires forall w <- ws :: Replayable(w)
    ensures Core(ApplyAll(a, ws)) == Core(ApplyAll(b, ws))
    ensures Applicable(a, ws) <==> Applicable(b, ws)
    decreases |ws|
  {
    assert a.Keys == Core(a).Keys == Core(b).Keys == b.Keys;
    if ws != [] {
      var rest, w := ws[..|ws| - 1], ws[|ws| - 1];
      CoreReplay(a, b, rest);
      CoreStep(ApplyAll(a, rest), w);
      CoreStep(ApplyAll(b, rest), w);
      assert Core(ApplyAll(a, rest)).Keys == Core(ApplyAll(b, rest)).Keys;
    }
  }

  lemma CoreLookup(a: Database, b: Database)
    requires Core(a) == Core(b)
    ensures a.Keys == b.Keys
    ensures forall n :: n != Meta && n != MutationJournal ==> TableOf(a, n) == TableOf(b, n)
    ensures forall f :: Field(f) !in StorageFields ==> Get(a, Meta, Field(f)) == Get(b, Meta, Field(f))
    ensures forall k :: k !in StorageFields ==> (k in Rows(a, Meta) <==> k in Rows(b, Meta))
  {
    assert a.Keys == Core(a).Keys == Core(b).Keys == b.Keys;
    forall n | n in a && n != Meta && n != MutationJournal ensures a[n] == b[n] {
      assert Core(a)[n] == Core(b)[n];
    }
    if Meta in a {
      assert Core(a)[Meta] == Core(b)[Meta];
      assert a[Meta].rows - StorageFields == b[Meta].rows - StorageFields;
      forall k | k !in StorageFields
        ensures Get(a, Meta, k) == Get(b, Meta, k)
      {
        assert k in a[Meta].rows <==> k in (a[Meta].rows - StorageFields);
        assert k in b[Meta].rows <==> k in (b[Meta].rows - StorageFields);
      }
    }
  }

  // ---- what a commit does ----------------------------------------------------------------------

  /** Domain writes never reach the gateway's own keys. */
  lemma {:induction false} DomainFrame(db: Database, ws: seq<Mutation>)
    requires DomainWrites(ws)
    ensures TableOf(ApplyAll(db, ws), MutationJournal) == TableOf(db, MutationJournal)
    ensures forall f <- {CompactionSession, StorageGeneration, MutationGeneration, Identity, ManifestRequired} ::
              Get(ApplyAll(db, ws), Meta, Field(f)) == Get(db, Meta, Field(f))
    decreases |ws|
  {
    if ws != [] {
      DomainFrame(db, ws[..|ws| - 1]);
    }
  }

  function SealedDb(db: Database, ws: seq<Mutation>): Database { ApplyAll(db, Sealing(db, ws)) }

  /** The generation write touches one meta key. */
  lemma SealingEffect(db: Database, ws: seq<Mutation>)
    requires DomainWrites(ws) && Meta in db
    ensures var d, e := SealedDb(db, ws), ApplyAll(db, ws);
      && d.Keys == e.Keys && db.Keys <= d.Keys
      && Generation(e) == Generation(db)
      && Get(d, Meta, Field(MutationGeneration)) == Some(Num(Generation(db) + 1))
      && (forall b :: b != Meta ==> TableOf(d, b) == TableOf(e, b))
      && (forall f :: f != MutationGeneration ==> Get(d, Meta, Field(f)) == Get(e, Meta, Field(f)))
  {
    hide Applicable;
    DomainFrame(db, ws);
    ApplyKeepsBuckets(db, ws);
    ApplySnoc(db, ws, Put(Meta, Field(MutationGeneration), Num(Generation(ApplyAll(db, ws)) + 1)));
  }

  /** The commit in terms of the sealed database. */
  lemma CommittedIsSealed(db: Database, ws: seq<Mutation>, overflow: bool)
    requires ws != []
    ensures var s := SealedDb(db, ws);
      Committed(db, ws, overflow) ==
        if !HasSession(s) then s
        else if overflow then ApplyOne(s, Delete(Meta, Field(CompactionSession)))
        else ApplyOne(s, Put(MutationJournal, Seq(Generation(ApplyAll(db, ws)) + 1), WriteSet(Sealing(db, ws))))
  {}

  /** Journalling, or dropping the session, touches nothing else and stays out of the core. */
  lemma JournalEffect(db: Database, ws: seq<Mutation>, overflow: bool)
    requires DomainWrites(ws) && ws != [] && Meta in db && (HasSession(db) ==> MutationJournal in db)
    ensures var d, s := Committed(db, ws, overflow), SealedDb(db, ws);
      && d.Keys == s.Keys
      && (forall b :: b != Meta && b != MutationJournal ==> TableOf(d, b) == TableOf(s, b))
      && (forall f :: f != CompactionSession ==> Get(d, Meta, Field(f)) == Get(s, Meta, Field(f)))
      && Get(d, Meta, Field(CompactionSession)) ==
           (if overflow then None else Get(db, Meta, Field(CompactionSession)))
      && Rows(d, MutationJournal) ==
           (if HasSession(db) && !overflow
            then Rows(db, MutationJournal)[Seq(Generation(db) + 1) := WriteSet(Sealing(db, ws))]
            else Rows(db, MutationJournal))
      && Core(d) == Core(s)
  {
    hide DomainWrites, ApplyAll, SealedDb;
    SealingEffect(db, ws);
    DomainFrame(db, ws);
    CommittedIsSealed(db, ws, overflow);
    var d, s := Committed(db, ws, overflow), SealedDb(db, ws);
    assert Get(s, Meta, Field(CompactionSession)) == Get(db, Meta, Field(CompactionSession));
    assert HasSession(s) <==> HasSession(db);
    assert Core(d) == Core(s) by {
      assert Core(d).Keys == Core(s).Keys;
      assert forall n <- Core(s).Keys :: Core(d)[n] == Core(s)[n];
    }
  }

  /** The effect of one committed, non-empty domain write-set, bucket by bucket. */
  lemma CommitEffect(db: Database, ws: seq<Mutation>, overflow: bool)
    requires DomainWrites(ws) && ws != [] && Meta in db && (HasSession(db) ==> MutationJournal in db)
    ensures var d, e := Committed(db, ws, overflow), ApplyAll(db, ws);
      && d.Keys == e.Keys && db.Keys <= d.Keys
      && Get(d, Meta, Field(MutationGeneration)) == Some(Num(Generation(db) + 1))
      && (forall b :: b != Meta && b != MutationJournal ==> TableOf(d, b) == TableOf(e, b))
      && (forall f :: f != MutationGeneration && f != CompactionSession ==>
            Get(d, Meta, Field(f)) == Get(e, Meta, Field(f)))
      && Get(d, Meta, Field(CompactionSession)) ==
           (if overflow then None else Get(db, Meta, Field(CompactionSession)))
      && Rows(d, MutationJournal) ==
           (if HasSession(db) && !overflow
            then Rows(db, MutationJournal)[Seq(Generation(db) + 1) := WriteSet(Sealing(db, ws))]
            else Rows(db, MutationJournal))
  {
    SealingEffect(db, ws);
    JournalEffect(db, ws, overflow);
  }
}
