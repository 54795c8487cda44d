/** The key-value database under the inbox: named buckets, each a map with a sequence
    counter, changed by write-sets of four kinds of mutation. */
module Store {
  import opened Types

  datatype BucketName =
    | Meta | Events | Ids | ReceiptTimes | ReceiptIds | Catalog
    | ArchiveCache | Operations | MutationJournal | Captures

  datatype MetaField =
    | Identity | SchemaVersion | MutationGeneration | LegacyThrough | BackfilledThrough
    | LegacyAgeFloor | ArchiveFloor | CapturedThrough | CacheBytes | RecoveryFence
    | RecoveryAdmission | ManifestRequired | CompactionSession | StorageGeneration

  datatype Version = V1 | Migrating | V2

  datatype Key = Seq(n: nat) | Name(id: string) | Field(f: MetaField)

  datatype Value =
    | Num(n: nat) | Tag(v: Version) | Text(s: string) | Flag | Clock(t: nat) | LegacyClock
    | Body(r: BillingRecord) | Bound(b: ReceiptBinding) | Entry(c: CatalogEntry)
    | Operation(o: RetirementStatus) | Capture(p: CaptureStatus)
    | Approval(a: SignedApproval) | WriteSet(ws: seq<Mutation>)

  datatype Mutation =
    | Put(bucket: BucketName, key: Key, value: Value)
    | Delete(bucket: BucketName, key: Key)
    | Create(bucket: BucketName)
    | SetSequence(bucket: BucketName, sequence: nat)

  datatype Table = Table(rows: map<Key, Value>, sequence: nat)
  type Database = map<BucketName, Table>

  const EmptyTable := Table(map[], 0)

  // ---- reading -----------------------------------------------------------------------------

  /** A bucket that was never created reads as empty. */
  function TableOf(db: Database, b: BucketName): Table {
    if b in db then db[b] else EmptyTable
  }

  function Rows(db: Database, b: BucketName): map<Key, Value> { TableOf(db, b).rows }

  function Get(db: Database, b: BucketName, k: Key): Option<Value> {
    if k in Rows(db, b) then Some(Rows(db, b)[k]) else None
  }

  /** A missing number, or a value of another shape, reads as zero. */
  function MetaNum(db: Database, f: MetaField): nat {
    match Get(db, Meta, Field(f)) case Some(Num(n)) => n case _ => 0
  }

  function Head(db: Database): nat { TableOf(db, Events).sequence }
  function Generation(db: Database): nat { MetaNum(db, MutationGeneration) }
  function Floor(db: Database): nat { MetaNum(db, ArchiveFloor) }

  function StoreId(db: Database): string {
    match Get(db, Meta, Field(Identity)) case Some(Text(s)) => s case _ => ""
  }

  predicate Fenced(db: Database) { Get(db, Meta, Field(RecoveryFence)) == Some(Flag) }
  predicate HasVersion(db: Database, v: Version) { Get(db, Meta, Field(SchemaVersion)) == Some(Tag(v)) }
  predicate HasSession(db: Database) { Field(CompactionSession) in Rows(db, Meta) }

  // ---- writing ---------------------------------------------------------------------------

  /** One mutation; a mutation of a missing bucket changes nothing and is not Applicable. */
  function ApplyOne(db: Database, w: Mutation): Database {
    if w.Create? then (if w.bucket in db then db else db[w.bucket := EmptyTable])
    else if w.bucket !in db then db
    else
      var t := db[w.bucket];
      match w
      case Put(b, k, v) => db[b := t.(rows := t.rows[k := v])]
      case Delete(b, k) => db[b := t.(rows := t.rows - {k})]
      case SetSequence(b, n) => db[b := t.(sequence := n)]
  }

  function ApplyAll(db: Database, ws: seq<Mutation>): Database {
    if ws == [] then db else ApplyOne(ApplyAll(db, ws[..|ws| - 1]), ws[|ws| - 1])
  }

  predicate Applicable(db: Database, ws: seq<Mutation>) {
    ws == [] ||
    (var rest, w := ws[..|ws| - 1], ws[|ws| - 1];
     Applicable(db, rest) && (w.Create? || w.bucket in ApplyAll(db, rest)))
  }

  lemma ApplySnoc(db: Database, ws: seq<Mutation>, w: Mutation)
    ensures ApplyAll(db, ws + [w]) == ApplyOne(ApplyAll(db, ws), w)
    ensures Applicable(db, ws + [w]) <==>
            Applicable(db, ws) && (w.Create? || w.bucket in ApplyAll(db, ws))
  {
    assert (ws + [w])[..|ws|] == ws;
  }

  lemma {:induction false} ApplyAppend(db: Database, a: seq<Mutation>, b: seq<Mutation>)
    ensures ApplyAll(db, a + b) == ApplyAll(ApplyAll(db, a), b)
    ensures Applicable(db, a + b) <==> Applicable(db, a) && Applicable(ApplyAll(db, a), b)
    decreases |b|
  {
    if b == [] {
      assert a + b == a;
    } else {
      var rest, w := b[..|b| - 1], b[|b| - 1];
      assert a + b == (a + rest) + [w];
      ApplyAppend(db, a, rest);
      ApplySnoc(db, a + rest, w);
    }
  }

  lemma ApplySingle(db: Database, w: Mutation)
    ensures ApplyAll(db, [w]) == ApplyOne(db, w)
    ensures Applicable(db, [w]) <==> w.Create? || w.bucket in db
  {
    assert [] + [w] == [w];
    ApplySnoc(db, [], w);
  }

  lemma ApplyPair(db: Database, a: Mutation, b: Mutation)
    ensures ApplyAll(db, [a, b]) == ApplyOne(ApplyOne(db, a), b)
    ensures a.bucket in db && b.bucket in db ==> Applicable(db, [a, b])
  {
    assert [a] + [b] == [a, b];
    ApplySingle(db, a);
    ApplySnoc(db, [a], b);
  }

  lemma ApplyTriple(db: Database, a: Mutation, b: Mutation, c: Mutation)
    ensures ApplyAll(db, [a, b, c]) == ApplyOne(ApplyOne(ApplyOne(db, a), b), c)
    ensures a.bucket in db && b.bucket in db && c.bucket in db ==> Applicable(db, [a, b, c])
  {
    assert [a, b] + [c] == [a, b, c];
    ApplyPair(db, a, b);
    ApplySnoc(db, [a, b], c);
  }

  /** Buckets are never removed by a write-set. */
  lemma {:induction false} ApplyKeepsBuckets(db: Database, ws: seq<Mutation>)
    ensures db.Keys <= ApplyAll(db, ws).Keys
    decreases |ws|
  {
    if ws != [] { ApplyKeepsBuckets(db, ws[..|ws| - 1]); }
  }
}
