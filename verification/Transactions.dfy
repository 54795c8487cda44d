/** The update closures of the inbox, as they run inside one transaction: each loop writes
    through the transaction, and each closure decides exactly what its specification says. */
module Transactions {
  import opened Types
  import opened Store
  import opened Gateway
  import opened Archive
  import opened Invariant
  import opened Lifecycle
  import opened Insertion
  import opened Migration
  import opened Retirement
  import opened Cache
  import opened Backup
  import opened Recovery

  /** The closure has decided: an error, or the writes now in the transaction. */
  ghost predicate Decides(outcome: Outcome, writes: seq<Mutation>, err: Option<Error>) {
    match outcome
    case Refuse(e) => err == Some(e)
    case Write(ws) => err == None && writes == ws
  }

  ghost predicate Started(t: MutationTx) reads t {
    t.Valid() && t.writes == [] && t.db == t.base
  }

  // ---- insert ---------------------------------------------------------------------------------

  method InsertInto(t: MutationTx, e: LogEvent, now: nat) returns (err: Option<Error>)
    requires Started(t) && BucketsOk(t.base) && (HasVersion(t.base, V1) <==> VersionOf(t.base) == V1)
    modifies t
    ensures t.Valid() && Decides(InsertOutcome(t.base, e, now), t.writes, err)
  {
    if !Acceptable(e) { return Some(InvalidEvent); }
    var known := Get(t.db, Ids, Name(e.id));
    if known.Some? { return Some(DedupeAnswer(t.db, e, known.value)); }
    var next := t.NextSequence(Events);
    if next == None { return Some(Unavailable); }
    var r := BillingRecord(next.value, ContentOf(e), e);
    t.Record(Put(Events, Seq(r.sequence), Body(r)));
    if HasVersion(t.db, V1) {
      t.Record(Put(Ids, Name(e.id), Num(r.sequence)));
    } else {
      t.Record(Put(Ids, Name(e.id), Bound(BindingOf(r))));
      t.Record(Put(ReceiptIds, Seq(r.sequence), Text(e.id)));
      t.Record(Put(ReceiptTimes, Seq(r.sequence), Clock(now)));
    }
    err := None;
  }

  // ---- migrate --------------------------------------------------------------------------------

  /** The buckets and the two meta keys of version 2. */
  method OpenInto(t: MutationTx)
    requires Started(t) && t.base.Keys == BaseBuckets
    modifies t
    ensures t.Valid() && t.writes == OpeningWrites(t.base) && t.db == ApplyAll(t.base, OpeningWrites(t.base))
  {
    var head := Head(t.db);
    for i := 0 to |NewBuckets|
      invariant t.Valid() && t.writes == Creates(NewBuckets[..i])
    {
      assert NewBuckets[..i + 1][..i] == NewBuckets[..i];
      t.Record(Create(NewBuckets[i]));
    }
    assert NewBuckets[..|NewBuckets|] == NewBuckets;
    ApplyKeepsBuckets(t.base, Creates(NewBuckets));
    t.Record(Put(Meta, Field(SchemaVersion), Tag(Migrating)));
    t.Record(Put(Meta, Field(LegacyThrough), Num(head)));
  }

  lemma {:induction false} CollectStops(read: Reader, at: nat, k: nat, j: nat)
    requires k <= j && Collect(read, at, k) == None
    ensures Collect(read, at, j) == None
    decreases j
  {
    if k < j { CollectStops(read, at, k, j - 1); }
  }

  method RecordInto(t: MutationTx, r: BillingRecord)
    requires t.Valid() && Ids in t.db && ReceiptTimes in t.db && ReceiptIds in t.db
    modifies t
    ensures t.Valid() && t.writes == old(t.writes) + RecordWrites(r) && t.db.Keys == old(t.db).Keys
  {
    t.Record(Put(Ids, Name(r.event.id), Bound(BindingOf(r))));
    t.Record(Put(ReceiptTimes, Seq(r.sequence), LegacyClock));
    t.Record(Put(ReceiptIds, Seq(r.sequence), Text(r.event.id)));
  }

  lemma CollectNext(read: Reader, at: nat, k: nat, rs: seq<BillingRecord>)
    requires Collect(read, at, k) == Some(rs)
    ensures Collect(read, at, k + 1) == match read(rs, at + k + 1) case None => None case Some(r) => Some(rs + [r])
  {}

  /** One legacy record, read through the writes before it. */
  method BackfillOne(t: MutationTx, ghost o: Database, ghost opening: seq<Mutation>, ghost read: Reader, ghost rs: seq<BillingRecord>, at: nat)
    returns (r: Option<BillingRecord>)
    requires t.Valid() && t.writes == opening + RecordsWrites(rs) && o == ApplyAll(t.base, opening) && t.db.Keys == AllBuckets
    requires read == ReaderOf(o)
    modifies t
    ensures t.Valid() && t.db.Keys == AllBuckets && r == read(rs, at + 1)
    ensures r.Some? ==> t.writes == opening + RecordsWrites(rs + [r.value])
  {
    hide RecordsWrites, ApplyAll;
    ApplyAppend(t.base, opening, RecordsWrites(rs));
    r := LegacyRecord(t.db, at + 1);
    if r.Some? {
      RecordInto(t, r.value);
      AfterSnoc(map[], rs, r.value);
      assert opening + RecordsWrites(rs) + RecordWrites(r.value) == opening + RecordsWrites(rs + [r.value]);
    }
  }

  lemma CollectDecides(read: Reader, at: nat, k: nat, total: nat, rs: seq<BillingRecord>, r: Option<BillingRecord>)
    requires Collect(read, at, k) == Some(rs) && r == read(rs, at + k + 1) && k < total
    ensures r.None? ==> Collect(read, at, total) == None
    ensures r.Some? ==> Collect(read, at, k + 1) == Some(rs + [r.value])
  {
    CollectNext(read, at, k, rs);
    if r == None { CollectStops(read, at, k + 1, total); }
  }

  /** The transaction holds the writes of the first `n` records after `start`. */
  ghost predicate Backfilling(writes: seq<Mutation>, opening: seq<Mutation>, read: Reader, start: nat, n: nat) {
    exists rs :: Collect(read, start, n) == Some(rs) && writes == opening + RecordsWrites(rs)
  }

  method BackfillStep(t: MutationTx, ghost o: Database, ghost opening: seq<Mutation>, ghost read: Reader, ghost start: nat, ghost n: nat, at: nat,
                      ghost total: nat)
    returns (ok: bool)
    requires t.Valid() && Backfilling(t.writes, opening, read, start, n) && o == ApplyAll(t.base, opening)
    requires t.db.Keys == AllBuckets && read == ReaderOf(o) && at == start + n && n < total
    modifies t
    ensures t.Valid() && t.db.Keys == AllBuckets
    ensures ok ==> Backfilling(t.writes, opening, read, start, n + 1)
    ensures !ok ==> Collect(read, start, total) == None
  {
    hide RecordsWrites, ReaderOf;
    ghost var rs :| Collect(read, start, n) == Some(rs) && t.writes == opening + RecordsWrites(rs);
    var r := BackfillOne(t, o, opening, read, rs, at);
    CollectDecides(read, start, n, total, rs, r);
    ok := r.Some?;
  }

  lemma BackfillStarts(opening: seq<Mutation>, read: Reader, start: nat)
    ensures Backfilling(opening, opening, read, start, 0)
  {
    assert Collect(read, start, 0) == Some([]) && opening == opening + RecordsWrites([]);
  }

  /** The loop of a call that can take `total` records. */
  method BackfillLoop(t: MutationTx, ghost o: Database, ghost opening: seq<Mutation>, start: nat, total: nat)
    returns (ok: bool)
    requires t.Valid() && t.writes == opening && o == ApplyAll(t.base, opening) && t.db.Keys == AllBuckets
    modifies t
    ensures t.Valid()
    ensures !ok ==> Collect(ReaderOf(o), start, total) == None
    ensures ok ==> Backfilling(t.writes, opening, ReaderOf(o), start, total) && t.db.Keys == AllBuckets
  {
    var n := 0;
    ok := true;
    BackfillStarts(opening, ReaderOf(o), start);
    while n < total
      invariant 0 <= n <= total && ok
      invariant t.Valid() && t.db.Keys == AllBuckets && Backfilling(t.writes, opening, ReaderOf(o), start, n)
    {
      ok := BackfillStep(t, o, opening, ReaderOf(o), start, n, start + n, total);
      if !ok { return; }
      n := n + 1;
    }
  }

  /** At most `batch` records, stopping at the legacy end. */
  method BackfillInto(t: MutationTx, ghost o: Database, ghost opening: seq<Mutation>, start: nat, end: nat, batch: nat)
    returns (ok: bool, at: nat)
    requires t.Valid() && t.writes == opening && o == ApplyAll(t.base, opening) && t.db.Keys == AllBuckets
    modifies t
    ensures t.Valid() && at == Stop(start, end, batch)
    ensures !ok ==> Collect(ReaderOf(o), start, at - start) == None
    ensures ok ==> Backfilling(t.writes, opening, ReaderOf(o), start, at - start) && t.db.Keys == AllBuckets
  {
    at := Stop(start, end, batch);
    ok := BackfillLoop(t, o, opening, start, at - start);
  }

  function Stop(at: nat, end: nat, batch: nat): nat { if at < end then at + Min(batch, end - at) else at }

  lemma MigrateDecision(db: Database, o: Database, opening: seq<Mutation>, batch: nat, now: nat, rs: Option<seq<BillingRecord>>, stop: nat)
    requires !Fenced(db) && !HasVersion(db, V2) && o == Opened(db)
    requires opening == if HasVersion(db, V1) then OpeningWrites(db) else []
    requires stop == StopAt(o, batch) && rs == Backfill(o, MetaNum(o, BackfilledThrough), stop - MetaNum(o, BackfilledThrough))
    ensures MigrateOutcome(db, batch, now) ==
      match rs case None => Refuse(Unavailable) case Some(v) => Write(opening + BatchWrites(o, v, stop, now))
  {}

  /** The rest of the call, once the migration is open. */
  method AdvanceInto(t: MutationTx, ghost o: Database, ghost opening: seq<Mutation>, batch: nat, now: nat)
    returns (ok: bool, ghost rs: Option<seq<BillingRecord>>)
    requires t.Valid() && t.writes == opening && t.db.Keys == AllBuckets && o == t.db
    modifies t
    ensures t.Valid() && ok == rs.Some?
    ensures rs == Backfill(o, MetaNum(o, BackfilledThrough), StopAt(o, batch) - MetaNum(o, BackfilledThrough))
    ensures ok ==> t.writes == opening + BatchWrites(o, rs.value, StopAt(o, batch), now)
  {
    hide RecordsWrites, Collect;
    var end, start := MetaNum(t.db, LegacyThrough), MetaNum(t.db, BackfilledThrough);
    var at;
    ok, at := BackfillInto(t, o, opening, start, end, batch);
    rs := Collect(ReaderOf(o), start, Stop(start, end, batch) - start);
    if ok {
      CloseInto(t, at, end, now);
      ghost var closing := ClosingWrites(at, end, now);
      assert opening + RecordsWrites(rs.value) + closing == opening + (RecordsWrites(rs.value) + closing);
    }
  }

  method OpenIfNeeded(t: MutationTx)
    requires Started(t) && BucketsOk(t.base) && (HasVersion(t.base, V1) <==> VersionOf(t.base) == V1)
    modifies t
    ensures t.Valid() && t.db == Opened(t.base) && t.db.Keys == AllBuckets
    ensures t.writes == if HasVersion(t.base, V1) then OpeningWrites(t.base) else []
  {
    if HasVersion(t.db, V1) {
      OpenInto(t);
      OpeningEffect(t.base);
    }
  }

  method MigrateInto(t: MutationTx, batch: nat, now: nat) returns (err: Option<Error>)
    requires Started(t) && BucketsOk(t.base) && (HasVersion(t.base, V1) <==> VersionOf(t.base) == V1)
    modifies t
    ensures t.Valid() && Decides(MigrateOutcome(t.base, batch, now), t.writes, err)
  {
    if Fenced(t.db) { return Some(Unavailable); }
    if HasVersion(t.db, V2) { return None; }
    OpenIfNeeded(t);
    ghost var o, opening := t.db, t.writes;
    var ok;
    ghost var rs;
    ok, rs := AdvanceInto(t, o, opening, batch, now);
    MigrateDecision(t.base, o, opening, batch, now, rs, StopAt(o, batch));
    err := if ok then None else Some(Unavailable);
  }

  method CloseInto(t: MutationTx, at: nat, end: nat, now: nat)
    requires t.Valid() && Meta in t.db
    modifies t
    ensures t.Valid() && t.writes == old(t.writes) + ClosingWrites(at, end, now)
  {
    t.Record(Put(Meta, Field(BackfilledThrough), Num(at)));
    if at == end {
      t.Record(Put(Meta, Field(LegacyAgeFloor), Clock(now)));
      t.Record(Put(Meta, Field(SchemaVersion), Tag(V2)));
    }
  }

  // ---- retirement ---------------------------------------------------------------------------------

  /** The loop of `retirementCoverage`. */
  method Coverage(cfg: Config, db: Database, set_: string, from: nat, through: nat, now: nat) returns (err: Option<Error>)
    ensures err == CoverageRefusal(cfg, db, set_, from, through, now)
  {
    if !SetCovers(cfg, db, set_, from, through) { return Some(LifecycleConflict); }
    var n := from;
    while n <= through
      invariant from <= n && (n <= through + 1 || n == from)
      invariant RangeRefusal(cfg, db, from, through, now) == RangeRefusal(cfg, db, n, through, now)
      decreases through + 1 - n
    {
      err := RecordRefusal(cfg, db, n, now);
      if err.Some? { return; }
      n := n + 1;
    }
    err := None;
  }

  method PlanInto(t: MutationTx, cfg: Config, p: RetirementPlan, now: nat) returns (err: Option<Error>)
    requires Started(t) && BucketsOk(t.base)
    modifies t
    ensures t.Valid() && Decides(PlanOutcome(cfg, t.base, p, now), t.writes, err)
  {
    if !cfg.retirementEnabled || !PlanShapeOk(p) { return Some(LifecycleConflict); }
    err := Ready(cfg, t.db);
    if err.Some? { return; }
    if p.environment != cfg.environment || p.storeId != StoreId(t.db) { return Some(LifecycleConflict); }
    var known := Get(t.db, Operations, Name(p.operationId));
    if known.Some? {
      if !known.value.Operation? { return Some(Unavailable); }
      if !StatusOf(known.value.o, p) { return Some(LifecycleConflict); }
      return None;
    }
    if p.from != Floor(t.db) + 1 || p.through > Head(t.db) { return Some(LifecycleConflict); }
    err := Coverage(cfg, t.db, p.setId, p.from, p.through, now);
    if err.Some? { return; }
    t.Record(PutOperation(p.operationId, StatusFor(p).(retiredThrough := Floor(t.db))));
  }

  /** The loop that deletes the bodies from..through. */
  method DeleteInto(t: MutationTx, from: nat, through: nat)
    requires Started(t) && Events in t.db && 0 < from
    modifies t
    ensures t.Valid() && t.writes == Deletes(from, through) && t.db.Keys == old(t.db).Keys
  {
    var n := from;
    while n <= through
      invariant from <= n && (n <= through + 1 || n == from) && t.Valid() && t.writes == Deletes(from, n - 1)
      invariant t.db.Keys == old(t.db).Keys
      decreases through + 1 - n
    {
      t.Record(Delete(Events, Seq(n)));
      n := n + 1;
    }
  }

  method ApplyInto(t: MutationTx, cfg: Config, id: string, seen: Option<RetirementStatus>, authority: bool, now: nat)
    returns (err: Option<Error>)
    requires Started(t) && BucketsOk(t.base)
    modifies t
    ensures t.Valid() && Decides(ApplyOutcome(cfg, t.base, id, seen, authority, now), t.writes, err)
  {
    hide CoverageRefusal;
    if !SafeId(id) { return Some(LifecycleConflict); }
    if seen == None { return Some(OperationNotFound); }
    var st := seen.value;
    if st.state == Completed { return None; }
    if st.state != Pending || !cfg.retirementEnabled || !authority { return Some(LifecycleConflict); }
    err := Ready(cfg, t.db);
    if err.Some? { return; }
    if Get(t.db, Operations, Name(id)) != Some(Operation(st)) || Floor(t.db) + 1 != st.from { return Some(LifecycleConflict); }
    err := Coverage(cfg, t.db, st.setId, st.from, st.through, now);
    if err.Some? { return; }
    DeleteInto(t, st.from, st.through);
    t.Record(Put(Meta, Field(ArchiveFloor), Num(st.through)));
    t.Record(PutOperation(id, CompletedStatus(st, now)));
  }

  method AbortInto(t: MutationTx, cfg: Config, p: RetirementPlan, seen: Option<RetirementStatus>, authority: bool, now: nat)
    returns (err: Option<Error>)
    requires Started(t) && BucketsOk(t.base)
    modifies t
    ensures t.Valid() && Decides(AbortOutcome(cfg, t.base, p, seen, authority, now), t.writes, err)
  {
    var st := StatusFor(p);
    if seen.Some? {
      st := seen.value;
      if !StatusOf(st, p) { return Some(LifecycleConflict); }
      if st.Terminal() { return None; }
    }
    if !PlanShapeOk(p) || !authority { return Some(LifecycleConflict); }
    err := Ready(cfg, t.db);
    if err.Some? { return; }
    if p.environment != cfg.environment || p.storeId != StoreId(t.db) { return Some(LifecycleConflict); }
    var known := Get(t.db, Operations, Name(p.operationId));
    if known.Some? {
      if !known.value.Operation? { return Some(Unavailable); }
      st := known.value.o;
      if st.Terminal() { return None; }
    }
    t.Record(PutOperation(p.operationId, AbortedStatus(st, Floor(t.db), now)));
  }

  // ---- cache ------------------------------------------------------------------------------------------

  lemma SameRefusal(d: Database, db: Database, rows: Rowset, m: Manifest, records: seq<ExportRecord>, i: nat)
    requires CacheRows(d, db, rows) && i < |records|
    ensures ExportRefusal(d, m, records, i) == ExportRefusal(db, m, records, i)
  {
    assert TableOf(d, Meta) == TableOf(db, Meta) && TableOf(d, Ids) == TableOf(db, Ids) && TableOf(d, ReceiptTimes) == TableOf(db, ReceiptTimes);
    SameMeta(d, db);
  }

  lemma {:induction false} FillStops(cfg: Config, db: Database, m: Manifest, records: seq<ExportRecord>, k: nat, j: nat)
    requires k <= j <= |records| && FillAll(cfg, db, m, records, k).Stopped?
    ensures FillAll(cfg, db, m, records, j) == FillAll(cfg, db, m, records, k)
    decreases j
  {
    if k < j { FillStops(cfg, db, m, records, k, j - 1); }
  }

  /** One record of the rehydration loop. */
  method FillInto(t: MutationTx, cfg: Config, m: Manifest, records: seq<ExportRecord>, i: nat, cacheBytes: nat)
    returns (err: Option<Error>, bytes: nat)
    requires t.Valid() && ArchiveCache in t.base && i < |records| && t.writes == FillPuts(records[..i])
    requires var f := FillAll(cfg, t.base, m, records, i); f.Filled? && f.fill.bytes == cacheBytes
    modifies t
    ensures t.Valid()
    ensures err.Some? ==> FillAll(cfg, t.base, m, records, i + 1) == Stopped(err.value)
    ensures err.None? ==> t.writes == FillPuts(records[..i + 1])
    ensures err.None? ==> var f := FillAll(cfg, t.base, m, records, i + 1); f.Filled? && f.fill.bytes == bytes
  {
    hide Applicable, CacheRows, FillAll, FillPuts, ExportRefusal, ApplyAll;
    FillRows(cfg, t.base, m, records, i);
    FillOneMore(cfg, t.base, t.db, m, records, i);
    SameRefusal(t.db, t.base, FillAll(cfg, t.base, m, records, i).fill.rows, m, records, i);
    bytes := cacheBytes;
    err := ExportRefusal(t.db, m, records, i);
    if err.Some? { return; }
    var e := records[i];
    var previous := BodyLength(Rows(t.db, ArchiveCache), Seq(e.sequence));
    if previous > bytes { return Some(Unavailable), bytes; }
    bytes := bytes - previous + e.record.Length();
    if bytes > cfg.cacheMaxBytes { return Some(LifecycleConflict), bytes; }
    ApplyKeepsBuckets(t.base, t.writes);
    t.Record(Put(ArchiveCache, Seq(e.sequence), Body(e.record)));
  }

  lemma FillOneMore(cfg: Config, db: Database, d: Database, m: Manifest, records: seq<ExportRecord>, i: nat)
    requires i < |records| && FillAll(cfg, db, m, records, i).Filled?
    requires CacheRows(d, db, FillAll(cfg, db, m, records, i).fill.rows)
    ensures Rows(d, ArchiveCache) == FillAll(cfg, db, m, records, i).fill.rows
    ensures FillAll(cfg, db, m, records, i + 1) ==
            match ExportRefusal(db, m, records, i)
            case Some(e) => Stopped(e)
            case None => FillOne(cfg, FillAll(cfg, db, m, records, i).fill, records[i])
    ensures FillPuts(records[..i + 1]) ==
            FillPuts(records[..i]) + [Put(ArchiveCache, Seq(records[i].sequence), Body(records[i].record))]
  {
    hide ExportRefusal, FillOne;
    assert records[..i + 1][..i] == records[..i];
  }

  method FillLoop(t: MutationTx, cfg: Config, m: Manifest, records: seq<ExportRecord>) returns (err: Option<Error>, bytes: nat)
    requires Started(t) && ArchiveCache in t.base
    modifies t
    ensures t.Valid()
    ensures err.Some? ==> FillAll(cfg, t.base, m, records, |records|) == Stopped(err.value)
    ensures err.None? ==> t.writes == FillPuts(records)
    ensures err.None? ==> var f := FillAll(cfg, t.base, m, records, |records|); f.Filled? && f.fill.bytes == bytes
  {
    bytes, err := MetaNum(t.db, CacheBytes), None;
    var i := 0;
    while i < |records|
      invariant 0 <= i <= |records| && t.Valid() && t.writes == FillPuts(records[..i]) && err == None
      invariant var f := FillAll(cfg, t.base, m, records, i); f.Filled? && f.fill.bytes == bytes
    {
      err, bytes := FillInto(t, cfg, m, records, i, bytes);
      if err.Some? {
        FillStops(cfg, t.base, m, records, i + 1, |records|);
        return;
      }
      i := i + 1;
    }
    assert records[..|records|] == records;
  }

  method RehydrateInto(t: MutationTx, cfg: Config, set_: string, records: seq<ExportRecord>) returns (err: Option<Error>)
    requires Started(t) && Meta in t.base && (HasVersion(t.base, V2) ==> ArchiveCache in t.base)
    modifies t
    ensures t.Valid() && Decides(RehydrateOutcome(cfg, t.base, set_, records), t.writes, err)
  {
    if |records| < 1 || |records| > BATCH_LIMIT { return Some(LifecycleConflict); }
    err := Ready(cfg, t.db);
    if err.Some? { return; }
    var known := Get(t.db, Catalog, Name(set_));
    if known == None || !known.value.Entry? { return Some(LifecycleConflict); }
    var c := known.value.c;
    if !CompletionOk(c.completion, c.manifest, c.manifestBytes, cfg.keys) { return Some(CompletionInvalid); }
    var bytes;
    err, bytes := FillLoop(t, cfg, c.manifest, records);
    if err.Some? { return; }
    ApplyKeepsBuckets(t.base, t.writes);
    t.Record(PutBytes(bytes));
  }

  /** The cursor: the next cached sequence at or after `low`. */
  method Seek(rows: Rowset, low: nat) returns (k: Option<nat>)
    ensures k.Some? ==> k.value >= low && Seq(k.value) in rows && forall n :: low <= n < k.value ==> Seq(n) !in rows
    ensures k.None? ==> forall n :: low <= n ==> Seq(n) !in rows
  {
    k := None;
    var rest := rows.Keys;
    while rest != {}
      invariant rest <= rows.Keys
      invariant k.Some? ==> k.value >= low && Seq(k.value) in rows
      invariant forall n :: low <= n && Seq(n) in rows && Seq(n) !in rest ==> k.Some? && k.value <= n
      decreases |rest|
    {
      var key :| key in rest;
      if key.Seq? && key.n >= low && (k == None || key.n < k.value) { k := Some(key.n); }
      rest := rest - {key};
    }
  }

  function Below(rows: Rowset, at: nat): seq<nat> { if at == 0 then [] else CachedUpTo(rows, at - 1) }

  lemma {:induction false} NoneBetween(rows: Rowset, low: nat, at: nat)
    requires low <= at && forall n :: low <= n < at ==> Seq(n) !in rows
    ensures Below(rows, at) == Below(rows, low)
    decreases at
  {
    if low < at { NoneBetween(rows, low, at - 1); }
  }

  lemma {:induction false} BelowPrefix(rows: Rowset, low: nat, at: nat)
    requires low <= at
    ensures Below(rows, low) <= Below(rows, at)
    decreases at
  {
    if low < at { BelowPrefix(rows, low, at - 1); }
  }

  lemma VictimsAre(rows: Rowset, through: nat, at: nat)
    requires at <= through + 1 && |Below(rows, at)| <= BATCH_LIMIT
    requires |Below(rows, at)| == BATCH_LIMIT || forall n :: at <= n <= through ==> Seq(n) !in rows
    ensures Victims(rows, through) == Below(rows, at)
  {
    BelowPrefix(rows, at, through + 1);
    if |Below(rows, at)| < BATCH_LIMIT { NoneBetween(rows, at, through + 1); }
  }

  lemma BelowNext(rows: Rowset, at: nat, k: nat)
    requires at <= k && Seq(k) in rows && forall n :: at <= n < k ==> Seq(n) !in rows
    ensures Below(rows, k + 1) == Below(rows, at) + [k]
  {
    NoneBetween(rows, at, k);
  }

  lemma EvictedSnoc(rows: Rowset, bytes: nat, keys: seq<nat>, k: nat)
    ensures EvictDeletes(keys + [k]) == EvictDeletes(keys) + [Delete(ArchiveCache, Seq(k))]
    ensures EvictedBytes(rows, bytes, keys + [k]) ==
      match EvictedBytes(rows, bytes, keys)
      case None => None
      case Some(left) => if BodyLength(rows, Seq(k)) > left then None else Some(left - BodyLength(rows, Seq(k)))
  {
    assert (keys + [k])[..|keys|] == keys;
  }

  lemma {:induction false} EvictedFails(rows: Rowset, bytes: nat, a: seq<nat>, b: seq<nat>)
    requires a <= b && EvictedBytes(rows, bytes, a) == None
    ensures EvictedBytes(rows, bytes, b) == None
    decreases |b|
  {
    if |a| < |b| {
      assert a <= b[..|b| - 1];
      EvictedFails(rows, bytes, a, b[..|b| - 1]);
    } else {
      assert a == b;
    }
  }

  lemma VictimsExtend(rows: Rowset, through: nat, at: nat)
    requires at <= through + 1 && |Below(rows, at)| <= BATCH_LIMIT
    ensures Below(rows, at) <= Victims(rows, through)
  {
    BelowPrefix(rows, at, through + 1);
  }

  /** The cursor loop of an eviction. */
  method EvictLoop(t: MutationTx, through: nat) returns (bytes: Option<nat>)
    requires Started(t) && ArchiveCache in t.base
    modifies t
    ensures t.Valid()
    ensures var rows := Rows(t.base, ArchiveCache);
      && bytes == EvictedBytes(rows, MetaNum(t.base, CacheBytes), Victims(rows, through))
      && (bytes.Some? ==> t.writes == EvictDeletes(Victims(rows, through)))
  {
    var rows, total := Rows(t.db, ArchiveCache), MetaNum(t.db, CacheBytes);
    var left, count, at := total, 0, 0;
    var k := Seek(rows, 0);
    while k.Some? && k.value <= through && count < BATCH_LIMIT
      invariant at <= through + 1 && count == |Below(rows, at)| <= BATCH_LIMIT
      invariant t.Valid() && ArchiveCache in t.db && t.writes == EvictDeletes(Below(rows, at))
      invariant EvictedBytes(rows, total, Below(rows, at)) == Some(left)
      invariant k.Some? ==> k.value >= at && Seq(k.value) in rows && forall n :: at <= n < k.value ==> Seq(n) !in rows
      invariant k.None? ==> forall n :: at <= n ==> Seq(n) !in rows
      decreases through + 1 - at
    {
      var n := k.value;
      BelowNext(rows, at, n);
      EvictedSnoc(rows, total, Below(rows, at), n);
      t.Record(Delete(ArchiveCache, Seq(n)));
      var gone := BodyLength(rows, Seq(n));
      if gone > left {
        VictimsExtend(rows, through, n + 1);
        EvictedFails(rows, total, Below(rows, n + 1), Victims(rows, through));
        return None;
      }
      left, count, at := left - gone, count + 1, n + 1;
      k := Seek(rows, at);
    }
    VictimsAre(rows, through, at);
    bytes := Some(left);
  }

  method EvictInto(t: MutationTx, cfg: Config, through: nat) returns (err: Option<Error>)
    requires Started(t) && Meta in t.base && (HasVersion(t.base, V2) ==> ArchiveCache in t.base)
    modifies t
    ensures t.Valid() && Decides(EvictOutcome(cfg, t.base, through), t.writes, err)
  {
    err := Ready(cfg, t.db);
    if err.Some? { return; }
    var bytes := EvictLoop(t, through);
    if bytes == None { return Some(Unavailable); }
    ApplyKeepsBuckets(t.base, t.writes);
    t.Record(PutBytes(bytes.value));
    err := None;
  }

  // ---- captures, catalog and recovery ------------------------------------------------------------------

  /** `saveCapture`, from the state that was read under the capture lock. */
  method SaveInto(t: MutationTx, st: CaptureStatus)
    requires Started(t) && Captures in t.base
    modifies t
    ensures t.Valid() && t.writes == [PutCapture(st)]
  {
    t.Record(PutCapture(st));
  }

  method SealInto(t: MutationTx, id: string, m: Manifest) returns (err: Option<Error>)
    requires Started(t) && Meta in t.base && (InFlight(t.base, id) ==> Captures in t.base)
    modifies t
    ensures t.Valid() && Decides(SealOutcome(t.base, id, m), t.writes, err)
  {
    var valid := Validate(m);
    if StateOf(t.db, id) != Some(CaptureStatus(id, Capturing, None)) || !valid { return Some(LifecycleConflict); }
    t.Record(PutCapture(CaptureStatus(id, Sealed, Some(m))));
    t.Record(Put(Meta, Field(CapturedThrough), Num(m.highWater)));
    err := None;
  }

  method VerifyInto(t: MutationTx, cfg: Config, id: string, completion: Completion, now: nat) returns (err: Option<Error>)
    requires Started(t) && BucketsOk(t.base)
    modifies t
    ensures t.Valid() && Decides(VerifyOutcome(cfg, t.base, id, completion, now), t.writes, err)
  {
    err := Ready(cfg, t.db);
    if err.Some? { return; }
    var known := StateOf(t.db, id);
    if known == None || known.value.manifest == None { return Some(LifecycleConflict); }
    var st, m := known.value, known.value.manifest.value;
    if (st.state != Uploaded && st.state != Verified) || !CompletionOk(completion, m, m, cfg.keys)
       || completion.payload.verifiedAt > now + CLOCK_SKEW || m.createdAt > now + CLOCK_SKEW {
      return Some(LifecycleConflict);
    }
    var entry := CatalogEntry(m, m, completion);
    var existing := Get(t.db, Catalog, Name(id));
    if existing.Some? { return if existing.value == Entry(entry) then None else Some(LifecycleConflict); }
    t.Record(Put(Catalog, Name(id), Entry(entry)));
    t.Record(PutCapture(CaptureStatus(id, Verified, Some(m))));
  }

  method AdmitInto(t: MutationTx, cfg: Config, a: SignedApproval, now: nat) returns (err: Option<Error>)
    requires Started(t) && Meta in t.base
    modifies t
    ensures t.Valid() && Decides(AdmitOutcome(cfg, t.base, a, now), t.writes, err)
  {
    if !ApprovalValid(cfg, a, now) { return Some(LifecycleConflict); }
    var st := ReadState(cfg, t.db);
    if !st.fenced || !ApprovalMatches(a.payload, st) { return Some(LifecycleConflict); }
    t.Record(Put(Meta, Field(RecoveryAdmission), Approval(a)));
    t.Record(Delete(Meta, Field(RecoveryFence)));
    err := None;
  }

  /** The high water a completion vouches for, when it verifies. */
  function VerifiedHigh(cfg: Config, v: Value): Option<nat> {
    if v.Entry? && CompletionOk(v.c.completion, v.c.manifest, v.c.manifestBytes, cfg.keys)
    then Some(v.c.completion.payload.highWater) else None
  }

  /** The greatest high water that some completion vouches for, or 0. */
  ghost predicate GreatestVerified(cfg: Config, catalog: Rowset, high: nat) {
    && (forall k <- catalog :: VerifiedHigh(cfg, catalog[k]).Some? ==> VerifiedHigh(cfg, catalog[k]).value <= high)
    && (high == 0 || exists k <- catalog :: VerifiedHigh(cfg, catalog[k]) == Some(high))
  }

  /** In a reachable store every entry of the catalog verifies, for the high water of its own
      manifest, so the worker passes over none. */
  lemma CatalogVerifies(cfg: Config, db: Database, high: nat)
    requires ProtocolOk(cfg, db) && GreatestVerified(cfg, Rows(db, Catalog), high)
    ensures IsProtected(Rows(db, Catalog), high)
  {
    hide CompletionOk;
    var catalog := Rows(db, Catalog);
    forall k | k in catalog ensures VerifiedHigh(cfg, catalog[k]) == Some(HighWaterOf(catalog, k)) {
      EntryVerifies(cfg, db, k);
    }
  }

  lemma EntryVerifies(cfg: Config, db: Database, k: Key)
    requires ProtocolOk(cfg, db) && k in Rows(db, Catalog)
    ensures VerifiedHigh(cfg, Rows(db, Catalog)[k]) == Some(HighWaterOf(Rows(db, Catalog), k))
  {
    assert CatalogEntryOk(cfg, Rows(db, Catalog), Rows(db, Captures), k);
  }

  ghost predicate VerifiedSoFar(cfg: Config, catalog: Rowset, rest: set<Key>, high: nat) {
    && (forall k <- catalog :: k !in rest && VerifiedHigh(cfg, catalog[k]).Some? ==> VerifiedHigh(cfg, catalog[k]).value <= high)
    && (high == 0 || exists k <- catalog :: VerifiedHigh(cfg, catalog[k]) == Some(high))
  }

  lemma VerifiedNext(cfg: Config, catalog: Rowset, rest: set<Key>, high: nat, k: Key)
    requires VerifiedSoFar(cfg, catalog, rest, high) && k in catalog
    ensures var h := VerifiedHigh(cfg, catalog[k]);
      VerifiedSoFar(cfg, catalog, rest - {k}, if h.Some? && h.value > high then h.value else high)
  {
    hide VerifiedHigh;
  }

  /** The worker's single maximum over the sets whose completion verifies; the others are
      passed over. */
  method ProtectedHighWater(cfg: Config, catalog: Rowset) returns (high: nat)
    ensures GreatestVerified(cfg, catalog, high)
  {
    hide VerifiedHigh;
    high := 0;
    var rest := catalog.Keys;
    while rest != {}
      invariant rest <= catalog.Keys && VerifiedSoFar(cfg, catalog, rest, high)
      decreases |rest|
    {
      var k :| k in rest;
      VerifiedNext(cfg, catalog, rest, high, k);
      var h := VerifiedHigh(cfg, catalog[k]);
      if h.Some? && h.value > high { high := h.value; }
      rest := rest - {k};
    }
  }
}
