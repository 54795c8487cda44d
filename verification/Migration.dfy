/** Online migration from version 1 to version 2, a batch at a time. */
module Migration {
  import opened Types
  import opened Store
  import opened Gateway
  import opened Replay
  import opened Archive
  import opened Invariant
  import opened Lifecycle

  const NewBuckets: seq<BucketName> :=
    [ReceiptTimes, ReceiptIds, Catalog, ArchiveCache, Operations, MutationJournal, Captures]

  function Creates(names: seq<BucketName>): seq<Mutation> {
    if names == [] then [] else Creates(names[..|names| - 1]) + [Create(names[|names| - 1])]
  }

  function OpeningWrites(db: Database): seq<Mutation> {
    Creates(NewBuckets)
    + [Put(Meta, Field(SchemaVersion), Tag(Migrating))]
    + [Put(Meta, Field(LegacyThrough), Num(Head(db)))]
  }

  function RecordWrites(r: BillingRecord): seq<Mutation> {
    [Put(Ids, Name(r.event.id), Bound(BindingOf(r))),
     Put(ReceiptTimes, Seq(r.sequence), LegacyClock),
     Put(ReceiptIds, Seq(r.sequence), Text(r.event.id))]
  }

  /** The record a backfill step works on, when the stored body and its old binding agree. */
  function LegacyRecord(db: Database, n: nat): Option<BillingRecord> {
    match Get(db, Events, Seq(n))
    case Some(Body(r)) =>
      if Decodes(r, n) && Get(db, Ids, Name(r.event.id)) == Some(Num(n)) then Some(r) else None
    case _ => None
  }

  function RecordsWrites(rs: seq<BillingRecord>): seq<Mutation> {
    if rs == [] then [] else RecordsWrites(rs[..|rs| - 1]) + RecordWrites(rs[|rs| - 1])
  }

  type Reader = (seq<BillingRecord>, nat) -> Option<BillingRecord>

  /** The records at+1..at+k, where `read` sees the records taken before. */
  function Collect(read: Reader, at: nat, k: nat): Option<seq<BillingRecord>> {
    if k == 0 then Some([])
    else match Collect(read, at, k - 1)
      case None => None
      case Some(rs) =>
        match read(rs, at + k)
        case None => None
        case Some(r) => Some(rs + [r])
  }

  /** Each record is read through the writes of those before it. */
  function ReaderOf(db: Database): Reader {
    (rs: seq<BillingRecord>, n: nat) => LegacyRecord(ApplyAll(db, RecordsWrites(rs)), n)
  }

  function Backfill(db: Database, at: nat, k: nat): Option<seq<BillingRecord>> { Collect(ReaderOf(db), at, k) }

  function ClosingWrites(at: nat, end: nat, now: nat): seq<Mutation> {
    var done := Put(Meta, Field(BackfilledThrough), Num(at));
    if at == end then [done, Put(Meta, Field(LegacyAgeFloor), Clock(now)), Put(Meta, Field(SchemaVersion), Tag(V2))]
    else [done]
  }

  function BatchWrites(db: Database, rs: seq<BillingRecord>, stop: nat, now: nat): seq<Mutation> {
    RecordsWrites(rs) + ClosingWrites(stop, MetaNum(db, LegacyThrough), now)
  }

  /** Where this call stops. */
  function StopAt(db: Database, batch: nat): nat {
    var at, end := MetaNum(db, BackfilledThrough), MetaNum(db, LegacyThrough);
    if at < end then at + Min(batch, end - at) else at
  }

  function Opened(db: Database): Database {
    if HasVersion(db, V1) then ApplyAll(db, OpeningWrites(db)) else db
  }

  function MigrateOutcome(db: Database, batch: nat, now: nat): Outcome {
    if Fenced(db) then Refuse(Unavailable)
    else if HasVersion(db, V2) then Write([])
    else
      var opening := if HasVersion(db, V1) then OpeningWrites(db) else [];
      var d := Opened(db);
      var at := MetaNum(d, BackfilledThrough);
      match Backfill(d, at, StopAt(d, batch) - at)
      case None => Refuse(Unavailable)
      case Some(rs) => Write(opening + BatchWrites(d, rs, StopAt(d, batch), now))
  }

  // ---- opening -------------------------------------------------------------------------------------

  /** `d` is `db` with empty buckets added for the names that were missing. */
  ghost predicate Created(d: Database, db: Database, names: seq<BucketName>) {
    && (forall b :: b in d <==> b in db || b in names)
    && (forall b :: TableOf(d, b) == TableOf(db, b))
  }

  lemma CreatedNext(d: Database, t: Database, db: Database, names: seq<BucketName>, n: BucketName)
    requires Created(t, db, names) && d == ApplyOne(t, Create(n))
    ensures Created(d, db, names + [n])
  {}

  lemma {:induction false} CreateEffect(db: Database, names: seq<BucketName>)
    ensures Created(ApplyAll(db, Creates(names)), db, names) && Applicable(db, Creates(names))
  {
    if names != [] {
      var rest, n := names[..|names| - 1], names[|names| - 1];
      CreateEffect(db, rest);
      ApplySnoc(db, Creates(rest), Create(n));
      CreatedNext(ApplyAll(db, Creates(names)), ApplyAll(db, Creates(rest)), db, rest, n);
      assert names == rest + [n];
    }
  }

  lemma {:induction false} CreatesAreDomain(names: seq<BucketName>)
    ensures DomainWrites(Creates(names))
  {
    if names != [] { CreatesAreDomain(names[..|names| - 1]); }
  }

  lemma CreatedBuckets(db: Database)
    requires db.Keys == BaseBuckets
    ensures ApplyAll(db, Creates(NewBuckets)).Keys == AllBuckets
  {
    CreateEffect(db, NewBuckets);
    var d := ApplyAll(db, Creates(NewBuckets));
    assert forall b :: b in AllBuckets <==> b in BaseBuckets || b in NewBuckets;
    assert forall b :: b in d.Keys <==> b in AllBuckets;
  }

  lemma OpeningEffect(db: Database)
    requires db.Keys == BaseBuckets
    ensures IsOpened(ApplyAll(db, OpeningWrites(db)), db)
    ensures Applicable(db, OpeningWrites(db)) && DomainWrites(OpeningWrites(db))
  {
    CreatedBuckets(db);
    CreateEffect(db, NewBuckets);
    CreatesAreDomain(NewBuckets);
    OpeningTail(db, Creates(NewBuckets));
  }

  lemma OpeningTail(db: Database, ws: seq<Mutation>)
    requires var e := ApplyAll(db, ws); e.Keys == AllBuckets && forall b :: TableOf(e, b) == TableOf(db, b)
    requires Applicable(db, ws) && DomainWrites(ws)
    ensures var all := ws + [Put(Meta, Field(SchemaVersion), Tag(Migrating))] + [Put(Meta, Field(LegacyThrough), Num(Head(db)))];
      IsOpened(ApplyAll(db, all), db) && Applicable(db, all) && DomainWrites(all)
  {
    hide IsOpened, ApplyAll, ApplyOne, Applicable, Head;
    var w8, w9 := Put(Meta, Field(SchemaVersion), Tag(Migrating)), Put(Meta, Field(LegacyThrough), Num(Head(db)));
    ApplySnoc(db, ws, w8);
    ApplySnoc(db, ws + [w8], w9);
    OpeningMeta(ApplyAll(db, ws), db);
  }

  lemma OpeningMeta(e: Database, db: Database)
    requires e.Keys == AllBuckets && forall b :: TableOf(e, b) == TableOf(db, b)
    ensures var d := ApplyOne(e, Put(Meta, Field(SchemaVersion), Tag(Migrating)));
      Meta in d && IsOpened(ApplyOne(d, Put(Meta, Field(LegacyThrough), Num(Head(db)))), db)
  {}

  lemma OpeningKeeps(cfg: Config, db: Database, log: Log)
    requires Views(cfg, db, log) && VersionOf(db) == V1
    ensures Views(cfg, ApplyAll(db, OpeningWrites(db)), log)
    ensures EraOf(ApplyAll(db, OpeningWrites(db))) == Era(Migrating, Head(db), 0)
  {
    OpeningEffect(db);
    OpenedViews(cfg, ApplyAll(db, OpeningWrites(db)), db, log);
  }

  ghost predicate IsOpened(d: Database, db: Database) {
    && d.Keys == AllBuckets && (forall b :: b != Meta ==> TableOf(d, b) == TableOf(db, b))
    && Rows(d, Meta) == Rows(db, Meta)[Field(SchemaVersion) := Tag(Migrating)][Field(LegacyThrough) := Num(Head(db))]
  }

  lemma OpenedReadings(d: Database, db: Database)
    requires IsOpened(d, db) && VersionOf(db) == V1 && EraOk(EraOf(db), Head(db), AgeFloor(db))
    ensures EraOf(d) == Era(Migrating, Head(db), 0) && EraOf(db) == Era(V1, 0, 0)
    ensures StoreId(d) == StoreId(db) && Floor(d) == Floor(db) && Generation(d) == Generation(db)
    ensures MetaNum(d, CapturedThrough) == MetaNum(db, CapturedThrough) && MetaNum(d, CacheBytes) == MetaNum(db, CacheBytes)
    ensures HasSession(d) == HasSession(db)
  {
    assert Get(d, Meta, Field(BackfilledThrough)) == Get(db, Meta, Field(BackfilledThrough));
  }

  lemma OpenedIds(ids: Rowset, log: Log, era: Era)
    requires IdsOk(ids, log, Era(V1, 0, 0)) && era == Era(Migrating, |log|, 0) && LogOk(log)
    ensures IdsOk(ids, log, era)
  {
    forall i | 0 <= i < |log|
      ensures Name(log[i].event.id) in ids && ids[Name(log[i].event.id)] == IdValue(log[i], era)
    {
      assert Decodes(log[i], i + 1);
    }
    forall k | k in ids ensures IdKnown(ids, k, log) {}
  }

  lemma OpenedViews(cfg: Config, d: Database, db: Database, log: Log)
    requires Views(cfg, db, log) && VersionOf(db) == V1 && IsOpened(d, db)
    ensures Views(cfg, d, log) && EraOf(d) == Era(Migrating, Head(db), 0)
  {
    hide IsOpened, Rows, MetaNum, Get, EraOf, ProtocolOk, Floor, Generation, StoreId, HasSession;
    OpenedReadings(d, db);
    assert TableOf(db, ReceiptIds) == EmptyTable && TableOf(db, ReceiptTimes) == EmptyTable;
    OpenedIds(Rows(db, Ids), log, EraOf(d));
    OpenedLedger(d, db, log);
    OpenedSchema(d, db);
    OpenedProtocol(cfg, d, db);
  }

  lemma OpenedLedger(d: Database, db: Database, log: Log)
    requires SchemaOk(db) && LedgerOk(db, log) && VersionOf(db) == V1 && IsOpened(d, db)
    ensures LedgerOk(d, log)
  {
    hide MetaNum, Get, QuietBeforeV2, EraOk, IdsOk, MetaOk;
    OpenedReadings(d, db);
    assert TableOf(db, ReceiptIds) == EmptyTable && TableOf(db, ReceiptTimes) == EmptyTable;
    OpenedIds(Rows(db, Ids), log, EraOf(d));
  }

  lemma OpenedSchema(d: Database, db: Database)
    requires SchemaOk(db) && VersionOf(db) == V1 && IsOpened(d, db)
    ensures SchemaOk(d)
  {
    OpenedReadings(d, db);
  }

  lemma OpenedProtocol(cfg: Config, d: Database, db: Database)
    requires SchemaOk(db) && ProtocolOk(cfg, db) && VersionOf(db) == V1 && IsOpened(d, db)
    ensures ProtocolOk(cfg, d)
  {
    OpenedReadings(d, db);
  }

  // ---- backfilling ----------------------------------------------------------------------------------

  /** `d` is `db` with the receipts of record `r` written. */
  ghost predicate Backfilled1(d: Database, db: Database, r: BillingRecord) {
    && SameTables(d, db, {Meta, Events, MutationJournal, Catalog, ArchiveCache, Operations, Captures})
    && Rows(d, Ids) == Rows(db, Ids)[Name(r.event.id) := Bound(BindingOf(r))]
    && Rows(d, ReceiptTimes) == Rows(db, ReceiptTimes)[Seq(r.sequence) := LegacyClock]
    && Rows(d, ReceiptIds) == Rows(db, ReceiptIds)[Seq(r.sequence) := Text(r.event.id)]
  }

  lemma RecordEffect(db: Database, r: BillingRecord)
    requires Ids in db && ReceiptTimes in db && ReceiptIds in db
    ensures Backfilled1(ApplyAll(db, RecordWrites(r)), db, r)
    ensures Applicable(db, RecordWrites(r))
  {
    ApplyTriple(db, Put(Ids, Name(r.event.id), Bound(BindingOf(r))), Put(ReceiptTimes, Seq(r.sequence), LegacyClock),
                Put(ReceiptIds, Seq(r.sequence), Text(r.event.id)));
    RecordTables(db, r);
  }

  lemma RecordTables(db: Database, r: BillingRecord)
    requires Ids in db && ReceiptTimes in db && ReceiptIds in db
    ensures var w1, w2, w3 := Put(Ids, Name(r.event.id), Bound(BindingOf(r))), Put(ReceiptTimes, Seq(r.sequence), LegacyClock),
        Put(ReceiptIds, Seq(r.sequence), Text(r.event.id));
      Backfilled1(ApplyOne(ApplyOne(ApplyOne(db, w1), w2), w3), db, r)
  {
    hide BindingOf;
  }

  function IdsAfter(ids: Rowset, rs: seq<BillingRecord>): Rowset {
    if rs == [] then ids
    else
      var r := rs[|rs| - 1];
      IdsAfter(ids, rs[..|rs| - 1])[Name(r.event.id) := Bound(BindingOf(r))]
  }

  function TimesAfter(times: Rowset, rs: seq<BillingRecord>): Rowset {
    if rs == [] then times else TimesAfter(times, rs[..|rs| - 1])[Seq(rs[|rs| - 1].sequence) := LegacyClock]
  }

  function ReceiptIdsAfter(receiptIds: Rowset, rs: seq<BillingRecord>): Rowset {
    if rs == [] then receiptIds
    else
      var r := rs[|rs| - 1];
      ReceiptIdsAfter(receiptIds, rs[..|rs| - 1])[Seq(r.sequence) := Text(r.event.id)]
  }

  /** `d` is `db` with the receipts of all of `rs` written. */
  ghost predicate Backfilled(d: Database, db: Database, rs: seq<BillingRecord>) {
    && SameTables(d, db, Untouched)
    && Rows(d, Ids) == IdsAfter(Rows(db, Ids), rs)
    && Rows(d, ReceiptTimes) == TimesAfter(Rows(db, ReceiptTimes), rs)
    && Rows(d, ReceiptIds) == ReceiptIdsAfter(Rows(db, ReceiptIds), rs)
  }

  lemma AfterSnoc(rows: Rowset, rs: seq<BillingRecord>, r: BillingRecord)
    ensures IdsAfter(rows, rs + [r]) == IdsAfter(rows, rs)[Name(r.event.id) := Bound(BindingOf(r))]
    ensures TimesAfter(rows, rs + [r]) == TimesAfter(rows, rs)[Seq(r.sequence) := LegacyClock]
    ensures ReceiptIdsAfter(rows, rs + [r]) == ReceiptIdsAfter(rows, rs)[Seq(r.sequence) := Text(r.event.id)]
    ensures RecordsWrites(rs + [r]) == RecordsWrites(rs) + RecordWrites(r)
  {
    assert (rs + [r])[..|rs|] == rs;
  }

  lemma BackfilledStep(d: Database, t: Database, db: Database, rs: seq<BillingRecord>, r: BillingRecord)
    requires Backfilled(t, db, rs) && Backfilled1(d, t, r)
    ensures Backfilled(d, db, rs + [r])
  {
    AfterSnoc(Rows(db, Ids), rs, r);
    AfterSnoc(Rows(db, ReceiptTimes), rs, r);
    AfterSnoc(Rows(db, ReceiptIds), rs, r);
    forall b | b in Untouched ensures TableOf(d, b) == TableOf(db, b) { assert TableOf(t, b) == TableOf(db, b); }
  }

  lemma BackfilledExtends(db: Database, ws: seq<Mutation>, rs: seq<BillingRecord>, r: BillingRecord)
    requires Ids in db && ReceiptTimes in db && ReceiptIds in db
    requires Backfilled(ApplyAll(db, ws), db, rs) && Applicable(db, ws)
    ensures Backfilled(ApplyAll(db, ws + RecordWrites(r)), db, rs + [r]) && Applicable(db, ws + RecordWrites(r))
  {
    var t := ApplyAll(db, ws);
    RecordEffect(t, r);
    ApplyAppend(db, ws, RecordWrites(r));
    BackfilledStep(ApplyAll(t, RecordWrites(r)), t, db, rs, r);
  }

  lemma {:induction false} RecordsEffect(db: Database, rs: seq<BillingRecord>)
    requires Ids in db && ReceiptTimes in db && ReceiptIds in db
    ensures Backfilled(ApplyAll(db, RecordsWrites(rs)), db, rs)
    ensures Applicable(db, RecordsWrites(rs))
  {
    if rs != [] {
      var rest := rs[..|rs| - 1];
      RecordsEffect(db, rest);
      BackfilledExtends(db, RecordsWrites(rest), rest, rs[|rs| - 1]);
      assert rs == rest + [rs[|rs| - 1]];
      AfterSnoc(map[], rest, rs[|rs| - 1]);
    }
  }

  lemma {:induction false} RecordsAreDomain(rs: seq<BillingRecord>)
    ensures DomainWrites(RecordsWrites(rs))
  {
    if rs != [] {
      RecordsAreDomain(rs[..|rs| - 1]);
      RecordIsDomain(rs[|rs| - 1]);
    }
  }

  lemma IdBackfilled(ids: Rowset, log: Log, legacy: nat, at: nat)
    requires IdsOk(ids, log, Era(Migrating, legacy, at)) && LogOk(log) && at < legacy <= |log|
    ensures var r := log[at];
      && Name(r.event.id) in ids && ids[Name(r.event.id)] == Num(at + 1)
      && IdsOk(ids[Name(r.event.id) := Bound(BindingOf(r))], log, Era(Migrating, legacy, at + 1))
  {
    var r, era, era' := log[at], Era(Migrating, legacy, at), Era(Migrating, legacy, at + 1);
    assert Decodes(r, at + 1);
    var ids' := ids[Name(r.event.id) := Bound(BindingOf(r))];
    forall i | 0 <= i < |log|
      ensures Name(log[i].event.id) in ids' && ids'[Name(log[i].event.id)] == IdValue(log[i], era')
    {
      assert Decodes(log[i], i + 1);
      assert ids[Name(log[i].event.id)] == IdValue(log[i], era);
      assert SequenceOfId(ids[Name(log[i].event.id)]) == i + 1;
      assert ids[Name(r.event.id)] == Num(at + 1);
    }
    forall k | k in ids' ensures IdKnown(ids', k, log) {
      if k != Name(r.event.id) { assert IdKnown(ids, k, log); }
    }
  }

  /** `rs` is what the log holds after record `at`. */
  ghost predicate IsSlice(rs: seq<BillingRecord>, log: Log, at: nat) {
    at + |rs| <= |log| && forall i :: 0 <= i < |rs| ==> rs[i] == log[at + i]
  }

  lemma {:induction false} IdsBackfilled(ids: Rowset, rs: seq<BillingRecord>, log: Log, legacy: nat, at: nat)
    requires IdsOk(ids, log, Era(Migrating, legacy, at)) && LogOk(log) && IsSlice(rs, log, at) && at + |rs| <= legacy <= |log|
    ensures IdsOk(IdsAfter(ids, rs), log, Era(Migrating, legacy, at + |rs|))
  {
    if rs != [] {
      var rest := rs[..|rs| - 1];
      IdsBackfilled(ids, rest, log, legacy, at);
      IdBackfilled(IdsAfter(ids, rest), log, legacy, at + |rest|);
    }
  }

  lemma TimeBackfilled(times: Rowset, head: nat, legacy: nat, at: nat)
    requires ReceiptTimesOk(times, head, Era(Migrating, legacy, at)) && at < legacy <= head
    ensures ReceiptTimesOk(times[Seq(at + 1) := LegacyClock], head, Era(Migrating, legacy, at + 1))
  {}

  lemma ReceiptIdBackfilled(receiptIds: Rowset, log: Log, legacy: nat, at: nat, r: BillingRecord)
    requires ReceiptIdsOk(receiptIds, log, Era(Migrating, legacy, at)) && at < legacy <= |log|
    requires r == log[at] && r.sequence == at + 1
    ensures ReceiptIdsOk(receiptIds[Seq(r.sequence) := Text(r.event.id)], log, Era(Migrating, legacy, at + 1))
  {}

  lemma {:induction false} TimesBackfilled(times: Rowset, rs: seq<BillingRecord>, log: Log, legacy: nat, at: nat)
    requires ReceiptTimesOk(times, |log|, Era(Migrating, legacy, at)) && LogOk(log)
    requires IsSlice(rs, log, at) && at + |rs| <= legacy <= |log|
    ensures ReceiptTimesOk(TimesAfter(times, rs), |log|, Era(Migrating, legacy, at + |rs|))
  {
    hide ReceiptTimesOk;
    if rs != [] {
      var rest := rs[..|rs| - 1];
      TimesBackfilled(times, rest, log, legacy, at);
      assert Decodes(log[at + |rest|], at + |rest| + 1);
      TimeBackfilled(TimesAfter(times, rest), |log|, legacy, at + |rest|);
    }
  }

  lemma {:induction false} ReceiptIdsBackfilled(receiptIds: Rowset, rs: seq<BillingRecord>, log: Log, legacy: nat, at: nat)
    requires ReceiptIdsOk(receiptIds, log, Era(Migrating, legacy, at)) && LogOk(log)
    requires IsSlice(rs, log, at) && at + |rs| <= legacy <= |log|
    ensures ReceiptIdsOk(ReceiptIdsAfter(receiptIds, rs), log, Era(Migrating, legacy, at + |rs|))
  {
    hide ReceiptIdsOk;
    if rs != [] {
      var rest, r := rs[..|rs| - 1], rs[|rs| - 1];
      ReceiptIdsBackfilled(receiptIds, rest, log, legacy, at);
      assert r == log[at + |rest|] && Decodes(r, at + |rest| + 1);
      var before := ReceiptIdsAfter(receiptIds, rest);
      ReceiptIdBackfilled(before, log, legacy, at + |rest|, r);
      assert ReceiptIdsAfter(receiptIds, rs) == before[Seq(r.sequence) := Text(r.event.id)];
    }
  }

  const Untouched: set<BucketName> := {Meta, Events, MutationJournal, Catalog, ArchiveCache, Operations, Captures}

  lemma UntouchedRows(d: Database, db: Database, rs: seq<BillingRecord>)
    requires Backfilled(d, db, rs)
    ensures TableOf(d, Meta) == TableOf(db, Meta) && TableOf(d, Events) == TableOf(db, Events)
    ensures TableOf(d, ArchiveCache) == TableOf(db, ArchiveCache)
  {}

  /** A batch moves the era forward by its records, whatever was inserted meanwhile. */
  lemma BackfilledRows(d: Database, db: Database, rs: seq<BillingRecord>)
    requires Backfilled(d, db, rs)
    ensures TableOf(d, Meta) == TableOf(db, Meta) && Head(d) == Head(db)
    ensures Rows(d, Events) == Rows(db, Events) && Rows(d, ArchiveCache) == Rows(db, ArchiveCache)
    ensures Rows(d, Ids) == IdsAfter(Rows(db, Ids), rs)
    ensures Rows(d, ReceiptTimes) == TimesAfter(Rows(db, ReceiptTimes), rs)
    ensures Rows(d, ReceiptIds) == ReceiptIdsAfter(Rows(db, ReceiptIds), rs)
  {
    UntouchedRows(d, db, rs);
  }

  lemma BackfilledLedger(d: Database, db: Database, rs: seq<BillingRecord>, log: Log, legacy: nat, at: nat, stop: nat)
    requires LedgerIn(db, log, Era(Migrating, legacy, at)) && IsSlice(rs, log, at) && at + |rs| == stop <= legacy <= |log|
    requires Backfilled(d, db, rs)
    ensures LedgerIn(d, log, Era(Migrating, legacy, stop))
  {
    hide IdsOk, HotOk, ReceiptIdsOk, ReceiptTimesOk, CacheOk, LogOk, Backfilled, IsSlice, EraOf, Floor, MetaNum, Rows, Head;
    BackfilledRows(d, db, rs);
    SameMeta(d, db);
    IdsBackfilled(Rows(db, Ids), rs, log, legacy, at);
    TimesBackfilled(Rows(db, ReceiptTimes), rs, log, legacy, at);
    ReceiptIdsBackfilled(Rows(db, ReceiptIds), rs, log, legacy, at);
  }

  lemma NextRead(d: Database, db: Database, rs: seq<BillingRecord>, log: Log, legacy: nat, at: nat)
    requires LogOk(log) && IdsOk(Rows(db, Ids), log, Era(Migrating, legacy, at)) && HotOk(Rows(db, Events), log, 0)
    requires IsSlice(rs, log, at) && at + |rs| < legacy <= |log| && Backfilled(d, db, rs)
    ensures LegacyRecord(d, at + |rs| + 1) == Some(log[at + |rs|])
  {
    hide IdsOk, IsSlice, Decodes, BindingOf, IdsAfter;
    UntouchedRows(d, db, rs);
    IdsBackfilled(Rows(db, Ids), rs, log, legacy, at);
    IdBackfilled(IdsAfter(Rows(db, Ids), rs), log, legacy, at + |rs|);
    assert Decodes(log[at + |rs|], at + |rs| + 1);
    assert Seq(at + |rs| + 1) in Rows(db, Events);
  }

  /** Under the invariant a batch is never refused: it reads exactly the next log records. */
  lemma BackfillRuns(db: Database, log: Log, legacy: nat, at: nat, k: nat)
    requires LogOk(log) && IdsOk(Rows(db, Ids), log, Era(Migrating, legacy, at)) && HotOk(Rows(db, Events), log, 0)
    requires db.Keys == AllBuckets && at + k <= legacy <= |log|
    ensures Backfill(db, at, k).Some? && |Backfill(db, at, k).value| == k && IsSlice(Backfill(db, at, k).value, log, at)
  {
    hide LegacyRecord;
    var read := ReaderOf(db);
    forall rs | IsSlice(rs, log, at) && at + |rs| < legacy ensures read(rs, at + |rs| + 1) == Some(log[at + |rs|]) {
      BackfillNext(db, rs, log, legacy, at);
    }
    CollectSlice(read, log, legacy, at, k);
  }

  lemma {:induction false} CollectSlice(read: Reader, log: Log, legacy: nat, at: nat, k: nat)
    requires at + k <= legacy <= |log|
    requires forall rs :: IsSlice(rs, log, at) && at + |rs| < legacy ==> read(rs, at + |rs| + 1) == Some(log[at + |rs|])
    ensures Collect(read, at, k).Some? && |Collect(read, at, k).value| == k && IsSlice(Collect(read, at, k).value, log, at)
  {
    if k > 0 { CollectSlice(read, log, legacy, at, k - 1); }
  }

  lemma BackfillNext(db: Database, rs: seq<BillingRecord>, log: Log, legacy: nat, at: nat)
    requires LogOk(log) && IdsOk(Rows(db, Ids), log, Era(Migrating, legacy, at)) && HotOk(Rows(db, Events), log, 0)
    requires db.Keys == AllBuckets && IsSlice(rs, log, at) && at + |rs| < legacy <= |log|
    ensures LegacyRecord(ApplyAll(db, RecordsWrites(rs)), at + |rs| + 1) == Some(log[at + |rs|])
  {
    RecordsEffect(db, rs);
    NextRead(ApplyAll(db, RecordsWrites(rs)), db, rs, log, legacy, at);
  }

  lemma RecordIsDomain(r: BillingRecord)
    ensures DomainWrites(RecordWrites(r))
  {}

  // ---- closing ---------------------------------------------------------------------------------------

  /** `d` is `t` with the new position stored, and version 2 reached when nothing is left. */
  ghost predicate IsClosed(d: Database, t: Database, at: nat, end: nat, now: nat) {
    && d.Keys == t.Keys && (forall b :: b != Meta ==> TableOf(d, b) == TableOf(t, b))
    && Rows(d, Meta) ==
         (var m := Rows(t, Meta)[Field(BackfilledThrough) := Num(at)];
          if at == end then m[Field(LegacyAgeFloor) := Clock(now)][Field(SchemaVersion) := Tag(V2)] else m)
  }

  lemma ClosingEffect(db: Database, at: nat, end: nat, now: nat)
    requires Meta in db
    ensures IsClosed(ApplyAll(db, ClosingWrites(at, end, now)), db, at, end, now)
    ensures Applicable(db, ClosingWrites(at, end, now)) && DomainWrites(ClosingWrites(at, end, now))
  {
    var done := Put(Meta, Field(BackfilledThrough), Num(at));
    ApplySingle(db, done);
    ApplyTriple(db, done, Put(Meta, Field(LegacyAgeFloor), Clock(now)), Put(Meta, Field(SchemaVersion), Tag(V2)));
  }

  lemma ClosedReadings(d: Database, t: Database, at: nat, end: nat, now: nat)
    requires IsClosed(d, t, at, end, now) && VersionOf(t) == Migrating && MetaNum(t, LegacyThrough) == end
    ensures EraOf(d) == Era(if at == end then V2 else Migrating, end, at)
    ensures at == end ==> AgeFloor(d) == now
    ensures StoreId(d) == StoreId(t) && Floor(d) == Floor(t) && Generation(d) == Generation(t) && Head(d) == Head(t)
    ensures MetaNum(d, CapturedThrough) == MetaNum(t, CapturedThrough) && MetaNum(d, CacheBytes) == MetaNum(t, CacheBytes)
    ensures HasSession(d) == HasSession(t)
  {
    assert Get(d, Meta, Field(LegacyThrough)) == Get(t, Meta, Field(LegacyThrough));
    assert Get(d, Meta, Field(BackfilledThrough)) == Some(Num(at));
    if at != end { assert Get(d, Meta, Field(SchemaVersion)) == Get(t, Meta, Field(SchemaVersion)); }
    assert TableOf(d, Events) == TableOf(t, Events);
  }

  /** The last backfilled state and version 2 promise the same about every record. */
  lemma FullAtEnd(ids: Rowset, receiptIds: Rowset, times: Rowset, log: Log, end: nat)
    requires IdsOk(ids, log, Era(Migrating, end, end)) && ReceiptIdsOk(receiptIds, log, Era(Migrating, end, end))
    requires ReceiptTimesOk(times, |log|, Era(Migrating, end, end))
    ensures IdsOk(ids, log, Era(V2, end, end)) && ReceiptIdsOk(receiptIds, log, Era(V2, end, end))
    ensures ReceiptTimesOk(times, |log|, Era(V2, end, end))
  {
    assert forall n :: Era(Migrating, end, end).Full(n) && Era(V2, end, end).Full(n);
    forall k | k in ids ensures IdKnown(ids, k, log) {}
  }

  lemma ClosedLedger(d: Database, t: Database, log: Log, at: nat, end: nat, now: nat)
    requires LedgerIn(t, log, Era(Migrating, end, at)) && VersionOf(t) == Migrating && MetaNum(t, LegacyThrough) == end
    requires IsClosed(d, t, at, end, now)
    ensures LedgerOk(d, log)
  {
    ClosedReadings(d, t, at, end, now);
    if at == end { FullAtEnd(Rows(t, Ids), Rows(t, ReceiptIds), Rows(t, ReceiptTimes), log, end); }
  }

  lemma ClosedSchema(d: Database, t: Database, at: nat, end: nat, now: nat)
    requires SchemaOk(t) && VersionOf(t) == Migrating && MetaNum(t, LegacyThrough) == end && at <= end && now > 0
    requires IsClosed(d, t, at, end, now)
    ensures SchemaOk(d)
  {
    hide MetaNum, Get, Generation, Floor, TableOf, AgeFloor, VersionOf, Head, StoreId, HasSession;
    ClosedReadings(d, t, at, end, now);
  }

  lemma ClosedProtocol(cfg: Config, d: Database, t: Database, at: nat, end: nat, now: nat)
    requires ProtocolOk(cfg, t) && VersionOf(t) == Migrating && MetaNum(t, LegacyThrough) == end
    requires IsClosed(d, t, at, end, now)
    ensures ProtocolOk(cfg, d)
  {
    ClosedReadings(d, t, at, end, now);
  }

  // ---- one call ------------------------------------------------------------------------------------------

  lemma BatchReadings(d: Database, t: Database, db: Database, rs: seq<BillingRecord>, stop: nat, now: nat)
    requires VersionOf(db) == Migrating && Backfilled(t, db, rs) && IsClosed(d, t, stop, EraOf(db).legacy, now)
    ensures EraOf(t) == EraOf(db) && TableOf(t, Meta) == TableOf(db, Meta) && TableOf(t, Events) == TableOf(db, Events)
    ensures EraOf(d) == Era(if stop == EraOf(db).legacy then V2 else Migrating, EraOf(db).legacy, stop)
    ensures stop == EraOf(db).legacy ==> AgeFloor(d) == now
    ensures Rows(d, Events) == Rows(db, Events) && Head(d) == Head(db)
  {
    UntouchedRows(t, db, rs);
    SameMeta(t, db);
    ClosedReadings(d, t, stop, EraOf(db).legacy, now);
    assert TableOf(d, Events) == TableOf(t, Events);
  }

  lemma BatchSchema(d: Database, t: Database, db: Database, rs: seq<BillingRecord>, stop: nat, now: nat)
    requires SchemaOk(db) && VersionOf(db) == Migrating && Backfilled(t, db, rs) && stop <= EraOf(db).legacy && now > 0
    requires IsClosed(d, t, stop, EraOf(db).legacy, now)
    ensures SchemaOk(d)
  {
    BatchReadings(d, t, db, rs, stop, now);
    SchemaSame(t, db);
    ClosedSchema(d, t, stop, EraOf(db).legacy, now);
  }

  lemma BatchProtocol(cfg: Config, d: Database, t: Database, db: Database, rs: seq<BillingRecord>, stop: nat, now: nat)
    requires ProtocolOk(cfg, db) && VersionOf(db) == Migrating && Backfilled(t, db, rs)
    requires IsClosed(d, t, stop, EraOf(db).legacy, now)
    ensures ProtocolOk(cfg, d)
  {
    BatchReadings(d, t, db, rs, stop, now);
    ProtocolSame(cfg, t, db);
    ClosedProtocol(cfg, d, t, stop, EraOf(db).legacy, now);
  }

  lemma BatchLedger(d: Database, t: Database, db: Database, rs: seq<BillingRecord>, log: Log, at: nat, stop: nat, end: nat, now: nat)
    requires LedgerIn(db, log, Era(Migrating, end, at)) && IsSlice(rs, log, at) && at + |rs| == stop <= end <= |log|
    requires Backfilled(t, db, rs) && IsClosed(d, t, stop, end, now)
    requires VersionOf(t) == Migrating && MetaNum(t, LegacyThrough) == end
    ensures LedgerOk(d, log)
  {
    BackfilledLedger(t, db, rs, log, end, at, stop);
    ClosedLedger(d, t, log, stop, end, now);
  }

  /** `d` is `db` after one batch over `rs` that stopped at record `stop`. */
  ghost predicate IsBatch(d: Database, db: Database, rs: seq<BillingRecord>, stop: nat, now: nat) {
    exists t :: Backfilled(t, db, rs) && IsClosed(d, t, stop, EraOf(db).legacy, now)
  }

  lemma BatchKeeps(cfg: Config, d: Database, db: Database, rs: seq<BillingRecord>, log: Log, at: nat, stop: nat, end: nat, now: nat)
    requires Views(cfg, db, log) && EraOf(db) == Era(Migrating, end, at) && now > 0
    requires IsSlice(rs, log, at) && at + |rs| == stop <= end && IsBatch(d, db, rs, stop, now)
    ensures Views(cfg, d, log)
  {
    var t :| Backfilled(t, db, rs) && IsClosed(d, t, stop, end, now);
    BatchSchema(d, t, db, rs, stop, now);
    BatchProtocol(cfg, d, t, db, rs, stop, now);
    BatchReadings(d, t, db, rs, stop, now);
    BatchLedger(d, t, db, rs, log, at, stop, end, now);
  }

  lemma BatchAdvanced(d: Database, o: Database, db: Database, rs: seq<BillingRecord>, batch: nat, now: nat)
    requires OpenedFrom(o, db) && VersionOf(db) != V2 && IsBatch(d, o, rs, StopAt(o, batch), now)
    requires EraOf(o).backfilled <= EraOf(o).legacy
    ensures Advanced(d, db, batch, now)
  {
    hide Backfilled;
    var stop := StopAt(o, batch);
    var t :| Backfilled(t, o, rs) && IsClosed(d, t, stop, EraOf(o).legacy, now);
    BatchReadings(d, t, o, rs, stop, now);
  }

  lemma BatchEffect(db: Database, rs: seq<BillingRecord>, stop: nat, now: nat)
    requires db.Keys == AllBuckets && VersionOf(db) == Migrating
    ensures IsBatch(ApplyAll(db, BatchWrites(db, rs, stop, now)), db, rs, stop, now)
    ensures Applicable(db, BatchWrites(db, rs, stop, now)) && DomainWrites(BatchWrites(db, rs, stop, now))
  {
    var end := EraOf(db).legacy;
    var t := ApplyAll(db, RecordsWrites(rs));
    RecordsEffect(db, rs);
    RecordsAreDomain(rs);
    ClosingEffect(t, stop, end, now);
    ApplyAppend(db, RecordsWrites(rs), ClosingWrites(stop, end, now));
  }

  function MigrateWrites(db: Database, rs: seq<BillingRecord>, stop: nat, now: nat): seq<Mutation> {
    (if HasVersion(db, V1) then OpeningWrites(db) else []) + BatchWrites(Opened(db), rs, stop, now)
  }

  /** `o` is `db` with the migration opened: what the rest of the call reads. */
  ghost predicate OpenedFrom(o: Database, db: Database) {
    && VersionOf(o) == Migrating && Rows(o, Events) == Rows(db, Events) && Head(o) == Head(db)
    && EraOf(o) == if VersionOf(db) == V1 then Era(Migrating, Head(db), 0) else EraOf(db)
  }

  lemma OpenedIs(cfg: Config, db: Database, log: Log)
    requires Views(cfg, db, log) && VersionOf(db) != V2
    ensures Views(cfg, Opened(db), log) && OpenedFrom(Opened(db), db)
  {
    if VersionOf(db) == V1 {
      OpeningKeeps(cfg, db, log);
      OpeningEffect(db);
      assert TableOf(Opened(db), Events) == TableOf(db, Events);
    }
  }

  lemma StopBounds(db: Database, batch: nat)
    requires EraOf(db).backfilled <= EraOf(db).legacy
    ensures EraOf(db).backfilled <= StopAt(db, batch) <= EraOf(db).legacy
  {}

  lemma MigrateEffect(db: Database, o: Database, rs: seq<BillingRecord>, stop: nat, now: nat, ws: seq<Mutation>)
    requires o == Opened(db) && o.Keys == AllBuckets && VersionOf(o) == Migrating && BucketsOk(db)
    requires (HasVersion(db, V1) <==> VersionOf(db) == V1) && ws == MigrateWrites(db, rs, stop, now)
    ensures IsBatch(ApplyAll(db, ws), o, rs, stop, now)
    ensures Applicable(db, ws) && DomainWrites(ws) && ws != []
  {
    BatchEffect(o, rs, stop, now);
    var opening := if HasVersion(db, V1) then OpeningWrites(db) else [];
    if VersionOf(db) == V1 { OpeningEffect(db); }
    ApplyAppend(db, opening, BatchWrites(o, rs, stop, now));
  }

  lemma ReadsSlice(cfg: Config, o: Database, log: Log, at: nat, k: nat, end: nat)
    requires Views(cfg, o, log) && EraOf(o) == Era(Migrating, end, at) && at + k <= end
    ensures Backfill(o, at, k).Some? && |Backfill(o, at, k).value| == k && IsSlice(Backfill(o, at, k).value, log, at)
  {
    assert o.Keys == AllBuckets && end <= |log|;
    BackfillRuns(o, log, end, at, k);
  }

  lemma OutcomeFrom(db: Database, o: Database, at: nat, k: nat, batch: nat, now: nat)
    requires o == Opened(db) && !Fenced(db) && !HasVersion(db, V2)
    requires at == MetaNum(o, BackfilledThrough) && StopAt(o, batch) == at + k && Backfill(o, at, k).Some?
    ensures MigrateOutcome(db, batch, now) == Write(MigrateWrites(db, Backfill(o, at, k).value, at + k, now))
  {}

  /** Under the invariant and outside recovery, a migration call is never refused. */
  lemma MigrateRuns(cfg: Config, db: Database, o: Database, log: Log, batch: nat, now: nat) returns (rs: seq<BillingRecord>)
    requires o == Opened(db) && !Fenced(db) && !HasVersion(db, V2)
    requires Views(cfg, o, log) && VersionOf(o) == Migrating
    ensures IsSlice(rs, log, EraOf(o).backfilled) && EraOf(o).backfilled + |rs| == StopAt(o, batch) <= EraOf(o).legacy
    ensures MigrateOutcome(db, batch, now) == Write(MigrateWrites(db, rs, StopAt(o, batch), now))
  {
    StopBounds(o, batch);
    var at, k := EraOf(o).backfilled, StopAt(o, batch) - EraOf(o).backfilled;
    ReadsSlice(cfg, o, log, at, k, EraOf(o).legacy);
    OutcomeFrom(db, o, at, k, batch, now);
    rs := Backfill(o, at, k).value;
  }

  function Remaining(db: Database): nat {
    if VersionOf(db) == V1 then Head(db)
    else if EraOf(db).backfilled < EraOf(db).legacy then EraOf(db).legacy - EraOf(db).backfilled else 0
  }

  /** Less remaining work, version 2 exactly when none remains, dated by the clock of the call
      that reached it, and the events as before. */
  ghost predicate Advanced(d: Database, db: Database, batch: nat, now: nat) {
    && (VersionOf(d) == V2 ==> AgeFloor(d) == now)
    && EraOf(d).legacy == (if VersionOf(db) == V1 then Head(db) else EraOf(db).legacy)
    && Remaining(d) == Remaining(db) - Min(batch, Remaining(db))
    && VersionOf(d) == (if Remaining(d) == 0 then V2 else Migrating)
    && Rows(d, Events) == Rows(db, Events) && Head(d) == Head(db)
  }

  // ---- what migration takes back: nothing ------------------------------------------------------------------

  lemma {:induction false} TimesKept(times: Rowset, rs: seq<BillingRecord>, k: Key)
    requires forall r <- rs :: k != Seq(r.sequence)
    ensures k in TimesAfter(times, rs) <==> k in times
    ensures k in times ==> TimesAfter(times, rs)[k] == times[k]
  {
    if rs != [] {
      assert forall r <- rs[..|rs| - 1] :: r in rs;
      TimesKept(times, rs[..|rs| - 1], k);
    }
  }

  /** Before version 2 only records with their own clock have a receipt time. */
  lemma TimesBeforeV2(db: Database, n: nat)
    requires SchemaOk(db) && VersionOf(db) != V2
    ensures ReceiptTime(db, n).Some? ==> Seq(n) in Rows(db, ReceiptTimes) && Rows(db, ReceiptTimes)[Seq(n)].Clock?
  {
    assert AgeFloor(db) == 0;
  }

  lemma BatchTimes(d: Database, t: Database, o: Database, rs: seq<BillingRecord>, log: Log, at: nat, end: nat, now: nat)
    requires SchemaOk(o) && EraOf(o) == Era(Migrating, end, at) && LogOk(log) && IsSlice(rs, log, at) && at + |rs| <= end
    requires ReceiptTimesOk(Rows(o, ReceiptTimes), |log|, EraOf(o))
    requires Backfilled(t, o, rs) && IsClosed(d, t, at + |rs|, end, now)
    ensures forall n :: ReceiptTime(o, n).Some? ==> ReceiptTime(d, n) == ReceiptTime(o, n)
  {
    hide SameTables, Untouched, MetaOk, BucketsOk, QuietBeforeV2, TableOf;
    assert TableOf(d, ReceiptTimes) == TableOf(t, ReceiptTimes);
    forall n | ReceiptTime(o, n).Some? ensures ReceiptTime(d, n) == ReceiptTime(o, n) {
      TimesBeforeV2(o, n);
      forall i | 0 <= i < |rs| ensures rs[i].sequence != n { assert Decodes(log[at + i], at + i + 1); }
      TimesKept(Rows(o, ReceiptTimes), rs, Seq(n));
    }
  }

  lemma BatchAdvances(d: Database, o: Database, rs: seq<BillingRecord>, log: Log, at: nat, stop: nat, end: nat, now: nat)
    requires SchemaOk(o) && EraOf(o) == Era(Migrating, end, at) && LogOk(log) && IsSlice(rs, log, at) && at + |rs| == stop <= end
    requires ReceiptTimesOk(Rows(o, ReceiptTimes), |log|, EraOf(o))
    requires IsBatch(d, o, rs, stop, now)
    ensures Advances(d, o)
  {
    hide Backfilled, SchemaOk, MetaNum, IsSlice, Decodes, ReceiptTimesOk, LogOk;
    var t :| Backfilled(t, o, rs) && IsClosed(d, t, stop, end, now);
    BatchTimes(d, t, o, rs, log, at, end, now);
    BatchReadings(d, t, o, rs, stop, now);
    SameMeta(t, o);
    ClosedReadings(d, t, stop, end, now);
    assert Get(d, Meta, Field(RecoveryFence)) == Get(t, Meta, Field(RecoveryFence));
    BatchKeepsRows(d, t, o, rs, stop, end, now);
  }

  lemma BatchKeepsRows(d: Database, t: Database, o: Database, rs: seq<BillingRecord>, stop: nat, end: nat, now: nat)
    requires Backfilled(t, o, rs) && IsClosed(d, t, stop, end, now)
    ensures Rows(d, Catalog) == Rows(o, Catalog) && Rows(d, Operations) == Rows(o, Operations) && Rows(d, Captures) == Rows(o, Captures)
  {
    assert TableOf(t, Catalog) == TableOf(o, Catalog) && TableOf(t, Operations) == TableOf(o, Operations)
      && TableOf(t, Captures) == TableOf(o, Captures);
    assert TableOf(d, Catalog) == TableOf(t, Catalog) && TableOf(d, Operations) == TableOf(t, Operations)
      && TableOf(d, Captures) == TableOf(t, Captures);
  }

  lemma OpenedAdvances(o: Database, db: Database)
    requires SchemaOk(db) && VersionOf(db) == V1 && IsOpened(o, db)
    ensures Advances(o, db)
  {
    hide MetaNum;
    OpenedReadings(o, db);
    assert Get(o, Meta, Field(LegacyAgeFloor)) == Get(db, Meta, Field(LegacyAgeFloor));
    assert Get(o, Meta, Field(RecoveryFence)) == Get(db, Meta, Field(RecoveryFence));
    assert TableOf(o, ReceiptTimes) == TableOf(db, ReceiptTimes) && TableOf(o, Catalog) == TableOf(db, Catalog)
      && TableOf(o, Operations) == TableOf(db, Operations) && TableOf(o, Events) == TableOf(db, Events)
      && TableOf(o, Captures) == TableOf(db, Captures);
    ReceiptFrame(o, db);
  }

  lemma OpeningAdvances(o: Database, db: Database)
    requires SchemaOk(db) && VersionOf(db) != V2 && o == Opened(db) && (HasVersion(db, V1) <==> VersionOf(db) == V1)
    ensures Advances(o, db)
  {
    if VersionOf(db) == V1 {
      OpeningEffect(db);
      OpenedAdvances(o, db);
    }
  }

  // ---- one committed call --------------------------------------------------------------------------------------

  lemma AdvancedCommit(d: Database, e: Database, db: Database, batch: nat, now: nat)
    requires SameViews(d, e) && Advanced(e, db, batch, now)
    ensures Advanced(d, db, batch, now)
  {
    SameReadings(d, e);
  }

  lemma MigrateCommit(cfg: Config, db: Database, ws: seq<Mutation>, log: Log, batch: nat, now: nat, overflow: bool)
    requires SchemaOk(db) && VersionOf(db) != V2 && Views(cfg, ApplyAll(db, ws), log)
    requires ws != [] && Applicable(db, ws) && DomainWrites(ws)
    requires Advanced(ApplyAll(db, ws), db, batch, now) && Advances(ApplyAll(db, ws), db)
    ensures Inv(cfg, Committed(db, ws, overflow), log) && Advanced(Committed(db, ws, overflow), db, batch, now)
    ensures Advances(Committed(db, ws, overflow), db) && Committable(db, ws)
  {
    CommitKeeps(cfg, db, ws, log, overflow);
    CommitSameViews(db, ws, overflow);
    AdvancedCommit(Committed(db, ws, overflow), ApplyAll(db, ws), db, batch, now);
  }

  lemma MigratedViews(cfg: Config, d: Database, o: Database, db: Database, rs: seq<BillingRecord>, log: Log, batch: nat, now: nat)
    requires VersionOf(db) != V2 && now > 0 && Views(cfg, o, log) && OpenedFrom(o, db) && Advances(o, db)
    requires IsSlice(rs, log, EraOf(o).backfilled) && EraOf(o).backfilled + |rs| == StopAt(o, batch) <= EraOf(o).legacy
    requires IsBatch(d, o, rs, StopAt(o, batch), now)
    ensures Views(cfg, d, log) && Advanced(d, db, batch, now) && Advances(d, db)
  {
    BatchKeeps(cfg, d, o, rs, log, EraOf(o).backfilled, StopAt(o, batch), EraOf(o).legacy, now);
    BatchAdvanced(d, o, db, rs, batch, now);
    BatchAdvances(d, o, rs, log, EraOf(o).backfilled, StopAt(o, batch), EraOf(o).legacy, now);
    AdvancesTrans(d, o, db);
  }

  lemma MigrateReady(cfg: Config, db: Database, log: Log)
    requires Views(cfg, db, log) && VersionOf(db) != V2
    ensures SchemaOk(db) && (HasVersion(db, V1) <==> VersionOf(db) == V1) && !HasVersion(db, V2) && BucketsOk(db)
    ensures var o := Opened(db);
      && Views(cfg, o, log) && OpenedFrom(o, db) && VersionOf(o) == Migrating && o.Keys == AllBuckets
      && EraOf(o).backfilled <= EraOf(o).legacy <= |log|
  {
    OpenedIs(cfg, db, log);
  }

  /** One migration call, at any point between inserts: it is not refused, it keeps the
      events bucket and the head, it lowers the remaining work by min(batch, remaining), and
      it reaches version 2 exactly when nothing remains. */
  lemma MigrateProgress(cfg: Config, db: Database, log: Log, batch: nat, now: nat, overflow: bool)
    requires Inv(cfg, db, log) && VersionOf(db) != V2 && !Fenced(db) && now > 0
    ensures MigrateOutcome(db, batch, now).Write? && MigrateOutcome(db, batch, now).writes != []
    ensures var d := Committed(db, MigrateOutcome(db, batch, now).writes, overflow);
      Inv(cfg, d, log) && Advanced(d, db, batch, now) && Advances(d, db)
    ensures Committable(db, MigrateOutcome(db, batch, now).writes)
  {
    MigrateReady(cfg, db, log);
    var o := Opened(db);
    var rs := MigrateRuns(cfg, db, o, log, batch, now);
    var ws := MigrateWrites(db, rs, StopAt(o, batch), now);
    MigrateEffect(db, o, rs, StopAt(o, batch), now, ws);
    OpeningAdvances(o, db);
    MigratedViews(cfg, ApplyAll(db, ws), o, db, rs, log, batch, now);
    MigrateCommit(cfg, db, ws, log, batch, now, overflow);
  }

  lemma MigrateKeeps(cfg: Config, db: Database, log: Log, batch: nat, now: nat, ws: seq<Mutation>, overflow: bool)
    requires Inv(cfg, db, log) && MigrateOutcome(db, batch, now) == Write(ws) && now > 0
    ensures Inv(cfg, Committed(db, ws, overflow), log) && Advances(Committed(db, ws, overflow), db)
    ensures ws != [] ==> Committable(db, ws)
    ensures if VersionOf(db) == V2 then ws == [] else Advanced(Committed(db, ws, overflow), db, batch, now)
  {
    if VersionOf(db) != V2 { MigrateProgress(cfg, db, log, batch, now, overflow); }
  }

  lemma BoundAt(db: Database, log: Log, i: nat)
    requires LedgerOk(db, log) && VersionOf(db) == V2 && i < |log|
    ensures Get(db, Ids, Name(log[i].event.id)) == Some(Bound(BindingOf(log[i]))) && log[i].sequence == i + 1
    ensures Get(db, ReceiptIds, Seq(i + 1)) == Some(Text(log[i].event.id)) && Seq(i + 1) in Rows(db, ReceiptTimes)
  {
    assert Decodes(log[i], i + 1) && Name(log[i].event.id) in Rows(db, Ids);
  }

  /** At version 2 every accepted record has exactly one self-contained binding, receipt id
      and receipt time, and there are no others. */
  lemma FullyBound(db: Database, log: Log)
    requires LedgerOk(db, log) && VersionOf(db) == V2
    ensures forall i :: 0 <= i < |log| ==>
              && Get(db, Ids, Name(log[i].event.id)) == Some(Bound(BindingOf(log[i])))
              && Get(db, ReceiptIds, Seq(i + 1)) == Some(Text(log[i].event.id))
              && Seq(i + 1) in Rows(db, ReceiptTimes)
    ensures forall k <- Rows(db, Ids) :: k.Name? && exists r <- log :: r.event.id == k.id
    ensures forall k <- Rows(db, ReceiptIds) :: k.Seq? && 1 <= k.n <= |log|
    ensures forall k <- Rows(db, ReceiptTimes) :: k.Seq? && 1 <= k.n <= |log|
    ensures forall i, j :: 0 <= i < j < |log| ==> log[i].event.id != log[j].event.id
  {
    forall i | 0 <= i < |log|
      ensures Get(db, Ids, Name(log[i].event.id)) == Some(Bound(BindingOf(log[i]))) && log[i].sequence == i + 1
      ensures Get(db, ReceiptIds, Seq(i + 1)) == Some(Text(log[i].event.id)) && Seq(i + 1) in Rows(db, ReceiptTimes)
    {
      BoundAt(db, log, i);
    }
    forall k | k in Rows(db, Ids) ensures k.Name? && exists r <- log :: r.event.id == k.id {
      assert IdKnown(Rows(db, Ids), k, log);
    }
  }
}
