/** Accepting an event: `InsertEvent`, its duplicate answers and its effect on the log. */
module Insertion {
  import opened Types
  import opened Store
  import opened Gateway
  import opened Replay
  import opened Archive
  import opened Invariant
  import opened Lifecycle

  /** The answer for an id that is already bound. Only a digest comparison is a verdict on
      the event; every inconsistency is Unavailable. */
  function DedupeAnswer(db: Database, e: LogEvent, v: Value): Error {
    match v
    case Bound(b) =>
      if b.sequence == 0 || b.sequence > Head(db)
         || Get(db, ReceiptIds, Seq(b.sequence)) != Some(Text(e.id)) then Unavailable
      else
        var stored := Get(db, Events, Seq(b.sequence));
        if stored.Some? && !(stored.value.Body? && RecordDigest(stored.value.r) == b.record) then Unavailable
        else if b.content != ContentOf(e) then BillingConflict else DuplicateEvent
    case Num(n) =>
      (match Get(db, Events, Seq(n))
       case Some(Body(r)) =>
         if !Acceptable(r.event) || r.content != ContentOf(r.event) || r.event.id != e.id || r.sequence != n
         then Unavailable
         else if r.content != ContentOf(e) then BillingConflict else DuplicateEvent
       case _ => Unavailable)
    case _ => Unavailable
  }

  function RecordFor(db: Database, e: LogEvent): BillingRecord {
    BillingRecord(Head(db) + 1, ContentOf(e), e)
  }

  function InsertWrites(db: Database, e: LogEvent, now: nat): seq<Mutation> {
    var r := RecordFor(db, e);
    [SetSequence(Events, r.sequence), Put(Events, Seq(r.sequence), Body(r))] +
    if HasVersion(db, V1) then [Put(Ids, Name(e.id), Num(r.sequence))]
    else [Put(Ids, Name(e.id), Bound(BindingOf(r))),
          Put(ReceiptIds, Seq(r.sequence), Text(e.id)),
          Put(ReceiptTimes, Seq(r.sequence), Clock(now))]
  }

  function InsertOutcome(db: Database, e: LogEvent, now: nat): Outcome {
    if !Acceptable(e) then Refuse(InvalidEvent)
    else match Get(db, Ids, Name(e.id))
      case Some(v) => Refuse(DedupeAnswer(db, e, v))
      case None => if Head(db) >= MAX_UINT64 then Refuse(Unavailable) else Write(InsertWrites(db, e, now))
  }

  // ---- the effect -------------------------------------------------------------------------------

  /** `d` is `db` with record `r` stored, bound and, from version 2 on, receipted. */
  ghost predicate Inserted(d: Database, db: Database, r: BillingRecord, now: nat) {
    var id := r.event.id;
    && SameTables(d, db, {Meta, MutationJournal, Catalog, ArchiveCache, Operations, Captures})
    && Head(d) == r.sequence
    && Rows(d, Events) == Rows(db, Events)[Seq(r.sequence) := Body(r)]
    && Rows(d, Ids) == Rows(db, Ids)[Name(id) := if VersionOf(db) == V1 then Num(r.sequence) else Bound(BindingOf(r))]
    && (VersionOf(db) == V1 ==> SameTables(d, db, {ReceiptIds, ReceiptTimes}))
    && (VersionOf(db) != V1 ==>
          && Rows(d, ReceiptIds) == Rows(db, ReceiptIds)[Seq(r.sequence) := Text(id)]
          && Rows(d, ReceiptTimes) == Rows(db, ReceiptTimes)[Seq(r.sequence) := Clock(now)])
  }

  /** `d` is `db` with the body of `r` and the head moved to it. */
  ghost predicate BodyIn(d: Database, db: Database, r: BillingRecord) {
    && d.Keys == db.Keys && (forall b :: b != Events ==> TableOf(d, b) == TableOf(db, b))
    && Head(d) == r.sequence && Rows(d, Events) == Rows(db, Events)[Seq(r.sequence) := Body(r)]
  }

  /** `d` is `db` with one row put. */
  ghost predicate RowIn(d: Database, db: Database, b: BucketName, k: Key, v: Value) {
    && d.Keys == db.Keys && (forall c :: c != b ==> TableOf(d, c) == TableOf(db, c)) && Rows(d, b) == Rows(db, b)[k := v]
  }

  lemma BodyPlaced(db: Database, r: BillingRecord)
    requires Events in db
    ensures BodyIn(ApplyAll(db, [SetSequence(Events, r.sequence), Put(Events, Seq(r.sequence), Body(r))]), db, r)
    ensures Applicable(db, [SetSequence(Events, r.sequence), Put(Events, Seq(r.sequence), Body(r))])
  {
    ApplyPair(db, SetSequence(Events, r.sequence), Put(Events, Seq(r.sequence), Body(r)));
  }

  lemma RowPlaced(db: Database, ws: seq<Mutation>, b: BucketName, k: Key, v: Value)
    requires b in ApplyAll(db, ws) && Applicable(db, ws)
    ensures RowIn(ApplyAll(db, ws + [Put(b, k, v)]), ApplyAll(db, ws), b, k, v) && Applicable(db, ws + [Put(b, k, v)])
  {
    hide ApplyAll, Applicable;
    ApplySnoc(db, ws, Put(b, k, v));
  }

  lemma InsertedAtV1(c: Database, d: Database, db: Database, r: BillingRecord, now: nat)
    requires BodyIn(d, db, r) && RowIn(c, d, Ids, Name(r.event.id), Num(r.sequence)) && VersionOf(db) == V1
    ensures Inserted(c, db, r, now)
  {
    hide VersionOf, TableOf, BindingOf;
  }

  lemma OthersStay(a: Database, b: Database, c: Database, d: Database, db: Database, r: BillingRecord, now: nat)
    requires BodyIn(d, db, r) && RowIn(c, d, Ids, Name(r.event.id), Bound(BindingOf(r)))
    requires RowIn(b, c, ReceiptIds, Seq(r.sequence), Text(r.event.id)) && RowIn(a, b, ReceiptTimes, Seq(r.sequence), Clock(now))
    ensures a.Keys == db.Keys && TableOf(a, Events) == TableOf(d, Events)
    ensures forall x :: x != Events && x != Ids && x != ReceiptIds && x != ReceiptTimes ==> TableOf(a, x) == TableOf(db, x)
    ensures TableOf(a, ReceiptIds) == TableOf(b, ReceiptIds) && TableOf(c, ReceiptIds) == TableOf(db, ReceiptIds)
    ensures TableOf(a, Ids) == TableOf(c, Ids) && TableOf(d, Ids) == TableOf(db, Ids)
    ensures TableOf(b, ReceiptTimes) == TableOf(db, ReceiptTimes)
  {
    hide TableOf, BindingOf, Rows, Head;
  }

  lemma InsertedLater(a: Database, b: Database, c: Database, d: Database, db: Database, r: BillingRecord, now: nat)
    requires BodyIn(d, db, r) && RowIn(c, d, Ids, Name(r.event.id), Bound(BindingOf(r))) && VersionOf(db) != V1
    requires RowIn(b, c, ReceiptIds, Seq(r.sequence), Text(r.event.id)) && RowIn(a, b, ReceiptTimes, Seq(r.sequence), Clock(now))
    ensures Inserted(a, db, r, now)
  {
    hide VersionOf, TableOf, BindingOf, BodyIn, RowIn, SameTables;
    OthersStay(a, b, c, d, db, r, now);
    OthersSame(a, db);
    assert Rows(a, Ids) == Rows(db, Ids)[Name(r.event.id) := Bound(BindingOf(r))] by { RowRead(c, d, Ids, Name(r.event.id), Bound(BindingOf(r))); }
    assert Rows(a, ReceiptIds) == Rows(db, ReceiptIds)[Seq(r.sequence) := Text(r.event.id)] by {
      RowRead(b, c, ReceiptIds, Seq(r.sequence), Text(r.event.id));
    }
    RowRead(a, b, ReceiptTimes, Seq(r.sequence), Clock(now));
    BodyRead(d, db, r);
  }

  lemma OthersSame(d: Database, db: Database)
    requires d.Keys == db.Keys
    requires forall x :: x != Events && x != Ids && x != ReceiptIds && x != ReceiptTimes ==> TableOf(d, x) == TableOf(db, x)
    ensures SameTables(d, db, {Meta, MutationJournal, Catalog, ArchiveCache, Operations, Captures})
  {
    hide TableOf;
  }

  lemma RowRead(d: Database, db: Database, b: BucketName, k: Key, v: Value)
    requires RowIn(d, db, b, k, v)
    ensures Rows(d, b) == Rows(db, b)[k := v]
  {}

  lemma BodyRead(d: Database, db: Database, r: BillingRecord)
    requires BodyIn(d, db, r)
    ensures Head(d) == r.sequence && Rows(d, Events) == Rows(db, Events)[Seq(r.sequence) := Body(r)]
  {}

  lemma InsertEffect(db: Database, e: LogEvent, now: nat)
    requires BucketsOk(db) && (HasVersion(db, V1) <==> VersionOf(db) == V1)
    ensures Inserted(ApplyAll(db, InsertWrites(db, e, now)), db, RecordFor(db, e), now)
    ensures Applicable(db, InsertWrites(db, e, now))
  {
    hide ApplyAll, Applicable, Inserted, VersionOf, HasVersion, BindingOf, Head;
    var r := RecordFor(db, e);
    var ws := [SetSequence(Events, r.sequence), Put(Events, Seq(r.sequence), Body(r))];
    BodyPlaced(db, r);
    if VersionOf(db) == V1 {
      var w := Put(Ids, Name(e.id), Num(r.sequence));
      assert InsertWrites(db, e, now) == ws + [w];
      RowPlaced(db, ws, w.bucket, w.key, w.value);
      InsertedAtV1(ApplyAll(db, ws + [w]), ApplyAll(db, ws), db, r, now);
    } else {
      InsertBound(db, r, now, ws);
      assert InsertWrites(db, e, now) == ws + [Put(Ids, Name(e.id), Bound(BindingOf(r)))] +
        [Put(ReceiptIds, Seq(r.sequence), Text(e.id))] + [Put(ReceiptTimes, Seq(r.sequence), Clock(now))];
    }
  }

  lemma InsertBound(db: Database, r: BillingRecord, now: nat, ws: seq<Mutation>)
    requires BodyIn(ApplyAll(db, ws), db, r) && Applicable(db, ws) && VersionOf(db) != V1 && db.Keys == AllBuckets
    ensures var all := ws + [Put(Ids, Name(r.event.id), Bound(BindingOf(r)))] +
        [Put(ReceiptIds, Seq(r.sequence), Text(r.event.id))] + [Put(ReceiptTimes, Seq(r.sequence), Clock(now))];
      Inserted(ApplyAll(db, all), db, r, now) && Applicable(db, all)
  {
    hide ApplyAll, Applicable, Inserted, VersionOf, BindingOf;
    var w3, w4, w5 := Put(Ids, Name(r.event.id), Bound(BindingOf(r))), Put(ReceiptIds, Seq(r.sequence), Text(r.event.id)),
      Put(ReceiptTimes, Seq(r.sequence), Clock(now));
    var us := ws + [w3];
    RowPlaced(db, ws, w3.bucket, w3.key, w3.value);
    var vs := us + [w4];
    RowPlaced(db, us, w4.bucket, w4.key, w4.value);
    RowPlaced(db, vs, w5.bucket, w5.key, w5.value);
    InsertedLater(ApplyAll(db, vs + [w5]), ApplyAll(db, vs), ApplyAll(db, us), ApplyAll(db, ws), db, r, now);
  }

  lemma InsertIsDomain(db: Database, e: LogEvent, now: nat)
    ensures var ws := InsertWrites(db, e, now);
      ws != [] && DomainWrites(ws) && forall w <- ws :: Replayable(w)
  {}

  // ---- the log grows by one -----------------------------------------------------------------------

  lemma IdsInsert(ids: Rowset, log: Log, era: Era, r: BillingRecord)
    requires IdsOk(ids, log, era) && r.sequence == |log| + 1 && Name(r.event.id) !in ids
    ensures IdsOk(ids[Name(r.event.id) := IdValue(r, era)], log + [r], era)
  {
    var ids', log' := ids[Name(r.event.id) := IdValue(r, era)], log + [r];
    forall i | 0 <= i < |log'|
      ensures Name(log'[i].event.id) in ids' && ids'[Name(log'[i].event.id)] == IdValue(log'[i], era)
    {
      if i < |log| { assert log'[i] == log[i] && Name(log[i].event.id) in ids; }
    }
    forall k | k in ids' ensures IdKnown(ids', k, log') {
      if k != Name(r.event.id) {
        assert IdKnown(ids, k, log);
        assert log'[SequenceOfId(ids[k]) - 1] == log[SequenceOfId(ids[k]) - 1];
      }
    }
  }

  lemma HotInsert(events: Rowset, log: Log, floor: nat, r: BillingRecord)
    requires HotOk(events, log, floor) && r.sequence == |log| + 1 && floor <= |log|
    ensures HotOk(events[Seq(r.sequence) := Body(r)], log + [r], floor)
  {}

  lemma ReceiptsInsert(receiptIds: Rowset, times: Rowset, log: Log, era: Era, r: BillingRecord, now: nat)
    requires ReceiptIdsOk(receiptIds, log, era) && ReceiptTimesOk(times, |log|, era)
    requires r.sequence == |log| + 1 && now > 0 && era.legacy <= |log|
    ensures era.Full(r.sequence) ==>
              && ReceiptIdsOk(receiptIds[Seq(r.sequence) := Text(r.event.id)], log + [r], era)
              && ReceiptTimesOk(times[Seq(r.sequence) := Clock(now)], |log| + 1, era)
    ensures !era.Full(r.sequence) ==> ReceiptIdsOk(receiptIds, log + [r], era) && ReceiptTimesOk(times, |log| + 1, era)
  {}

  lemma CacheInsert(cache: Rowset, log: Log, floor: nat, bytes: nat, r: BillingRecord)
    requires CacheOk(cache, log, floor, bytes)
    ensures CacheOk(cache, log + [r], floor, bytes)
  {}

  lemma LedgerInsert(d: Database, db: Database, log: Log, r: BillingRecord, now: nat)
    requires EraOk(EraOf(db), Head(db), AgeFloor(db)) && LedgerOk(db, log) && Inserted(d, db, r, now) && now > 0
    requires Decodes(r, Head(db) + 1) && Name(r.event.id) !in Rows(db, Ids)
    ensures LedgerOk(d, log + [r])
  {
    var era := EraOf(db);
    assert TableOf(d, Meta) == TableOf(db, Meta);
    SameMeta(d, db);
    InsertIds(d, db, log, era, r, now);
    InsertBodies(d, db, log, r, now);
    InsertReceipts(d, db, log, era, r, now);
  }

  lemma InsertIds(d: Database, db: Database, log: Log, era: Era, r: BillingRecord, now: nat)
    requires era == EraOf(db) && EraOk(era, |log|, AgeFloor(db)) && Inserted(d, db, r, now)
    requires IdsOk(Rows(db, Ids), log, era) && r.sequence == |log| + 1 && Name(r.event.id) !in Rows(db, Ids)
    ensures IdsOk(Rows(d, Ids), log + [r], era)
  {
    IdsInsert(Rows(db, Ids), log, era, r);
  }

  lemma InsertBodies(d: Database, db: Database, log: Log, r: BillingRecord, now: nat)
    requires Inserted(d, db, r, now) && Decodes(r, |log| + 1) && LogOk(log)
    requires HotOk(Rows(db, Events), log, Floor(db)) && CacheOk(Rows(db, ArchiveCache), log, Floor(db), MetaNum(db, CacheBytes))
    ensures LogOk(log + [r]) && HotOk(Rows(d, Events), log + [r], Floor(db))
    ensures CacheOk(Rows(d, ArchiveCache), log + [r], Floor(db), MetaNum(db, CacheBytes))
  {
    InsertedTables(d, db, r, now);
    HotInsert(Rows(db, Events), log, Floor(db), r);
    CacheInsert(Rows(db, ArchiveCache), log, Floor(db), MetaNum(db, CacheBytes), r);
  }

  lemma InsertReceipts(d: Database, db: Database, log: Log, era: Era, r: BillingRecord, now: nat)
    requires era == EraOf(db) && EraOk(era, |log|, AgeFloor(db)) && Inserted(d, db, r, now) && now > 0
    requires ReceiptIdsOk(Rows(db, ReceiptIds), log, era) && ReceiptTimesOk(Rows(db, ReceiptTimes), |log|, era)
    requires r.sequence == |log| + 1
    ensures ReceiptIdsOk(Rows(d, ReceiptIds), log + [r], era) && ReceiptTimesOk(Rows(d, ReceiptTimes), |log| + 1, era)
  {
    InsertedTables(d, db, r, now);
    ReceiptsInsert(Rows(db, ReceiptIds), Rows(db, ReceiptTimes), log, era, r, now);
  }

  lemma InsertedTables(d: Database, db: Database, r: BillingRecord, now: nat)
    requires Inserted(d, db, r, now)
    ensures Rows(d, ArchiveCache) == Rows(db, ArchiveCache)
    ensures VersionOf(db) == V1 ==> Rows(d, ReceiptIds) == Rows(db, ReceiptIds) && Rows(d, ReceiptTimes) == Rows(db, ReceiptTimes)
  {
    assert TableOf(d, ArchiveCache) == TableOf(db, ArchiveCache);
    if VersionOf(db) == V1 {
      assert TableOf(d, ReceiptIds) == TableOf(db, ReceiptIds) && TableOf(d, ReceiptTimes) == TableOf(db, ReceiptTimes);
    }
  }

  lemma InsertAdvances(d: Database, db: Database, r: BillingRecord, now: nat)
    requires Inserted(d, db, r, now) && r.sequence == Head(db) + 1
    requires ReceiptTimesOk(Rows(db, ReceiptTimes), Head(db), EraOf(db))
    ensures Advances(d, db)
  {
    assert TableOf(d, Meta) == TableOf(db, Meta) && TableOf(d, Catalog) == TableOf(db, Catalog)
      && TableOf(d, Operations) == TableOf(db, Operations) && TableOf(d, Captures) == TableOf(db, Captures);
    SameMeta(d, db);
    InsertedTables(d, db, r, now);
    assert Seq(r.sequence) !in Rows(db, ReceiptTimes);
  }

  lemma InsertCommit(cfg: Config, db: Database, ws: seq<Mutation>, log: Log, r: BillingRecord, now: nat, overflow: bool)
    requires Inv(cfg, db, log) && Inserted(ApplyAll(db, ws), db, r, now) && now > 0
    requires ws != [] && Applicable(db, ws) && DomainWrites(ws) && forall w <- ws :: Replayable(w)
    requires Decodes(r, Head(db) + 1) && Name(r.event.id) !in Rows(db, Ids)
    ensures Inv(cfg, Committed(db, ws, overflow), log + [r]) && Advances(Committed(db, ws, overflow), db) && Committable(db, ws)
  {
    var d := ApplyAll(db, ws);
    LedgerInsert(d, db, log, r, now);
    SchemaSame(d, db);
    ProtocolSame(cfg, d, db);
    InsertAdvances(d, db, r, now);
    CommitKeeps(cfg, db, ws, log + [r], overflow);
  }

  lemma InsertDecides(db: Database, e: LogEvent, now: nat, ws: seq<Mutation>)
    requires InsertOutcome(db, e, now) == Write(ws) && BucketsOk(db) && (HasVersion(db, V1) <==> VersionOf(db) == V1)
    ensures ws == InsertWrites(db, e, now) && Inserted(ApplyAll(db, ws), db, RecordFor(db, e), now) && Applicable(db, ws)
    ensures ws != [] && DomainWrites(ws) && forall w <- ws :: Replayable(w)
    ensures Decodes(RecordFor(db, e), Head(db) + 1) && Name(e.id) !in Rows(db, Ids)
  {
    InsertEffect(db, e, now);
    InsertIsDomain(db, e, now);
  }

  /** An accepted event appends exactly one record to the log; no other view changes. */
  lemma InsertKeeps(cfg: Config, db: Database, log: Log, e: LogEvent, now: nat, ws: seq<Mutation>, overflow: bool)
    requires Inv(cfg, db, log) && InsertOutcome(db, e, now) == Write(ws) && now > 0
    ensures Inv(cfg, Committed(db, ws, overflow), log + [RecordFor(db, e)]) && Advances(Committed(db, ws, overflow), db)
    ensures Committable(db, ws)
  {
    InsertDecides(db, e, now, ws);
    InsertCommit(cfg, db, ws, log, RecordFor(db, e), now, overflow);
  }

  // ---- duplicates -----------------------------------------------------------------------------------

  predicate Accepted(log: Log, id: string) { exists r <- log :: r.event.id == id }

  /** Some accepted record has the id of `e`, with the same or with another digest. */
  predicate SameAccepted(log: Log, e: LogEvent) { exists r <- log :: r.event.id == e.id && r.content == ContentOf(e) }
  predicate OtherAccepted(log: Log, e: LogEvent) { exists r <- log :: r.event.id == e.id && r.content != ContentOf(e) }

  /** The answer to any event, in any reachable store, from the accept log alone: invalid, a
      duplicate, a conflict, accepted, or out of sequence numbers, each exactly when. */
  lemma ReinsertionAnswers(cfg: Config, db: Database, log: Log, e: LogEvent, now: nat)
    requires Inv(cfg, db, log)
    ensures InsertOutcome(db, e, now) == Refuse(InvalidEvent) <==> !Acceptable(e)
    ensures InsertOutcome(db, e, now) == Refuse(DuplicateEvent) <==> Acceptable(e) && SameAccepted(log, e)
    ensures InsertOutcome(db, e, now) == Refuse(BillingConflict) <==> Acceptable(e) && OtherAccepted(log, e)
    ensures InsertOutcome(db, e, now).Write? <==> Acceptable(e) && !Accepted(log, e.id) && |log| < MAX_UINT64
    ensures InsertOutcome(db, e, now) == Refuse(Unavailable) <==> Acceptable(e) && !Accepted(log, e.id) && |log| >= MAX_UINT64
  {
    hide Acceptable, DedupeAnswer, InsertWrites, SchemaOk, LedgerOk, ProtocolOk;
    InsertReads(db, log);
    if Accepted(log, e.id) {
      var i :| 0 <= i < |log| && log[i].event.id == e.id;
      BoundAnswer(db, log, i, e);
      OneVerdict(db, log, i, e);
    } else {
      UnknownId(db, log, e);
    }
  }

  lemma InsertReads(db: Database, log: Log)
    requires LedgerOk(db, log)
    ensures Head(db) == |log|
  {
    hide IdsOk, HotOk, ReceiptIdsOk, ReceiptTimesOk, CacheOk, LogOk;
  }

  /** Only one record has the id, so its digest decides. */
  lemma OneVerdict(db: Database, log: Log, i: nat, e: LogEvent)
    requires SchemaOk(db) && LedgerOk(db, log) && i < |log| && log[i].event.id == e.id
    ensures SameAccepted(log, e) <==> log[i].content == ContentOf(e)
    ensures OtherAccepted(log, e) <==> log[i].content != ContentOf(e)
  {
    hide SchemaOk, HotOk, ReceiptIdsOk, ReceiptTimesOk, CacheOk, ContentOf, Acceptable;
    assert log[i] in log;
    forall r | r in log && r.event.id == e.id ensures r == log[i] {
      var j :| 0 <= j < |log| && log[j] == r;
      assert Decodes(log[i], i + 1) && Decodes(log[j], j + 1);
      assert Name(log[i].event.id) in Rows(db, Ids) && Name(log[j].event.id) in Rows(db, Ids);
    }
  }

  lemma UnknownId(db: Database, log: Log, e: LogEvent)
    requires LedgerOk(db, log) && !Accepted(log, e.id)
    ensures Get(db, Ids, Name(e.id)) == None && !SameAccepted(log, e) && !OtherAccepted(log, e)
  {
    hide HotOk, ReceiptIdsOk, ReceiptTimesOk, CacheOk, ContentOf, LogOk;
    forall k | k in Rows(db, Ids) ensures k.Name? && Accepted(log, k.id) { IdIsAccepted(Rows(db, Ids), log, EraOf(db), k); }
  }

  lemma IdIsAccepted(ids: Rowset, log: Log, era: Era, k: Key)
    requires IdsOk(ids, log, era) && k in ids
    ensures k.Name? && Accepted(log, k.id)
  {
    assert IdKnown(ids, k, log);
    assert log[SequenceOfId(ids[k]) - 1] in log;
  }

  lemma BoundAnswer(db: Database, log: Log, i: nat, e: LogEvent)
    requires SchemaOk(db) && LedgerOk(db, log) && i < |log| && log[i].event.id == e.id
    ensures Get(db, Ids, Name(e.id)) == Some(IdValue(log[i], EraOf(db)))
    ensures DedupeAnswer(db, e, IdValue(log[i], EraOf(db))) ==
            (if log[i].content == ContentOf(e) then DuplicateEvent else BillingConflict)
  {
    hide SchemaOk, LedgerOk, DedupeAnswer, Get, Acceptable;
    Lookups(db, log, i);
    VerdictOn(db, log[i], i + 1, EraOf(db).Full(i + 1), e);
  }

  /** What the three buckets hold for record `i + 1`. */
  lemma Lookups(db: Database, log: Log, i: nat)
    requires SchemaOk(db) && LedgerOk(db, log) && i < |log|
    ensures Decodes(log[i], i + 1) && i + 1 <= Head(db)
    ensures Get(db, Ids, Name(log[i].event.id)) == Some(IdValue(log[i], EraOf(db)))
    ensures EraOf(db).Full(i + 1) ==> Get(db, ReceiptIds, Seq(i + 1)) == Some(Text(log[i].event.id))
    ensures Get(db, Events, Seq(i + 1)) == Some(Body(log[i])) || (Get(db, Events, Seq(i + 1)) == None && EraOf(db).Full(i + 1))
  {
    hide MetaOk, BucketsOk, JournalWithin, CacheOk, ReceiptTimesOk, Acceptable;
    assert Name(log[i].event.id) in Rows(db, Ids);
    assert i >= Floor(db) ==> Get(db, Events, Seq(i + 1)) == Some(Body(log[i]));
    assert i < Floor(db) ==> Get(db, Events, Seq(i + 1)) == None;
  }

  lemma VerdictOn(db: Database, r: BillingRecord, n: nat, full: bool, e: LogEvent)
    requires Decodes(r, n) && 1 <= n <= Head(db) && r.event.id == e.id
    requires full ==> Get(db, ReceiptIds, Seq(n)) == Some(Text(e.id))
    requires Get(db, Events, Seq(n)) == Some(Body(r)) || (Get(db, Events, Seq(n)) == None && full)
    ensures DedupeAnswer(db, e, if full then Bound(BindingOf(r)) else Num(n)) ==
            (if r.content == ContentOf(e) then DuplicateEvent else BillingConflict)
  {
    hide Get, Acceptable;
  }
}
