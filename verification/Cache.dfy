/** The archive cache: retired bodies brought back from a verified set, and evicted again.
    The byte counter is kept by arithmetic alone, never by a recount. */
module Cache {
  import opened Types
  import opened Store
  import opened Gateway
  import opened Replay
  import opened Archive
  import opened Invariant
  import opened Lifecycle

  const BATCH_LIMIT: nat := 1000

  // ---- rehydrate -------------------------------------------------------------------------------

  /** The cache rows and the byte counter while the records are being stored. */
  datatype Fill = Fill(rows: Rowset, bytes: nat)
  datatype Filling = Stopped(error: Error) | Filled(fill: Fill)

  function Initial(db: Database): Fill { Fill(Rows(db, ArchiveCache), MetaNum(db, CacheBytes)) }

  /** The checks on one record that do not depend on the cache. */
  function ExportRefusal(db: Database, m: Manifest, records: seq<ExportRecord>, i: nat): Option<Error>
    requires i < |records|
  {
    var e := records[i];
    if e.sequence < m.from || e.sequence > m.through || e.sequence > Floor(db)
       || (i > 0 && e.sequence != records[i - 1].sequence + 1) then Some(LifecycleConflict)
    else if !Decodes(e.record, e.sequence) || e.content != e.record.content || e.receivedAt == 0 then Some(Unavailable)
    else if !BindsTo(db, e.record) || ReceiptTime(db, e.sequence) != Some(e.receivedAt) then Some(LifecycleConflict)
    else None
  }

  function FillOne(cfg: Config, fill: Fill, e: ExportRecord): Filling {
    var previous := BodyLength(fill.rows, Seq(e.sequence));
    if previous > fill.bytes then Stopped(Unavailable)
    else
      var bytes := fill.bytes - previous + e.record.Length();
      if bytes > cfg.cacheMaxBytes then Stopped(LifecycleConflict)
      else Filled(Fill(fill.rows[Seq(e.sequence) := Body(e.record)], bytes))
  }

  /** After the first `k` records. */
  function FillAll(cfg: Config, db: Database, m: Manifest, records: seq<ExportRecord>, k: nat): Filling
    requires k <= |records|
  {
    if k == 0 then Filled(Initial(db))
    else match FillAll(cfg, db, m, records, k - 1)
      case Stopped(e) => Stopped(e)
      case Filled(fill) =>
        match ExportRefusal(db, m, records, k - 1)
        case Some(e) => Stopped(e)
        case None => FillOne(cfg, fill, records[k - 1])
  }

  function FillPuts(records: seq<ExportRecord>): seq<Mutation> {
    if records == [] then []
    else
      var e := records[|records| - 1];
      FillPuts(records[..|records| - 1]) + [Put(ArchiveCache, Seq(e.sequence), Body(e.record))]
  }

  function PutBytes(bytes: nat): Mutation { Put(Meta, Field(CacheBytes), Num(bytes)) }

  function RehydrateOutcome(cfg: Config, db: Database, set_: string, records: seq<ExportRecord>): Outcome {
    if |records| < 1 || |records| > BATCH_LIMIT then Refuse(LifecycleConflict)
    else match Ready(cfg, db)
      case Some(e) => Refuse(e)
      case None =>
        match Get(db, Catalog, Name(set_))
        case Some(Entry(c)) =>
          if !CompletionOk(c.completion, c.manifest, c.manifestBytes, cfg.keys) then Refuse(CompletionInvalid)
          else (match FillAll(cfg, db, c.manifest, records, |records|)
                case Stopped(e) => Refuse(e)
                case Filled(fill) => Write(FillPuts(records) + [PutBytes(fill.bytes)]))
        case _ => Refuse(LifecycleConflict)
  }

  // ---- evict ----------------------------------------------------------------------------------------

  /** The cached sequences 0..through in cursor order. */
  function CachedUpTo(rows: Rowset, through: nat): seq<nat> {
    (if through == 0 then [] else CachedUpTo(rows, through - 1)) + if Seq(through) in rows then [through] else []
  }

  function Victims(rows: Rowset, through: nat): seq<nat> {
    var all := CachedUpTo(rows, through);
    if |all| <= BATCH_LIMIT then all else all[..BATCH_LIMIT]
  }

  /** The byte counter after evicting `keys`; None when it would underflow. */
  function EvictedBytes(rows: Rowset, bytes: nat, keys: seq<nat>): Option<nat> {
    if keys == [] then Some(bytes)
    else match EvictedBytes(rows, bytes, keys[..|keys| - 1])
      case None => None
      case Some(left) =>
        var gone := BodyLength(rows, Seq(keys[|keys| - 1]));
        if gone > left then None else Some(left - gone)
  }

  function EvictDeletes(keys: seq<nat>): seq<Mutation> {
    if keys == [] then [] else EvictDeletes(keys[..|keys| - 1]) + [Delete(ArchiveCache, Seq(keys[|keys| - 1]))]
  }

  function EvictOutcome(cfg: Config, db: Database, through: nat): Outcome {
    match Ready(cfg, db)
    case Some(e) => Refuse(e)
    case None =>
      var rows := Rows(db, ArchiveCache);
      match EvictedBytes(rows, MetaNum(db, CacheBytes), Victims(rows, through))
      case None => Refuse(Unavailable)
      case Some(bytes) => Write(EvictDeletes(Victims(rows, through)) + [PutBytes(bytes)])
  }

  // ---- the byte counter ---------------------------------------------------------------------------------

  lemma {:induction false} CachedLengthFrame(a: Rowset, b: Rowset, high: nat)
    requires forall n :: 1 <= n <= high ==> BodyLength(a, Seq(n)) == BodyLength(b, Seq(n))
    ensures CachedLength(a, high) == CachedLength(b, high)
  {
    if high > 0 { CachedLengthFrame(a, b, high - 1); }
  }

  /** Changing one cached body moves the total by the difference of the lengths. */
  lemma {:induction false} CachedLengthMoves(a: Rowset, b: Rowset, n: nat, high: nat)
    requires 1 <= n <= high
    requires forall i :: 1 <= i <= high && i != n ==> BodyLength(a, Seq(i)) == BodyLength(b, Seq(i))
    ensures CachedLength(b, high) + BodyLength(a, Seq(n)) == CachedLength(a, high) + BodyLength(b, Seq(n))
    ensures BodyLength(a, Seq(n)) <= CachedLength(a, high)
    decreases high
  {
    if n < high { CachedLengthMoves(a, b, n, high - 1); } else { CachedLengthFrame(a, b, high - 1); }
  }

  /** A record that the stored binding names is the accepted original. */
  lemma BoundIsOriginal(ids: Rowset, log: Log, era: Era, r: BillingRecord)
    requires LogOk(log) && IdsOk(ids, log, era) && era.version == V2
    requires Name(r.event.id) in ids && ids[Name(r.event.id)] == Bound(BindingOf(r))
    ensures 1 <= r.sequence <= |log| && r == log[r.sequence - 1]
  {
    assert IdKnown(ids, Name(r.event.id), log);
    var n := r.sequence;
    assert Decodes(log[n - 1], n) && Name(log[n - 1].event.id) in ids;
  }

  lemma FillOneKeeps(cfg: Config, fill: Fill, e: ExportRecord, log: Log, floor: nat, some: bool)
    requires FillOk(cfg, fill, log, floor, some) && 1 <= e.sequence <= floor && e.record == log[e.sequence - 1]
    ensures FillOne(cfg, fill, e) != Stopped(Unavailable)
    ensures FillOne(cfg, fill, e).Filled? ==> FillOk(cfg, FillOne(cfg, fill, e).fill, log, floor, true)
  {
    hide CachedLength, BodyLength;
    var rows := fill.rows[Seq(e.sequence) := Body(e.record)];
    CacheGrows(fill.rows, rows, e.sequence, e.record, floor);
  }

  lemma CacheGrows(a: Rowset, b: Rowset, n: nat, r: BillingRecord, floor: nat)
    requires 1 <= n <= floor && b == a[Seq(n) := Body(r)]
    ensures CachedLength(b, floor) + BodyLength(a, Seq(n)) == CachedLength(a, floor) + r.Length()
    ensures BodyLength(a, Seq(n)) <= CachedLength(a, floor)
  {
    hide CachedLength;
    CachedLengthMoves(a, b, n, floor);
  }

  lemma AcceptedIsOriginal(db: Database, log: Log, m: Manifest, records: seq<ExportRecord>, i: nat)
    requires LogOk(log) && IdsOk(Rows(db, Ids), log, EraOf(db)) && VersionOf(db) == V2
    requires i < |records| && ExportRefusal(db, m, records, i) == None
    ensures 1 <= records[i].sequence <= |log| && records[i].sequence <= Floor(db)
    ensures records[i].record == log[records[i].sequence - 1]
  {
    BoundIsOriginal(Rows(db, Ids), log, EraOf(db), records[i].record);
  }

  /** The one export record the store would vouch for at sequence `n`. */
  function ExportOf(db: Database, log: Log, n: nat): ExportRecord
    requires 1 <= n <= |log|
  {
    ExportRecord(n, log[n - 1].content, ReceiptTime(db, n).GetOr(0), log[n - 1])
  }

  lemma VouchedForAdmitted(db: Database, log: Log, m: Manifest, records: seq<ExportRecord>, i: nat)
    requires i < |records| && 1 <= records[i].sequence <= |log| && records[i] == ExportOf(db, log, records[i].sequence)
    requires Decodes(log[records[i].sequence - 1], records[i].sequence) && BindsTo(db, log[records[i].sequence - 1])
    requires m.from <= records[i].sequence <= m.through && records[i].sequence <= Floor(db)
    requires ReceiptTime(db, records[i].sequence).Some? && (i > 0 ==> records[i].sequence == records[i - 1].sequence + 1)
    ensures ExportRefusal(db, m, records, i) == None
  {}

  /** A record is admitted exactly when it continues the batch inside the retired part of the
      set and is the accepted original with its trusted receipt time. */
  lemma AdmittedMeans(cfg: Config, db: Database, log: Log, m: Manifest, records: seq<ExportRecord>, i: nat)
    requires Inv(cfg, db, log) && VersionOf(db) == V2 && i < |records|
    ensures ExportRefusal(db, m, records, i) == None <==>
            && m.from <= records[i].sequence <= m.through && 1 <= records[i].sequence <= Floor(db)
            && (i > 0 ==> records[i].sequence == records[i - 1].sequence + 1)
            && records[i] == ExportOf(db, log, records[i].sequence)
  {
    hide EraOf, IdsOk, Rows, Generation, SchemaOk, Floor, MetaNum, Get;
    var n := records[i].sequence;
    assert Floor(db) <= |log|;
    if ExportRefusal(db, m, records, i) == None {
      AcceptedIsOriginal(db, log, m, records, i);
    } else if m.from <= n <= m.through && 1 <= n <= Floor(db) && (i > 0 ==> n == records[i - 1].sequence + 1)
              && records[i] == ExportOf(db, log, n) {
      ReceiptTimeDefined(db, log, n);
      OriginalBinds(db, log, n);
      VouchedForAdmitted(db, log, m, records, i);
    }
  }

  ghost predicate FillOk(cfg: Config, fill: Fill, log: Log, floor: nat, some: bool) {
    CacheOk(fill.rows, log, floor, fill.bytes) && (some ==> fill.bytes <= cfg.cacheMaxBytes)
  }

  /** At every record the counter is the exact total, so it cannot underflow, and it stays
      within the configured bound. */
  lemma {:induction false} FillKeeps(cfg: Config, db: Database, log: Log, m: Manifest, records: seq<ExportRecord>, k: nat)
    requires LogOk(log) && IdsOk(Rows(db, Ids), log, EraOf(db)) && VersionOf(db) == V2
    requires FillOk(cfg, Initial(db), log, Floor(db), false)
    requires k <= |records| && FillAll(cfg, db, m, records, k).Filled?
    ensures FillOk(cfg, FillAll(cfg, db, m, records, k).fill, log, Floor(db), k > 0)
  {
    if k > 0 {
      FillKeeps(cfg, db, log, m, records, k - 1);
      FillNext(cfg, db, log, m, records, k - 1, FillAll(cfg, db, m, records, k - 1).fill);
    }
  }

  lemma FillNext(cfg: Config, db: Database, log: Log, m: Manifest, records: seq<ExportRecord>, i: nat, fill: Fill)
    requires LogOk(log) && IdsOk(Rows(db, Ids), log, EraOf(db)) && VersionOf(db) == V2
    requires i < |records| && ExportRefusal(db, m, records, i) == None && FillOk(cfg, fill, log, Floor(db), i > 0)
    ensures FillOne(cfg, fill, records[i]).Filled? ==> FillOk(cfg, FillOne(cfg, fill, records[i]).fill, log, Floor(db), true)
  {
    AcceptedIsOriginal(db, log, m, records, i);
    FillOneKeeps(cfg, fill, records[i], log, Floor(db), i > 0);
  }

  lemma FilledBy(cfg: Config, db: Database, m: Manifest, records: seq<ExportRecord>, k: nat)
    requires 0 < k <= |records| && FillAll(cfg, db, m, records, k).Filled?
    ensures FillAll(cfg, db, m, records, k - 1).Filled?
    ensures FillAll(cfg, db, m, records, k).fill.rows ==
            FillAll(cfg, db, m, records, k - 1).fill.rows[Seq(records[k - 1].sequence) := Body(records[k - 1].record)]
  {}

  lemma {:induction false} FillRows(cfg: Config, db: Database, m: Manifest, records: seq<ExportRecord>, k: nat)
    requires k <= |records| && FillAll(cfg, db, m, records, k).Filled? && ArchiveCache in db
    ensures CacheRows(ApplyAll(db, FillPuts(records[..k])), db, FillAll(cfg, db, m, records, k).fill.rows)
    ensures Applicable(db, FillPuts(records[..k])) && DomainWrites(FillPuts(records[..k]))
    ensures forall w <- FillPuts(records[..k]) :: Replayable(w)
  {
    hide CacheRows, ApplyAll, ApplyOne, Applicable, FillOne, ExportRefusal;
    if k == 0 {
      NothingWritten(db);
    } else {
      FillRows(cfg, db, m, records, k - 1);
      FilledBy(cfg, db, m, records, k);
      assert records[..k][..k - 1] == records[..k - 1];
      var w := Put(ArchiveCache, Seq(records[k - 1].sequence), Body(records[k - 1].record));
      ApplySnoc(db, FillPuts(records[..k - 1]), w);
      CacheRowsPut(ApplyAll(db, FillPuts(records[..k - 1])), db, FillAll(cfg, db, m, records, k - 1).fill.rows, Seq(records[k - 1].sequence), Body(records[k - 1].record));
    }
  }

  /** `d` is `db` with other cache rows. */
  ghost predicate CacheRows(d: Database, db: Database, rows: Rowset) {
    SameTables(d, db, AllBuckets - {ArchiveCache}) && Rows(d, ArchiveCache) == rows
  }

  lemma NothingWritten(db: Database)
    ensures CacheRows(ApplyAll(db, []), db, Rows(db, ArchiveCache)) && Applicable(db, [])
  {}

  lemma CacheRowsPut(t: Database, db: Database, rows: Rowset, k: Key, v: Value)
    requires CacheRows(t, db, rows) && ArchiveCache in db
    ensures ArchiveCache in t
    ensures CacheRows(ApplyOne(t, Put(ArchiveCache, k, v)), db, rows[k := v])
    ensures CacheRows(ApplyOne(t, Delete(ArchiveCache, k)), db, rows - {k})
  {
    forall b | b in AllBuckets - {ArchiveCache}
      ensures TableOf(ApplyOne(t, Put(ArchiveCache, k, v)), b) == TableOf(db, b)
      ensures TableOf(ApplyOne(t, Delete(ArchiveCache, k)), b) == TableOf(db, b)
    {
      assert TableOf(t, b) == TableOf(db, b);
    }
  }

  // ---- the counter under eviction ---------------------------------------------------------------------------

  function Evicted(rows: Rowset, keys: seq<nat>): Rowset {
    if keys == [] then rows else Evicted(rows, keys[..|keys| - 1]) - {Seq(keys[|keys| - 1])}
  }

  predicate Ascending(keys: seq<nat>) { forall i, j :: 0 <= i < j < |keys| ==> keys[i] < keys[j] }

  lemma {:induction false} CachedUpToMeans(rows: Rowset, through: nat)
    ensures Ascending(CachedUpTo(rows, through))
    ensures forall n: nat :: n in CachedUpTo(rows, through) <==> n <= through && Seq(n) in rows
  {
    if through > 0 { CachedUpToMeans(rows, through - 1); }
    var rest := if through == 0 then [] else CachedUpTo(rows, through - 1);
    forall i, j | 0 <= i < j < |CachedUpTo(rows, through)|
      ensures CachedUpTo(rows, through)[i] < CachedUpTo(rows, through)[j]
    {
      if j == |rest| { assert rest[i] in rest; }
    }
  }

  lemma VictimsMeans(rows: Rowset, through: nat)
    ensures Ascending(Victims(rows, through)) && |Victims(rows, through)| <= BATCH_LIMIT
    ensures forall n: nat :: n in Victims(rows, through) ==> n <= through && Seq(n) in rows
    ensures |Victims(rows, through)| < BATCH_LIMIT ==>
              forall n: nat :: n <= through && Seq(n) in rows ==> n in Victims(rows, through)
    ensures forall v <- Victims(rows, through), n: nat :: n < v && Seq(n) in rows ==> n in Victims(rows, through)
  {
    CachedUpToMeans(rows, through);
    var all, victims := CachedUpTo(rows, through), Victims(rows, through);
    assert forall n <- victims :: n in all;
    forall v <- victims, n: nat | n < v && Seq(n) in rows ensures n in victims {
      assert n in all;
      var i :| 0 <= i < |victims| && victims[i] == v;
      var j :| 0 <= j < |all| && all[j] == n;
      assert j < i;
      assert victims[j] == n;
    }
  }

  lemma {:induction false} EvictedAt(rows: Rowset, keys: seq<nat>)
    ensures forall k :: k in Evicted(rows, keys) <==> k in rows && !(k.Seq? && k.n in keys)
    ensures forall k :: k in Evicted(rows, keys) ==> Evicted(rows, keys)[k] == rows[k]
  {
    if keys != [] {
      EvictedAt(rows, keys[..|keys| - 1]);
      assert keys == keys[..|keys| - 1] + [keys[|keys| - 1]];
    }
  }

  /** One cached body goes. */
  lemma EvictOne(cache: Rowset, log: Log, floor: nat, bytes: nat, n: nat)
    requires CacheOk(cache, log, floor, bytes) && Seq(n) in cache
    ensures BodyLength(cache, Seq(n)) <= bytes
    ensures CacheOk(cache - {Seq(n)}, log, floor, bytes - BodyLength(cache, Seq(n)))
  {
    CachedLengthMoves(cache, cache - {Seq(n)}, n, floor);
  }

  lemma NoneEvicted(rows: Rowset, bytes: nat)
    ensures Evicted(rows, []) == rows && EvictedBytes(rows, bytes, []) == Some(bytes)
  {}

  lemma LastEvicted(rows: Rowset, bytes: nat, keys: seq<nat>)
    requires keys != []
    ensures var rest, n := keys[..|keys| - 1], keys[|keys| - 1]; var left := EvictedBytes(rows, bytes, rest);
      && Evicted(rows, keys) == Evicted(rows, rest) - {Seq(n)}
      && (left.Some? && BodyLength(rows, Seq(n)) <= left.value ==>
            EvictedBytes(rows, bytes, keys) == Some(left.value - BodyLength(rows, Seq(n))))
  {}

  /** What is still cached when the next body goes. */
  lemma StillCached(rows: Rowset, rest: seq<nat>, n: nat)
    requires n !in rest && Seq(n) in rows
    ensures Seq(n) in Evicted(rows, rest) && BodyLength(Evicted(rows, rest), Seq(n)) == BodyLength(rows, Seq(n))
  {
    EvictedAt(rows, rest);
  }

  lemma {:induction false} EvictKeeps(rows: Rowset, log: Log, floor: nat, bytes: nat, keys: seq<nat>)
    requires CacheOk(rows, log, floor, bytes) && Ascending(keys) && forall n <- keys :: Seq(n) in rows
    ensures EvictedBytes(rows, bytes, keys).Some?
    ensures CacheOk(Evicted(rows, keys), log, floor, EvictedBytes(rows, bytes, keys).value)
  {
    hide CacheOk, BodyLength, Evicted, EvictedBytes;
    if keys == [] {
      NoneEvicted(rows, bytes);
    } else {
      var rest, n := keys[..|keys| - 1], keys[|keys| - 1];
      LastEvicted(rows, bytes, keys);
      assert forall i <- rest :: i in keys;
      EvictKeeps(rows, log, floor, bytes, rest);
      StillCached(rows, rest, n);
      EvictOne(Evicted(rows, rest), log, floor, EvictedBytes(rows, bytes, rest).value, n);
    }
  }

  lemma {:induction false} EvictRows(db: Database, keys: seq<nat>)
    requires ArchiveCache in db
    ensures CacheRows(ApplyAll(db, EvictDeletes(keys)), db, Evicted(Rows(db, ArchiveCache), keys))
    ensures Applicable(db, EvictDeletes(keys)) && DomainWrites(EvictDeletes(keys))
    ensures forall w <- EvictDeletes(keys) :: Replayable(w)
  {
    hide CacheRows, ApplyAll, ApplyOne, Applicable;
    if keys == [] {
      NothingWritten(db);
    } else {
      var rest, n := keys[..|keys| - 1], keys[|keys| - 1];
      EvictRows(db, rest);
      ApplySnoc(db, EvictDeletes(rest), Delete(ArchiveCache, Seq(n)));
      CacheRowsPut(ApplyAll(db, EvictDeletes(rest)), db, Evicted(Rows(db, ArchiveCache), rest), Seq(n), Flag);
    }
  }

  // ---- committing a new cache -----------------------------------------------------------------------------------

  /** `d` is `db` with other cache rows and another counter. */
  ghost predicate CacheWritten(d: Database, db: Database, rows: Rowset, bytes: nat) {
    && SameTables(d, db, AllBuckets - {ArchiveCache, Meta})
    && Rows(d, ArchiveCache) == rows
    && Rows(d, Meta) == Rows(db, Meta)[Field(CacheBytes) := Num(bytes)]
  }

  lemma CacheEffect(db: Database, ws: seq<Mutation>, rows: Rowset, bytes: nat)
    requires Meta in db && CacheRows(ApplyAll(db, ws), db, rows) && Applicable(db, ws) && DomainWrites(ws)
    ensures CacheWritten(ApplyAll(db, ws + [PutBytes(bytes)]), db, rows, bytes)
    ensures Applicable(db, ws + [PutBytes(bytes)]) && DomainWrites(ws + [PutBytes(bytes)])
  {
    ApplySnoc(db, ws, PutBytes(bytes));
    var t := ApplyAll(db, ws);
    assert TableOf(t, Meta) == TableOf(db, Meta);
  }

  lemma CacheTables(d: Database, db: Database, rows: Rowset, bytes: nat)
    requires CacheWritten(d, db, rows, bytes)
    ensures forall b :: b != ArchiveCache && b != Meta ==> TableOf(d, b) == TableOf(db, b)
    ensures forall f :: f != CacheBytes ==> Get(d, Meta, Field(f)) == Get(db, Meta, Field(f))
    ensures Floor(d) == Floor(db) && EraOf(d) == EraOf(db) && AgeFloor(d) == AgeFloor(db) && Head(d) == Head(db)
    ensures StoreId(d) == StoreId(db) && MetaNum(d, CapturedThrough) == MetaNum(db, CapturedThrough)
    ensures MetaNum(d, CacheBytes) == bytes && Generation(d) == Generation(db) && HasSession(d) == HasSession(db)
  {
    hide TableOf, VersionOf, AgeFloor, StoreId, HasSession, MetaNum;
    forall b | b != ArchiveCache && b != Meta ensures TableOf(d, b) == TableOf(db, b) {
      assert b in AllBuckets - {ArchiveCache, Meta};
    }
    CacheField(d, db, rows, bytes);
    MetaRead(d, db, {CacheBytes});
  }

  lemma CacheField(d: Database, db: Database, rows: Rowset, bytes: nat)
    requires CacheWritten(d, db, rows, bytes)
    ensures forall f :: f != CacheBytes ==> Get(d, Meta, Field(f)) == Get(db, Meta, Field(f))
    ensures MetaNum(d, CacheBytes) == bytes
  {}

  lemma CacheLedger(d: Database, db: Database, log: Log, rows: Rowset, bytes: nat)
    requires LedgerOk(db, log) && CacheWritten(d, db, rows, bytes) && CacheOk(rows, log, Floor(db), bytes)
    ensures LedgerOk(d, log)
  {
    CacheTables(d, db, rows, bytes);
  }

  lemma CacheSchema(d: Database, db: Database, rows: Rowset, bytes: nat)
    requires SchemaOk(db) && VersionOf(db) == V2 && CacheWritten(d, db, rows, bytes)
    ensures SchemaOk(d)
  {
    hide MetaNum, HasSession, AgeFloor;
    CacheTables(d, db, rows, bytes);
  }

  lemma CacheProtocol(cfg: Config, d: Database, db: Database, rows: Rowset, bytes: nat)
    requires ProtocolOk(cfg, db) && CacheWritten(d, db, rows, bytes)
    ensures ProtocolOk(cfg, d)
  {
    CacheTables(d, db, rows, bytes);
  }

  lemma CacheAdvances(d: Database, db: Database, rows: Rowset, bytes: nat)
    requires CacheWritten(d, db, rows, bytes)
    ensures Advances(d, db)
  {
    hide MetaNum, HasSession, EraOf, StoreId, Generation, Head, Floor, AgeFloor;
    CacheTables(d, db, rows, bytes);
    ReceiptFrame(d, db);
  }

  lemma CacheAfter(c: Database, d: Database, db: Database, rows: Rowset, bytes: nat)
    requires SameViews(c, d) && CacheWritten(d, db, rows, bytes)
    ensures MetaNum(c, CacheBytes) == bytes && Rows(c, ArchiveCache) == rows
  {
    SameReadings(c, d);
    CacheTables(d, db, rows, bytes);
  }

  lemma CacheCommit(cfg: Config, db: Database, ws: seq<Mutation>, log: Log, rows: Rowset, bytes: nat, overflow: bool)
    requires Inv(cfg, db, log) && VersionOf(db) == V2 && CacheWritten(ApplyAll(db, ws), db, rows, bytes)
    requires ws != [] && Applicable(db, ws) && DomainWrites(ws) && forall w <- ws :: Replayable(w)
    requires CacheOk(rows, log, Floor(db), bytes)
    ensures Inv(cfg, Committed(db, ws, overflow), log) && Advances(Committed(db, ws, overflow), db) && Committable(db, ws)
    ensures MetaNum(Committed(db, ws, overflow), CacheBytes) == bytes && Rows(Committed(db, ws, overflow), ArchiveCache) == rows
  {
    var d := ApplyAll(db, ws);
    CacheLedger(d, db, log, rows, bytes);
    CacheSchema(d, db, rows, bytes);
    CacheProtocol(cfg, d, db, rows, bytes);
    CacheAdvances(d, db, rows, bytes);
    CommitKeeps(cfg, db, ws, log, overflow);
    CommitSameViews(db, ws, overflow);
    CacheAfter(Committed(db, ws, overflow), d, db, rows, bytes);
  }

  // ---- the two operations -------------------------------------------------------------------------------------------

  lemma RehydrateDecides(cfg: Config, db: Database, set_: string, records: seq<ExportRecord>) returns (c: CatalogEntry, fill: Fill)
    requires RehydrateOutcome(cfg, db, set_, records).Write?
    ensures 1 <= |records| && HasVersion(db, V2) && !Fenced(db)
    ensures Get(db, Catalog, Name(set_)) == Some(Entry(c)) && CompletionOk(c.completion, c.manifest, c.manifestBytes, cfg.keys)
    ensures FillAll(cfg, db, c.manifest, records, |records|) == Filled(fill)
    ensures RehydrateOutcome(cfg, db, set_, records).writes == FillPuts(records) + [PutBytes(fill.bytes)]
  {
    c := Get(db, Catalog, Name(set_)).value.c;
    fill := FillAll(cfg, db, c.manifest, records, |records|).fill;
  }

  lemma FillEffect(cfg: Config, db: Database, m: Manifest, records: seq<ExportRecord>, fill: Fill)
    requires FillAll(cfg, db, m, records, |records|) == Filled(fill) && ArchiveCache in db && Meta in db
    ensures var ws := FillPuts(records) + [PutBytes(fill.bytes)];
      && CacheWritten(ApplyAll(db, ws), db, fill.rows, fill.bytes) && Applicable(db, ws)
      && ws != [] && DomainWrites(ws) && forall w <- ws :: Replayable(w)
  {
    FillRows(cfg, db, m, records, |records|);
    assert records[..|records|] == records;
    CacheEffect(db, FillPuts(records), fill.rows, fill.bytes);
  }

  /** A successful rehydrate leaves the counter equal to the cached total and within the
      configured bound, whatever it overwrote. */
  lemma RehydrateKeeps(cfg: Config, db: Database, log: Log, set_: string, records: seq<ExportRecord>, ws: seq<Mutation>, overflow: bool)
    requires Inv(cfg, db, log) && RehydrateOutcome(cfg, db, set_, records) == Write(ws)
    ensures var d := Committed(db, ws, overflow);
      Inv(cfg, d, log) && Advances(d, db) && MetaNum(d, CacheBytes) <= cfg.cacheMaxBytes
    ensures Committable(db, ws)
  {
    var c, fill := RehydrateDecides(cfg, db, set_, records);
    FillKeeps(cfg, db, log, c.manifest, records, |records|);
    FillEffect(cfg, db, c.manifest, records, fill);
    CacheCommit(cfg, db, ws, log, fill.rows, fill.bytes, overflow);
  }

  // ---- exactly when a batch is taken ----------------------------------------------------------------

  /** The cache rows with these bodies stored, in order. */
  function Stored(rows: Rowset, records: seq<ExportRecord>): Rowset {
    if records == [] then rows
    else
      var e := records[|records| - 1];
      Stored(rows, records[..|records| - 1])[Seq(e.sequence) := Body(e.record)]
  }

  /** Record `i` continues the batch in the retired part of the set and is the accepted
      original with its trusted receipt time. */
  predicate OriginalAt(db: Database, log: Log, m: Manifest, records: seq<ExportRecord>, i: nat)
    requires i < |records|
  {
    var n := records[i].sequence;
    && m.from <= n <= m.through && 1 <= n <= Floor(db) && (i > 0 ==> n == records[i - 1].sequence + 1)
    && n <= |log| && records[i] == ExportOf(db, log, n)
  }

  /** With records 0..i in it, the recounted cache is within the bound. */
  predicate Fits(cfg: Config, db: Database, records: seq<ExportRecord>, i: nat) requires i < |records| {
    CachedLength(Stored(Rows(db, ArchiveCache), records[..i + 1]), Floor(db)) <= cfg.cacheMaxBytes
  }

  predicate Takes(cfg: Config, db: Database, log: Log, m: Manifest, records: seq<ExportRecord>, k: nat) requires k <= |records| {
    forall i :: 0 <= i < k ==> OriginalAt(db, log, m, records, i) && Fits(cfg, db, records, i)
  }

  /** One body is stored exactly when the recount of the cache with it is within the bound. */
  lemma FillOneExactly(cfg: Config, fill: Fill, e: ExportRecord, log: Log, floor: nat)
    requires CacheOk(fill.rows, log, floor, fill.bytes) && 1 <= e.sequence <= floor && e.record == log[e.sequence - 1]
    ensures var rows := fill.rows[Seq(e.sequence) := Body(e.record)];
      FillOne(cfg, fill, e) == (if CachedLength(rows, floor) <= cfg.cacheMaxBytes then Filled(Fill(rows, CachedLength(rows, floor)))
                                else Stopped(LifecycleConflict))
  {
    hide CachedLength;
    CachedLengthMoves(fill.rows, fill.rows[Seq(e.sequence) := Body(e.record)], e.sequence, floor);
  }

  lemma StoredLast(rows: Rowset, records: seq<ExportRecord>, k: nat)
    requires k < |records|
    ensures Stored(rows, records[..k + 1]) == Stored(rows, records[..k])[Seq(records[k].sequence) := Body(records[k].record)]
    ensures Stored(rows, []) == rows
  {
    assert records[..k + 1][..k] == records[..k];
  }

  lemma FillFirst(cfg: Config, db: Database, m: Manifest, records: seq<ExportRecord>)
    ensures FillAll(cfg, db, m, records, 0) == Filled(Fill(Stored(Rows(db, ArchiveCache), records[..0]), MetaNum(db, CacheBytes)))
  {}

  lemma FillStep(cfg: Config, db: Database, m: Manifest, records: seq<ExportRecord>, k: nat)
    requires 0 < k <= |records|
    ensures FillAll(cfg, db, m, records, k) ==
      match FillAll(cfg, db, m, records, k - 1)
      case Stopped(e) => Stopped(e)
      case Filled(fill) => (match ExportRefusal(db, m, records, k - 1) case Some(e) => Stopped(e) case None => FillOne(cfg, fill, records[k - 1]))
  {}

  /** The loop over the records takes the first `k` exactly when each is the original and the
      recount stays within the bound at every one; its rows and its counter are then the
      stored bodies and their recount. */
  lemma {:induction false} FillsExactly(cfg: Config, db: Database, log: Log, m: Manifest, records: seq<ExportRecord>, k: nat)
    requires Inv(cfg, db, log) && VersionOf(db) == V2 && k <= |records|
    ensures FillAll(cfg, db, m, records, k).Filled? <==> Takes(cfg, db, log, m, records, k)
    ensures FillAll(cfg, db, m, records, k).Filled? ==>
      var fill := FillAll(cfg, db, m, records, k).fill;
      fill.rows == Stored(Rows(db, ArchiveCache), records[..k]) && CacheOk(fill.rows, log, Floor(db), fill.bytes)
  {
    hide FillAll, Inv, ExportRefusal, FillOne, Stored, CacheOk, OriginalAt, Fits, Floor, Rows, VersionOf;
    CacheOfLedger(cfg, db, log);
    if k == 0 {
      FillFirst(cfg, db, m, records);
      assert records[..0] == [];
      StoredNone(Rows(db, ArchiveCache));
    } else {
      FillsExactly(cfg, db, log, m, records, k - 1);
      FillStep(cfg, db, m, records, k);
      AdmittedIsOriginal(cfg, db, log, m, records, k - 1);
      TakesLast(cfg, db, log, m, records, k - 1);
      if Takes(cfg, db, log, m, records, k - 1) && OriginalAt(db, log, m, records, k - 1) {
        FillTakes(cfg, db, log, m, records, k - 1, FillAll(cfg, db, m, records, k - 1).fill);
      }
    }
  }

  lemma TakesLast(cfg: Config, db: Database, log: Log, m: Manifest, records: seq<ExportRecord>, k: nat)
    requires k < |records|
    ensures Takes(cfg, db, log, m, records, k + 1) <==>
              Takes(cfg, db, log, m, records, k) && OriginalAt(db, log, m, records, k) && Fits(cfg, db, records, k)
  {
    hide OriginalAt, Fits;
  }

  lemma StoredNone(rows: Rowset)
    ensures Stored(rows, []) == rows
  {}

  lemma AdmittedIsOriginal(cfg: Config, db: Database, log: Log, m: Manifest, records: seq<ExportRecord>, i: nat)
    requires Inv(cfg, db, log) && VersionOf(db) == V2 && i < |records|
    ensures ExportRefusal(db, m, records, i) == None <==> OriginalAt(db, log, m, records, i)
  {
    hide ExportRefusal, VersionOf, SchemaOk, ProtocolOk, IdsOk, HotOk, ReceiptIdsOk, ReceiptTimesOk, LogOk;
    AdmittedMeans(cfg, db, log, m, records, i);
  }

  lemma FillTakes(cfg: Config, db: Database, log: Log, m: Manifest, records: seq<ExportRecord>, i: nat, fill: Fill)
    requires i < |records| && OriginalAt(db, log, m, records, i)
    requires CacheOk(fill.rows, log, Floor(db), fill.bytes) && fill.rows == Stored(Rows(db, ArchiveCache), records[..i])
    ensures FillOne(cfg, fill, records[i]).Filled? <==> Fits(cfg, db, records, i)
    ensures FillOne(cfg, fill, records[i]).Filled? ==>
      var next := FillOne(cfg, fill, records[i]).fill;
      next.rows == Stored(Rows(db, ArchiveCache), records[..i + 1]) && CacheOk(next.rows, log, Floor(db), next.bytes)
  {
    hide FillOne, CachedLength, Stored, Floor, Rows, CacheOk, ReceiptTime;
    FillOneExactly(cfg, fill, records[i], log, Floor(db));
    FillOneKeeps(cfg, fill, records[i], log, Floor(db), false);
    StoredLast(Rows(db, ArchiveCache), records, i);
  }

  /** What a caller has to bring: a batch of originals out of a verified set, with room. */
  predicate Rehydratable(cfg: Config, db: Database, log: Log, set_: string, records: seq<ExportRecord>) {
    && 1 <= |records| <= BATCH_LIMIT && Ready(cfg, db) == None
    && Name(set_) in Rows(db, Catalog) && Rows(db, Catalog)[Name(set_)].Entry?
    && Takes(cfg, db, log, Rows(db, Catalog)[Name(set_)].c.manifest, records, |records|)
  }

  lemma CatalogCompletes(cfg: Config, db: Database, log: Log, id: string)
    requires Inv(cfg, db, log) && Name(id) in Rows(db, Catalog)
    ensures Rows(db, Catalog)[Name(id)].Entry?
    ensures var c := Rows(db, Catalog)[Name(id)].c; CompletionOk(c.completion, c.manifest, c.manifestBytes, cfg.keys)
  {
    hide SchemaOk, LedgerOk, CapturesOk, OperationsOk;
    assert CatalogEntryOk(cfg, Rows(db, Catalog), Rows(db, Captures), Name(id));
  }

  lemma ReadyIsV2(cfg: Config, db: Database)
    requires Ready(cfg, db) == None
    ensures VersionOf(db) == V2 && HasVersion(db, V2) && !Fenced(db)
  {}

  /** On a reachable store a rehydrate is taken if and only if the batch is admissible. */
  lemma RehydratesExactly(cfg: Config, db: Database, log: Log, set_: string, records: seq<ExportRecord>)
    requires Inv(cfg, db, log)
    ensures RehydrateOutcome(cfg, db, set_, records).Write? <==> Rehydratable(cfg, db, log, set_, records)
  {
    hide Inv, FillAll, Ready, CompletionOk, Takes, Rows, FillPuts;
    if Ready(cfg, db) == None && Name(set_) in Rows(db, Catalog) {
      ReadyIsV2(cfg, db);
      CatalogCompletes(cfg, db, log, set_);
      FillsExactly(cfg, db, log, Rows(db, Catalog)[Name(set_)].c.manifest, records, |records|);
    }
  }

  /** Every body of the batch is in the cache as it was accepted; every other row is as before. */
  ghost predicate BodiesStored(after: Rowset, before: Rowset, log: Log, records: seq<ExportRecord>) {
    && (forall i :: 0 <= i < |records| ==> BodyStored(after, log, records[i].sequence))
    && forall k :: (forall i :: 0 <= i < |records| ==> k != Seq(records[i].sequence)) ==> SameRow(after, before, k)
  }

  predicate BodyStored(after: Rowset, log: Log, n: nat) {
    1 <= n <= |log| && Seq(n) in after && after[Seq(n)] == Body(log[n - 1])
  }

  predicate SameRow(after: Rowset, before: Rowset, k: Key) {
    (k in after <==> k in before) && (k in before ==> after[k] == before[k])
  }

  /** After it, the cache holds every body of the batch, keeps every other row, and the counter
      is the recount. */
  lemma RehydrateStores(cfg: Config, db: Database, log: Log, set_: string, records: seq<ExportRecord>, ws: seq<Mutation>, overflow: bool)
    requires Inv(cfg, db, log) && RehydrateOutcome(cfg, db, set_, records) == Write(ws)
    ensures BodiesStored(Rows(Committed(db, ws, overflow), ArchiveCache), Rows(db, ArchiveCache), log, records)
    ensures MetaNum(Committed(db, ws, overflow), CacheBytes) == CachedLength(Rows(Committed(db, ws, overflow), ArchiveCache), Floor(db))
  {
    hide Inv, RehydrateOutcome, Committed, FillAll, ApplyAll, Applicable, DomainWrites, CacheWritten, CachedLength, Advances,
         Committable, OriginalAt, Fits, Floor, BodiesStored, CacheOk, Rows, MetaNum;
    var c, fill := RehydrateDecides(cfg, db, set_, records);
    CacheOfLedger(cfg, db, log);
    assert records[..|records|] == records;
    FillsExactly(cfg, db, log, c.manifest, records, |records|);
    FillEffect(cfg, db, c.manifest, records, fill);
    CacheCommit(cfg, db, ws, log, fill.rows, fill.bytes, overflow);
    CacheCounts(fill.rows, log, Floor(db), fill.bytes);
    StoredHolds(db, log, c.manifest, records);
  }

  lemma CacheCounts(rows: Rowset, log: Log, floor: nat, bytes: nat)
    requires CacheOk(rows, log, floor, bytes)
    ensures bytes == CachedLength(rows, floor)
  {}

  lemma StoredHolds(db: Database, log: Log, m: Manifest, records: seq<ExportRecord>)
    requires forall i :: 0 <= i < |records| ==> OriginalAt(db, log, m, records, i)
    ensures BodiesStored(Stored(Rows(db, ArchiveCache), records), Rows(db, ArchiveCache), log, records)
  {
    hide Rows, Floor, BodiesStored;
    forall i | 0 <= i < |records| ensures 1 <= records[i].sequence <= |log| && records[i].record == log[records[i].sequence - 1] {
      assert OriginalAt(db, log, m, records, i);
    }
    StoredAt(Rows(db, ArchiveCache), log, records);
  }

  lemma {:induction false} StoredAt(rows: Rowset, log: Log, records: seq<ExportRecord>)
    requires forall i :: 0 <= i < |records| ==> 1 <= records[i].sequence <= |log| && records[i].record == log[records[i].sequence - 1]
    ensures BodiesStored(Stored(rows, records), rows, log, records)
  {
    if records != [] {
      var rest := records[..|records| - 1];
      assert forall i :: 0 <= i < |rest| ==> rest[i] == records[i];
      StoredAt(rows, log, rest);
      forall k | forall i :: 0 <= i < |records| ==> k != Seq(records[i].sequence) ensures SameRow(Stored(rows, records), rows, k) {
        assert forall i :: 0 <= i < |rest| ==> k != Seq(rest[i].sequence);
        assert SameRow(Stored(rows, rest), rows, k);
        assert k != Seq(records[|records| - 1].sequence);
      }
    }
  }

  lemma EvictDecides(cfg: Config, db: Database, through: nat, ws: seq<Mutation>) returns (bytes: nat)
    requires EvictOutcome(cfg, db, through) == Write(ws)
    ensures var rows := Rows(db, ArchiveCache);
      && EvictedBytes(rows, MetaNum(db, CacheBytes), Victims(rows, through)) == Some(bytes)
      && ws == EvictDeletes(Victims(rows, through)) + [PutBytes(bytes)]
    ensures VersionOf(db) == V2
  {
    hide Victims, EvictedBytes, EvictDeletes;
    bytes := EvictedBytes(Rows(db, ArchiveCache), MetaNum(db, CacheBytes), Victims(Rows(db, ArchiveCache), through)).value;
  }

  lemma EvictWritten(db: Database, keys: seq<nat>, bytes: nat, ws: seq<Mutation>)
    requires ArchiveCache in db && Meta in db && ws == EvictDeletes(keys) + [PutBytes(bytes)]
    ensures CacheWritten(ApplyAll(db, ws), db, Evicted(Rows(db, ArchiveCache), keys), bytes)
    ensures ws != [] && Applicable(db, ws) && DomainWrites(ws) && forall w <- ws :: Replayable(w)
  {
    hide CacheWritten, CacheRows, ApplyAll, Applicable, DomainWrites, Evicted, EvictDeletes;
    EvictRows(db, keys);
    CacheEffect(db, EvictDeletes(keys), Evicted(Rows(db, ArchiveCache), keys), bytes);
  }

  lemma CacheOfLedger(cfg: Config, db: Database, log: Log)
    requires Inv(cfg, db, log)
    ensures CacheOk(Rows(db, ArchiveCache), log, Floor(db), MetaNum(db, CacheBytes))
    ensures VersionOf(db) == V2 ==> ArchiveCache in db && Meta in db
  {
    hide CacheOk, ProtocolOk;
  }

  /** Eviction is never refused by the counter. */
  lemma EvictionKeeps(cfg: Config, db: Database, log: Log, through: nat, ws: seq<Mutation>, overflow: bool)
    requires Inv(cfg, db, log) && EvictOutcome(cfg, db, through) == Write(ws)
    ensures Inv(cfg, Committed(db, ws, overflow), log) && Advances(Committed(db, ws, overflow), db) && Committable(db, ws)
  {
    hide Inv, EvictOutcome, CacheOk, CacheWritten, Committed, Advances, Committable, ApplyAll, Applicable, DomainWrites, Evicted,
         EvictedBytes, Victims, EvictDeletes, VersionOf, Rows, Floor, MetaNum;
    var rows, keys := Rows(db, ArchiveCache), Victims(Rows(db, ArchiveCache), through);
    var bytes := EvictDecides(cfg, db, through, ws);
    CacheOfLedger(cfg, db, log);
    VictimsMeans(rows, through);
    EvictKeeps(rows, log, Floor(db), MetaNum(db, CacheBytes), keys);
    EvictWritten(db, keys, bytes, ws);
    CacheCommit(cfg, db, ws, log, Evicted(rows, keys), bytes, overflow);
  }

  /** An eviction is taken on every ready reachable store. */
  lemma EvictsExactly(cfg: Config, db: Database, log: Log, through: nat)
    requires Inv(cfg, db, log)
    ensures EvictOutcome(cfg, db, through).Write? <==> Ready(cfg, db) == None
  {
    hide Inv, EvictedBytes, Victims, EvictDeletes;
    if Ready(cfg, db) == None { EvictNeverUnderflows(cfg, db, log, through); }
  }

  /** After it exactly the victims are gone, and the counter is the recount of the rest. */
  lemma EvictionRemoves(cfg: Config, db: Database, log: Log, through: nat, ws: seq<Mutation>, overflow: bool)
    requires Inv(cfg, db, log) && EvictOutcome(cfg, db, through) == Write(ws)
    ensures var after, before := Rows(Committed(db, ws, overflow), ArchiveCache), Rows(db, ArchiveCache);
      forall k: Key :: if k.Seq? && k.n in Victims(before, through) then k !in after else SameRow(after, before, k)
    ensures MetaNum(Committed(db, ws, overflow), CacheBytes) == CachedLength(Rows(Committed(db, ws, overflow), ArchiveCache), Floor(db))
  {
    hide Inv, EvictOutcome, CacheOk, CacheWritten, Committed, Advances, Committable, ApplyAll, Applicable, DomainWrites,
         Evicted, EvictedBytes, Victims, EvictDeletes, VersionOf, Rows, Floor, MetaNum, CachedLength;
    var rows, keys := Rows(db, ArchiveCache), Victims(Rows(db, ArchiveCache), through);
    var bytes := EvictDecides(cfg, db, through, ws);
    CacheOfLedger(cfg, db, log);
    VictimsMeans(rows, through);
    EvictKeeps(rows, log, Floor(db), MetaNum(db, CacheBytes), keys);
    EvictWritten(db, keys, bytes, ws);
    CacheCommit(cfg, db, ws, log, Evicted(rows, keys), bytes, overflow);
    CacheCounts(Evicted(rows, keys), log, Floor(db), bytes);
    EvictedAt(rows, keys);
  }

  lemma EvictNeverUnderflows(cfg: Config, db: Database, log: Log, through: nat)
    requires Inv(cfg, db, log) && Ready(cfg, db) == None
    ensures EvictOutcome(cfg, db, through).Write?
  {
    var rows := Rows(db, ArchiveCache);
    VictimsMeans(rows, through);
    EvictKeeps(rows, log, Floor(db), MetaNum(db, CacheBytes), Victims(rows, through));
  }
}
