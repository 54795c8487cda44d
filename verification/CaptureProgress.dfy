/** Exactly when a capture succeeds: what it reads of each record, and which records and
    estimates let it through. */
module CaptureProgress {
  import opened Types
  import opened Store
  import opened Archive
  import opened Invariant
  import opened Lifecycle
  import opened Backup
  import opened Packing
  import opened Usage
  import opened Capturer
  import opened CaptureValidity

  // ---- one record ------------------------------------------------------------------------------------

  /** A hot record from an allowed environment with a canonical usage event. */
  predicate Exportable(cfg: Config, db: Database, log: Log, n: nat) {
    && Floor(db) < n <= |log| && log[n - 1].event.env in cfg.sources && n <= MAX_INT64
    && log[n - 1].event.usage.Some? && Canonical(log[n - 1].event.usage.value).Some?
  }

  /** The export line of a record and the binding of its canonical usage event. */
  function ExportedAs(db: Database, log: Log, n: nat): Exported
    requires 1 <= n <= |log| && log[n - 1].event.usage.Some? && Canonical(log[n - 1].event.usage.value).Some?
  {
    var r, e := log[n - 1], Canonical(log[n - 1].event.usage.value).value;
    Exported(ExportRecord(n, r.content, ReceiptTime(db, n).GetOr(0), r), RecordBinding(n, r.content, e.usageId, e))
  }

  /** The capture reads a record exactly when it is exportable, and reads the accepted original
      with its trusted receipt time. */
  lemma ReadsExactly(cfg: Config, db: Database, log: Log, n: nat)
    requires Inv(cfg, db, log) && VersionOf(db) == V2
    ensures ReadRecord(cfg, db, n).Some? <==> Exportable(cfg, db, log, n)
    ensures ReadRecord(cfg, db, n).Some? ==> ReadRecord(cfg, db, n) == Some(ExportedAs(db, log, n)) && ReceiptTime(db, n).Some?
  {
    hide SchemaOk, LedgerOk, ProtocolOk, Canonical, ReceiptTime, Acceptable;
    HotIs(db, log, n);
    if Floor(db) < n <= |log| { ReceiptTimeDefined(db, log, n); }
  }

  lemma HotIs(db: Database, log: Log, n: nat)
    requires LedgerOk(db, log)
    ensures Get(db, Events, Seq(n)) == if Floor(db) < n <= |log| then Some(Body(log[n - 1])) else None
    ensures 1 <= n <= |log| ==> Decodes(log[n - 1], n)
  {
    hide IdsOk, ReceiptIdsOk, ReceiptTimesOk, CacheOk, Acceptable;
    if Seq(n) in Rows(db, Events) { assert Floor(db) < Seq(n).n <= |log|; }
  }

  // ---- the range -----------------------------------------------------------------------------------------

  predicate Readable(read: RecordReader, n: nat) { read(n).Some? }

  lemma {:induction false} RangeReads(read: RecordReader, from: nat, k: nat)
    ensures ReadRange(read, from, k).Some? <==> forall n :: from <= n < from + k ==> Readable(read, n)
  {
    if k > 0 {
      RangeReads(read, from, k - 1);
      assert (forall n :: from <= n < from + k ==> Readable(read, n)) ==> Readable(read, from + k - 1);
    }
  }

  /** Encryption never fails. */
  ghost predicate AlwaysSeals(seal: Sealer) {
    forall kind: PartKind, ordinal: nat, offset: nat, plain: nat :: seal(kind, ordinal, offset, plain).Some?
  }

  lemma {:induction false} SealsAll(kind: PartKind, sizes: seq<nat>, seal: Sealer)
    requires AlwaysSeals(seal)
    ensures PartsFrom(kind, sizes, seal).Some?
  {
    if sizes != [] { SealsAll(kind, sizes[..|sizes| - 1], seal); }
  }

  /** The record can be exported, was received before the set was made, and its line fits a part. */
  predicate Packs(cfg: Config, db: Database, log: Log, createdAt: nat, n: nat) {
    && Exportable(cfg, db, log, n) && ReceiptTime(db, n).GetOr(0) <= createdAt
    && log[n - 1].Length() + LINE_OVERHEAD <= cfg.partBytes
  }

  predicate AllPack(cfg: Config, db: Database, log: Log, createdAt: nat) {
    forall n :: RangeStart(db) <= n < RangeStart(db) + RecordCount(db) ==> Packs(cfg, db, log, createdAt, n)
  }

  lemma PacksExactly(cfg: Config, db: Database, log: Log, createdAt: nat, n: nat)
    requires Inv(cfg, db, log) && VersionOf(db) == V2
    ensures Packs(cfg, db, log, createdAt, n) <==>
              ReadRecord(cfg, db, n).Some? && Packable(ReadRecord(cfg, db, n).value, createdAt, cfg.partBytes)
  {
    hide Inv, ReadRecord, Exportable, ReceiptTime, VersionOf;
    ReadsExactly(cfg, db, log, n);
    if Exportable(cfg, db, log, n) { ExportableRecord(cfg, db, log, n); }
  }

  lemma ExportableRecord(cfg: Config, db: Database, log: Log, n: nat)
    requires Exportable(cfg, db, log, n)
    ensures 1 <= n <= |log| && log[n - 1].event.usage.Some? && Canonical(log[n - 1].event.usage.value).Some?
    ensures ExportedAs(db, log, n).line.record == log[n - 1] && ExportedAs(db, log, n).line.receivedAt == ReceiptTime(db, n).GetOr(0)
  {
    hide Canonical, ReceiptTime;
  }

  lemma ExportsExactly(cfg: Config, db: Database, log: Log, env: Conditions)
    requires Inv(cfg, db, log) && VersionOf(db) == V2 && AlwaysSeals(env.seal)
    ensures ExportOf(RecordsOf(cfg, db), RangeStart(db), RecordCount(db), env.createdAt, cfg.partBytes, env.seal).Some? <==>
              AllPack(cfg, db, log, env.createdAt)
  {
    hide Inv, ReadRecord, Packs, Packable, RangeStart, RecordCount, EventParts, VersionOf, ReadRange;
    var read, from, count := RecordsOf(cfg, db), RangeStart(db), RecordCount(db);
    RangeReads(read, from, count);
    forall n: nat ensures Packs(cfg, db, log, env.createdAt, n) <==> read(n).Some? && Packable(read(n).value, env.createdAt, cfg.partBytes) {
      PacksExactly(cfg, db, log, env.createdAt, n);
    }
    if ReadRange(read, from, count).Some? {
      var ps := ReadRange(read, from, count).value;
      ReadAt(read, from, count);
      RangePacks(cfg, db, log, env.createdAt, read, from, count, ps);
      EventsSeal(Lines(ps), cfg.partBytes, env.seal);
    } else {
      var n :| from <= n < from + count && !Readable(read, n);
      assert !Packs(cfg, db, log, env.createdAt, n);
    }
  }

  lemma EventsSeal(lines: seq<nat>, size: nat, seal: Sealer)
    requires AlwaysSeals(seal)
    ensures EventParts(lines, size, seal).Some?
  {
    hide PartsFrom, Grouped;
    SealsAll(EventsPart, Sums(Grouped(lines, size)), seal);
  }

  lemma RangePacks(cfg: Config, db: Database, log: Log, createdAt: nat, read: RecordReader, from: nat, count: nat, ps: seq<Exported>)
    requires from == RangeStart(db) && count == RecordCount(db) && |ps| == count
    requires forall i :: 0 <= i < count ==> read(from + i) == Some(ps[i])
    requires forall n: nat :: Packs(cfg, db, log, createdAt, n) <==> read(n).Some? && Packable(read(n).value, createdAt, cfg.partBytes)
    ensures AllPackable(ps, createdAt, cfg.partBytes) <==> AllPack(cfg, db, log, createdAt)
  {
    hide Packs, Packable, RangeStart, RecordCount;
    if AllPack(cfg, db, log, createdAt) {
      forall i | 0 <= i < |ps| ensures Packable(ps[i], createdAt, cfg.partBytes) {
        assert Packs(cfg, db, log, createdAt, from + i);
        assert read(from + i) == Some(ps[i]);
      }
    }
    if AllPackable(ps, createdAt, cfg.partBytes) {
      forall n: nat | from <= n < from + count ensures Packs(cfg, db, log, createdAt, n) {
        assert read(from + (n - from)) == Some(ps[n - from]);
      }
    }
  }

  // ---- the capture -----------------------------------------------------------------------------------------

  /** The manifest says what was captured, when, from which store and for whom. */
  predicate Describes(cfg: Config, db: Database, id: string, env: Conditions, m: Manifest) {
    && m.setId == id && m.storeId == StoreId(db) && m.environment == cfg.environment && m.sources == cfg.sources
    && m.createdAt == env.createdAt && m.snapshotBytes == env.snapshotBytes && m.highWater == Head(db)
    && m.from == RangeStart(db) && m.recordCount == RecordCount(db) && |m.bindings| == m.recordCount
    && (forall i :: 0 <= i < |m.bindings| ==> BindingAt(RecordsOf(cfg, db), m, i))
  }

  lemma CaptureDescribes(cfg: Config, db: Database, id: string, env: Conditions)
    requires cfg.partBytes > 0 && CaptureOf(cfg, db, id, env).Some?
    ensures Describes(cfg, db, id, env, CaptureOf(cfg, db, id, env).value)
  {
    hide Ready, Preflight, ValidManifest, PartsFrom, EventParts, RangeStart, RecordCount, ReadRange, ReadRecord, AllPackable;
    var read, from, count := RecordsOf(cfg, db), RangeStart(db), RecordCount(db);
    ReadAt(read, from, count);
    var ps, m := ReadRange(read, from, count).value, CaptureOf(cfg, db, id, env).value;
    assert m.bindings == Bindings(ps);
    forall i | 0 <= i < |m.bindings| ensures BindingAt(read, m, i) { assert read(from + i) == Some(ps[i]); }
  }

  /** Binding `i` is the one read for its record. */
  predicate BindingAt(read: RecordReader, m: Manifest, i: nat) requires i < |m.bindings| {
    var p := read(m.from + i); p.Some? && p.value.binding == m.bindings[i]
  }

  /** With a validated configuration and encryption that does not fail, a capture of a reachable
      store succeeds if and only if lifecycle operations may run, the estimate admits it, and
      every record of the range packs. */
  lemma CapturesExactly(cfg: Config, db: Database, log: Log, id: string, env: Conditions)
    requires Inv(cfg, db, log) && ConfigOk(cfg) && SafeId(id) && LowerHex(StoreId(db), 16)
    requires Bounded(env.seal) && AlwaysSeals(env.seal) && env.createdAt > 0 && env.snapshotBytes > 0
    requires Reported(env, HotBytes(Rows(db, Events), RangeStart(db), RecordCount(db)))
    ensures CaptureOf(cfg, db, id, env).Some? <==>
              && Ready(cfg, db) == None
              && Preflight(env.snapshotBytes, RecordCount(db), RawBound(env.leafInUse, RecordCount(db)), cfg.partBytes)
              && AllPack(cfg, db, log, env.createdAt)
    ensures CaptureOf(cfg, db, id, env).Some? ==> Describes(cfg, db, id, env, CaptureOf(cfg, db, id, env).value)
  {
    hide Inv, Reported, Preflight, AllPack, ExportOf, ValidManifest, PartsFrom, Chunks, RangeStart, RecordCount, RawBound, HotBytes, AlwaysSeals, Describes, ReadRecord;
    if Ready(cfg, db) == None {
      ReadyAt2(cfg, db);
      ExportsExactly(cfg, db, log, env);
      SealsAll(SnapshotPart, Chunks(env.snapshotBytes, cfg.partBytes), env.seal);
      if AllPack(cfg, db, log, env.createdAt)
         && Preflight(env.snapshotBytes, RecordCount(db), RawBound(env.leafInUse, RecordCount(db)), cfg.partBytes) {
        CaptureValid(cfg, db, id, env);
      }
    }
    if CaptureOf(cfg, db, id, env).Some? { CaptureDescribes(cfg, db, id, env); }
  }

  lemma ReadyAt2(cfg: Config, db: Database)
    requires Ready(cfg, db) == None
    ensures VersionOf(db) == V2
  {}
}
