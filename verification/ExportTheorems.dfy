/** What an accepted export proves, and that a capture's own export is accepted. */
module ExportTheorems {
  import opened Types
  import opened Store
  import opened Archive
  import opened Invariant
  import opened Lifecycle
  import opened Backup
  import opened Packing
  import opened Capturer
  import opened CaptureValidity
  import opened ExportAudit

  // ---- soundness ------------------------------------------------------------------------------------

  lemma ReadIsLog(cfg: Config, db: Database, log: Log, n: nat)
    requires LedgerOk(db, log) && ReadRecord(cfg, db, n).Some?
    ensures 1 <= n <= |log| && ReadRecord(cfg, db, n).value.line.record == log[n - 1]
    ensures ReadRecord(cfg, db, n).value.line.sequence == n
    ensures Some(ReadRecord(cfg, db, n).value.line.receivedAt) == ReceiptTime(db, n)
  {
    assert Seq(n) in Rows(db, Events);
  }

  /** The line is the accepted record n with its trusted receipt time. */
  predicate LineIsRecord(db: Database, log: Log, n: nat, line: Option<ExportRecord>) {
    && line.Some? && line.value.sequence == n && 1 <= n <= |log| && line.value.record == log[n - 1]
    && Some(line.value.receivedAt) == ReceiptTime(db, n)
  }

  /** Any accepted export decodes to exactly the records of the manifest's range, as they
      were accepted, and to nothing else. */
  lemma AcceptedIsLog(cfg: Config, db: Database, log: Log, m: Manifest, lines: seq<Line>, seen: seq<Option<ExportRecord>>)
    requires LedgerOk(db, log) && VersionOf(db) == V2 && m.sources == cfg.sources && Accepts(cfg, db, m, lines)
    requires seen == Delivered(lines, EventBytes(m.parts) + 1)
    ensures |seen| == m.recordCount && m.from == RangeStart(db) && m.highWater == |log|
    ensures forall i :: 0 <= i < |seen| ==> LineIsRecord(db, log, m.from + i, seen[i])
  {
    var read := RecordsOf(cfg, db);
    AcceptedExactly(cfg, db, log, m, lines, seen, read);
    DescribedIsLog(cfg, db, log, m, read, ReadRange(read, m.from, m.recordCount), seen);
  }

  lemma DescribedIsLog(cfg: Config, db: Database, log: Log, m: Manifest, read: RecordReader, ps: Option<seq<Exported>>, seen: seq<Option<ExportRecord>>)
    requires LedgerOk(db, log) && read == RecordsOf(cfg, db) && ps == ReadRange(read, m.from, m.recordCount) && Describes(m, ps, seen)
    ensures |seen| == m.recordCount
    ensures forall i :: 0 <= i < |seen| ==> LineIsRecord(db, log, m.from + i, seen[i])
  {
    hide LedgerOk, LineIsRecord, RecordsOf;
    ReadAt(read, m.from, m.recordCount);
    forall i | 0 <= i < |seen| ensures LineIsRecord(db, log, m.from + i, seen[i]) {
      DescribedAt(cfg, db, log, read, ps.value[i], seen[i], m.from + i);
    }
  }

  lemma DescribedAt(cfg: Config, db: Database, log: Log, read: RecordReader, p: Exported, line: Option<ExportRecord>, n: nat)
    requires LedgerOk(db, log) && read == RecordsOf(cfg, db) && read(n) == Some(p) && line == Some(p.line)
    ensures LineIsRecord(db, log, n, line)
  {
    hide LedgerOk, ReadRecord;
    ReadIsLog(cfg, db, log, n);
  }

  // ---- completeness -----------------------------------------------------------------------------------

  /** The plain text of the export parts, line by line. */
  function Written(ps: seq<Exported>): (lines: seq<Line>)
    ensures |lines| == |ps|
    ensures forall i :: 0 <= i < |ps| ==> lines[i] == Line(Some(ps[i].line), LineLength(ps[i].line))
  {
    seq(|ps|, i requires 0 <= i < |ps| => Line(Some(ps[i].line), LineLength(ps[i].line)))
  }

  lemma SumCons(x: nat, xs: seq<nat>)
    ensures Sum([x] + xs) == x + Sum(xs)
  {
    SumAppend([x], xs);
    SumSnoc([], x);
  }

  lemma HeadDelivered(l: Line, rest: seq<Line>, budget: nat)
    requires 1 <= l.length <= LINE_LIMIT && l.length <= budget
    ensures Delivered([l] + rest, budget) == [l.content] + Delivered(rest, budget - l.length)
  {
    assert ([l] + rest)[1..] == rest;
  }

  lemma FromTheHead(ps: seq<Exported>)
    requires ps != []
    ensures Lines(ps) == [LineLength(ps[0].line)] + Lines(ps[1..])
    ensures Written(ps) == [Line(Some(ps[0].line), LineLength(ps[0].line))] + Written(ps[1..])
    ensures LinesOf(ps) == [Some(ps[0].line)] + LinesOf(ps[1..])
  {
    hide Lines, Written, LinesOf, LineLength;
  }

  lemma FitRest(x: nat, rest: seq<nat>, size: nat)
    requires Fit([x] + rest, size)
    ensures 1 <= x <= size && Fit(rest, size)
  {
    var all := [x] + rest;
    assert all[0] == x && forall i :: 0 <= i < |rest| ==> all[i + 1] == rest[i];
  }

  lemma NoneDelivered(budget: nat)
    ensures Delivered(Written([]), budget) == LinesOf([])
  {}

  /** With room for every line, the scanner delivers them all. */
  lemma {:induction false} AllDelivered(ps: seq<Exported>, budget: nat)
    requires Fit(Lines(ps), LINE_LIMIT) && Sum(Lines(ps)) < budget
    ensures Delivered(Written(ps), budget) == LinesOf(ps)
  {
    hide Lines, Written, LinesOf, Sum, Fit, Delivered, LineLength;
    if ps == [] {
      NoneDelivered(budget);
    } else {
      var line, rest := LineLength(ps[0].line), ps[1..];
      FromTheHead(ps);
      FitRest(line, Lines(rest), LINE_LIMIT);
      SumCons(line, Lines(rest));
      HeadDelivered(Line(Some(ps[0].line), line), Written(rest), budget);
      AllDelivered(rest, budget - line);
    }
  }

  lemma EventBytesAre(a: seq<Part>, n: nat, e: Export, lines: seq<nat>, count: nat, createdAt: nat, size: nat)
    requires size > 0 && AllShaped(a, SnapshotPart, Chunks(n, size)) && ExportFits(e, lines, count, createdAt, size)
    ensures EventBytes(a + e.parts) == Sum(lines)
  {
    var groups := Grouped(lines, size);
    GroupedIsGreedy(lines, size);
    SumOfSums(groups);
    ShapedTotals(a, SnapshotPart, Chunks(n, size), EventsPart);
    ShapedTotals(e.parts, EventsPart, Sums(groups), SnapshotPart);
    TotalsAppend(a, e.parts, EventsPart);
  }

  /** The export a capture writes for its own snapshot is always accepted. */
  lemma OwnExportAccepted(cfg: Config, db: Database, log: Log, id: string, env: Conditions, m: Manifest, ps: seq<Exported>)
    requires LedgerOk(db, log) && VersionOf(db) == V2 && Meta in db && Events in db
    requires cfg.partBytes > 0 && Bounded(env.seal)
    requires CaptureOf(cfg, db, id, env) == Some(m) && ReadRange(RecordsOf(cfg, db), RangeStart(db), RecordCount(db)) == Some(ps)
    ensures Accepts(cfg, db, m, Written(ps))
  {
    var read, from, count := RecordsOf(cfg, db), RangeStart(db), RecordCount(db);
    var a := PartsFrom(SnapshotPart, Chunks(env.snapshotBytes, cfg.partBytes), env.seal).value;
    var e := ExportOf(read, from, count, env.createdAt, cfg.partBytes, env.seal).value;
    PartsShaped(SnapshotPart, Chunks(env.snapshotBytes, cfg.partBytes), env.seal);
    CaptureReads(cfg, db);
    var qs := ExportShape(read, Rows(db, Events), from, count, env.createdAt, cfg.partBytes, env.seal);
    EventBytesAre(a, env.snapshotBytes, e, Lines(ps), count, env.createdAt, cfg.partBytes);
    AllDelivered(ps, EventBytes(m.parts) + 1);
    OwnDescribed(cfg, db, log, m, ps, read, LinesOf(ps));
  }

  lemma OwnDescribed(cfg: Config, db: Database, log: Log, m: Manifest, ps: seq<Exported>, read: RecordReader, seen: seq<Option<ExportRecord>>)
    requires LedgerOk(db, log) && VersionOf(db) == V2 && m.sources == cfg.sources && read == RecordsOf(cfg, db)
    requires HeaderMatches(db, m) && Describes(m, ReadRange(read, m.from, m.recordCount), seen)
    requires seen == Delivered(Written(ps), EventBytes(m.parts) + 1)
    ensures Accepts(cfg, db, m, Written(ps))
  {
    AcceptedExactly(cfg, db, log, m, Written(ps), seen, read);
  }
}
