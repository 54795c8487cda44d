/** `ValidateBillingSnapshotExports`: the verifier's check of the decrypted export lines
    against the snapshot they were taken from. */
module ExportAudit {
  import opened Types
  import opened Store
  import opened Archive
  import opened Invariant
  import opened Lifecycle
  import opened Backup
  import opened Packing
  import opened Capturer
  import opened Usage

  /** A line of the stream: what it decodes to, and its length with the newline. */
  datatype Line = Line(content: Option<ExportRecord>, length: nat)

  const TOKEN_BYTES: nat := 2 * MIB

  /** The lines a scanner delivers when only `budget` bytes can be read. A line that is cut
      short, or longer than the scanner's buffer, does not decode; a line that only lost its
      newline does. */
  function Delivered(lines: seq<Line>, budget: nat): seq<Option<ExportRecord>> {
    if lines == [] || budget == 0 then []
    else
      var l := lines[0];
      if l.length == 0 || l.length > TOKEN_BYTES then [None]
      else if l.length <= budget then [l.content] + Delivered(lines[1..], budget - l.length)
      else if l.length == budget + 1 then [l.content]
      else [None]
  }

  function EventBytes(parts: seq<Part>): nat {
    var total := KindBytes(parts, EventsPart);
    if total < 0 then 0 else total
  }

  /** One line is the record the snapshot vouches for at sequence `n`. */
  function Vouched(cfg: Config, db: Database, sources: seq<string>, n: nat, line: Option<ExportRecord>): Option<RecordBinding> {
    match line
    case None => None
    case Some(e) =>
      if e.sequence != n || !Decodes(e.record, e.sequence) || e.content != e.record.content || e.receivedAt == 0
         || Get(db, Events, Seq(n)) != Some(Body(e.record)) || e.record.event.env !in sources
         || ReceiptTime(db, n) != Some(e.receivedAt) || !BindsTo(db, e.record) then None
      else UsageBinding(n, e.content, e.record.event.usage)
  }

  /** What is known after some lines: how many, their bindings, the latest receipt. */
  datatype Tally = Tally(count: nat, bindings: seq<RecordBinding>, latest: nat)

  type Checker = (nat, Option<ExportRecord>) -> Option<RecordBinding>

  function CheckerOf(cfg: Config, db: Database, sources: seq<string>): Checker {
    (n: nat, line: Option<ExportRecord>) => Vouched(cfg, db, sources, n, line)
  }

  function Extend(check: Checker, from: nat, limit: nat, tally: Option<Tally>, line: Option<ExportRecord>): Option<Tally> {
    match tally
    case None => None
    case Some(t) =>
      if t.count >= limit then None
      else match check(from + t.count, line)
        case None => None
        case Some(b) =>
          var at := if line.Some? then line.value.receivedAt else 0;
          Some(Tally(t.count + 1, t.bindings + [b], if at > t.latest then at else t.latest))
  }

  /** After the first `k` lines; None when one was refused. */
  function TallyOf(check: Checker, from: nat, limit: nat, lines: seq<Option<ExportRecord>>, k: nat): Option<Tally>
    requires k <= |lines|
  {
    if k == 0 then Some(Tally(0, [], 0)) else Extend(check, from, limit, TallyOf(check, from, limit, lines, k - 1), lines[k - 1])
  }

  predicate HeaderMatches(db: Database, m: Manifest) {
    && Meta in db && Events in db && StoreId(db) == m.storeId && Head(db) == m.highWater && m.from == RangeStart(db)
  }

  predicate TallyMatches(check: Checker, m: Manifest, seen: seq<Option<ExportRecord>>) {
    match TallyOf(check, m.from, m.recordCount, seen, |seen|)
    case None => false
    case Some(t) => t.count == m.recordCount && t.latest == m.maxReceivedAt && t.bindings == m.bindings
  }

  predicate Accepts(cfg: Config, db: Database, m: Manifest, lines: seq<Line>) {
    HeaderMatches(db, m) && TallyMatches(CheckerOf(cfg, db, m.sources), m, Delivered(lines, EventBytes(m.parts) + 1))
  }

  /** The scanner loop. */
  method TallyLines(check: Checker, from: nat, limit: nat, seen: seq<Option<ExportRecord>>) returns (t: Option<Tally>)
    ensures t == TallyOf(check, from, limit, seen, |seen|)
  {
    var count, latest: nat, bindings: seq<RecordBinding> := 0, 0, [];
    var i := 0;
    while i < |seen|
      invariant 0 <= i <= |seen| && TallyOf(check, from, limit, seen, i) == Some(Tally(count, bindings, latest))
    {
      var b := if count >= limit then None else check(from + count, seen[i]);
      if b == None {
        RefusedForGood(check, from, limit, seen, i + 1, |seen|);
        return None;
      }
      var at := if seen[i].Some? then seen[i].value.receivedAt else 0;
      count, bindings, latest := count + 1, bindings + [b.value], if at > latest then at else latest;
      i := i + 1;
    }
    t := Some(Tally(count, bindings, latest));
  }

  method ValidateExports(cfg: Config, db: Database, m: Manifest, lines: seq<Line>) returns (ok: bool)
    ensures ok <==> Accepts(cfg, db, m, lines)
  {
    hide HeaderMatches, Delivered, EventBytes, TallyOf;
    if !HeaderMatches(db, m) { return false; }
    var seen := Delivered(lines, EventBytes(m.parts) + 1);
    var t := TallyLines(CheckerOf(cfg, db, m.sources), m.from, m.recordCount, seen);
    ok := t.Some? && t.value.count == m.recordCount && t.value.latest == m.maxReceivedAt && t.value.bindings == m.bindings;
  }

  lemma {:induction false} RefusedForGood(check: Checker, from: nat, limit: nat, lines: seq<Option<ExportRecord>>, k: nat, j: nat)
    requires k <= j <= |lines| && TallyOf(check, from, limit, lines, k) == None
    ensures TallyOf(check, from, limit, lines, j) == None
    decreases j
  {
    if k < j { RefusedForGood(check, from, limit, lines, k, j - 1); }
  }

  // ---- what is accepted ---------------------------------------------------------------------------------

  /** The only line that is vouched for at `n` is the one the capture writes. */
  lemma VouchedIsRead(cfg: Config, db: Database, log: Log, n: nat, line: Option<ExportRecord>)
    requires LedgerOk(db, log) && VersionOf(db) == V2
    ensures Vouched(cfg, db, cfg.sources, n, line).Some? <==>
              ReadRecord(cfg, db, n).Some? && line == Some(ReadRecord(cfg, db, n).value.line)
    ensures Vouched(cfg, db, cfg.sources, n, line).Some? ==>
              Vouched(cfg, db, cfg.sources, n, line).value == ReadRecord(cfg, db, n).value.binding
  {
    hide LedgerIn, UsageBinding;
    if ReadRecord(cfg, db, n).Some? {
      HotBinds(db, log, n, ReadRecord(cfg, db, n).value.line.record);
      ReadIsVouched(cfg, db, n);
    }
  }

  lemma HotBinds(db: Database, log: Log, n: nat, r: BillingRecord)
    requires LedgerOk(db, log) && VersionOf(db) == V2 && Get(db, Events, Seq(n)) == Some(Body(r))
    ensures BindsTo(db, r)
  {
    assert Seq(n) in Rows(db, Events);
    OriginalBinds(db, log, n);
  }

  lemma ReadIsVouched(cfg: Config, db: Database, n: nat)
    requires ReadRecord(cfg, db, n).Some? && BindsTo(db, ReadRecord(cfg, db, n).value.line.record)
    ensures var p := ReadRecord(cfg, db, n).value; Vouched(cfg, db, cfg.sources, n, Some(p.line)) == Some(p.binding)
  {}

  /** The check accepts at each sequence the line that the reader makes, and nothing else. */
  ghost predicate Agrees(check: Checker, read: RecordReader) {
    forall n: nat, line ::
      (check(n, line).Some? <==> read(n).Some? && line == Some(read(n).value.line)) &&
      (check(n, line).Some? ==> check(n, line).value == read(n).value.binding)
  }

  lemma SnapshotAgrees(cfg: Config, db: Database, log: Log)
    requires LedgerOk(db, log) && VersionOf(db) == V2
    ensures Agrees(CheckerOf(cfg, db, cfg.sources), RecordsOf(cfg, db))
  {
    var check, read := CheckerOf(cfg, db, cfg.sources), RecordsOf(cfg, db);
    forall n: nat, line
      ensures check(n, line).Some? <==> read(n).Some? && line == Some(read(n).value.line)
      ensures check(n, line).Some? ==> check(n, line).value == read(n).value.binding
    {
      VouchedIsRead(cfg, db, log, n, line);
    }
  }

  function LinesOf(ps: seq<Exported>): (lines: seq<Option<ExportRecord>>)
    ensures |lines| == |ps| && forall i :: 0 <= i < |ps| ==> lines[i] == Some(ps[i].line)
  {
    seq(|ps|, i requires 0 <= i < |ps| => Some(ps[i].line))
  }

  /** The tally of `k` lines succeeds exactly on the first `k` records of the range. */
  ghost predicate TallyIs(t: Option<Tally>, ps: Option<seq<Exported>>, limit: nat, lines: seq<Option<ExportRecord>>, k: nat)
    requires k <= |lines|
  {
    && (t.Some? <==> k <= limit && ps.Some? && lines[..k] == LinesOf(ps.value))
    && (t.Some? ==> t.value == Tally(k, Bindings(ps.value), Latest(ps.value)))
  }

  lemma {:induction false} TallyReads(check: Checker, read: RecordReader, from: nat, limit: nat, lines: seq<Option<ExportRecord>>, k: nat)
    requires Agrees(check, read) && k <= |lines|
    ensures TallyIs(TallyOf(check, from, limit, lines, k), ReadRange(read, from, k), limit, lines, k)
  {
    if k > 0 {
      TallyReads(check, read, from, limit, lines, k - 1);
      if ReadRange(read, from, k - 1).Some? { ReadAt(read, from, k - 1); }
      TallyStep(check, read, from, limit, lines, k, TallyOf(check, from, limit, lines, k - 1), ReadRange(read, from, k - 1));
      ReadMore(read, from, k);
    } else {
      assert lines[..0] == LinesOf([]) && Bindings([]) == [];
    }
  }

  function More(ps: Option<seq<Exported>>, p: Option<Exported>): Option<seq<Exported>> {
    if ps.Some? && p.Some? then Some(ps.value + [p.value]) else None
  }

  lemma ReadMore(read: RecordReader, from: nat, k: nat)
    requires k > 0
    ensures ReadRange(read, from, k) == More(ReadRange(read, from, k - 1), read(from + (k - 1)))
  {}

  lemma TallyStep(check: Checker, read: RecordReader, from: nat, limit: nat, lines: seq<Option<ExportRecord>>, k: nat,
                  t: Option<Tally>, ps: Option<seq<Exported>>)
    requires Agrees(check, read) && 0 < k <= |lines| && TallyIs(t, ps, limit, lines, k - 1)
    requires ps.Some? ==> |ps.value| == k - 1
    ensures TallyIs(Extend(check, from, limit, t, lines[k - 1]), More(ps, read(from + (k - 1))), limit, lines, k)
  {
    if ps.Some? && read(from + (k - 1)).Some? {
      var p := read(from + (k - 1)).value;
      LinesSnoc(ps.value, p);
      LatestSnoc(ps.value, p);
      LinesExtend(lines, ps.value, p, k);
    }
  }

  lemma LinesExtend(lines: seq<Option<ExportRecord>>, rest: seq<Exported>, p: Exported, k: nat)
    requires 0 < k <= |lines| && |rest| == k - 1
    ensures lines[..k] == LinesOf(rest + [p]) <==> lines[..k - 1] == LinesOf(rest) && lines[k - 1] == Some(p.line)
  {
    assert lines[..k] == lines[..k - 1] + [lines[k - 1]];
    assert LinesOf(rest + [p]) == LinesOf(rest) + [Some(p.line)];
    if lines[..k] == LinesOf(rest + [p]) {
      assert lines[..k][..k - 1] == lines[..k - 1] && LinesOf(rest + [p])[..k - 1] == LinesOf(rest);
      assert lines[..k][k - 1] == lines[k - 1];
    }
  }

  /** The records `ps` with the manifest's bindings and latest receipt. */
  predicate Describes(m: Manifest, ps: Option<seq<Exported>>, seen: seq<Option<ExportRecord>>) {
    ps.Some? && seen == LinesOf(ps.value) && m.maxReceivedAt == Latest(ps.value) && m.bindings == Bindings(ps.value)
  }

  lemma TallyMeans(check: Checker, read: RecordReader, m: Manifest, seen: seq<Option<ExportRecord>>)
    requires Agrees(check, read)
    ensures TallyMatches(check, m, seen) <==> Describes(m, ReadRange(read, m.from, m.recordCount), seen)
  {
    TallyReads(check, read, m.from, m.recordCount, seen, |seen|);
    assert seen[..|seen|] == seen;
    if ReadRange(read, m.from, m.recordCount).Some? { ReadAt(read, m.from, m.recordCount); }
  }

  lemma SnapshotTally(cfg: Config, db: Database, log: Log, m: Manifest, seen: seq<Option<ExportRecord>>, check: Checker, read: RecordReader)
    requires LedgerOk(db, log) && VersionOf(db) == V2 && check == CheckerOf(cfg, db, cfg.sources) && read == RecordsOf(cfg, db)
    ensures TallyMatches(check, m, seen) <==> Describes(m, ReadRange(read, m.from, m.recordCount), seen)
  {
    SnapshotAgrees(cfg, db, log);
    TallyMeans(check, read, m, seen);
  }

  lemma AcceptsIs(cfg: Config, db: Database, m: Manifest, lines: seq<Line>, seen: seq<Option<ExportRecord>>, check: Checker)
    requires seen == Delivered(lines, EventBytes(m.parts) + 1) && check == CheckerOf(cfg, db, m.sources)
    ensures Accepts(cfg, db, m, lines) <==> HeaderMatches(db, m) && TallyMatches(check, m, seen)
  {}

  /** An export is accepted exactly when the lines the verifier can read are the records of
      the manifest's range, in order, with stored bytes and trusted receipt times, and their
      bindings and latest receipt are the manifest's. */
  lemma AcceptedExactly(cfg: Config, db: Database, log: Log, m: Manifest, lines: seq<Line>,
                        seen: seq<Option<ExportRecord>>, read: RecordReader)
    requires LedgerOk(db, log) && VersionOf(db) == V2 && m.sources == cfg.sources
    requires seen == Delivered(lines, EventBytes(m.parts) + 1) && read == RecordsOf(cfg, db)
    ensures Accepts(cfg, db, m, lines) <==>
              HeaderMatches(db, m) && Describes(m, ReadRange(read, m.from, m.recordCount), seen)
  {
    var check := CheckerOf(cfg, db, m.sources);
    AcceptsIs(cfg, db, m, lines, seen, check);
    SnapshotTally(cfg, db, log, m, seen, check, read);
  }
}
