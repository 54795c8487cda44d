/** What `Capture` makes of a snapshot: the parts, the bindings and the manifest. */
module Capturer {
  import opened Types
  import opened Store
  import opened Archive
  import opened Invariant
  import opened Lifecycle
  import opened Backup
  import opened Packing
  import opened Usage

  // ---- sealed parts ---------------------------------------------------------------------------------

  /** Length and digests of an encrypted part. */
  datatype Cipher = Cipher(bytes: int, digests: string)

  /** `sealPart`: compression, encryption and the file; None when one of them fails. */
  type Sealer = (PartKind, nat, nat, nat) -> Option<Cipher>

  /** The encoder refuses to write an empty or an oversized part. */
  ghost predicate Bounded(seal: Sealer) {
    forall kind, ordinal, offset, plain ::
      seal(kind, ordinal, offset, plain).Some? ==>
        1 <= seal(kind, ordinal, offset, plain).value.bytes <= MAX_CIPHER_PART_BYTES
  }

  function PartOf(kind: PartKind, ordinal: nat, offset: nat, plain: nat, c: Cipher): Part {
    Part(Generated(kind, ordinal), kind, ordinal, offset, plain, c.bytes, c.digests)
  }

  /** Consecutive parts of the given sizes. */
  function PartsFrom(kind: PartKind, sizes: seq<nat>, seal: Sealer): Option<seq<Part>> {
    if sizes == [] then Some([])
    else
      var rest := sizes[..|sizes| - 1];
      match PartsFrom(kind, rest, seal)
      case None => None
      case Some(parts) =>
        match seal(kind, |sizes|, Sum(rest), sizes[|sizes| - 1])
        case None => None
        case Some(c) => Some(parts + [PartOf(kind, |sizes|, Sum(rest), sizes[|sizes| - 1], c)])
  }

  lemma {:induction false} PartsFail(kind: PartKind, sizes: seq<nat>, more: seq<nat>, seal: Sealer)
    requires PartsFrom(kind, sizes, seal) == None
    ensures PartsFrom(kind, sizes + more, seal) == None
    decreases |more|
  {
    if more == [] {
      assert sizes + more == sizes;
    } else {
      PartsFail(kind, sizes, more[..|more| - 1], seal);
      assert (sizes + more)[..|sizes + more| - 1] == sizes + more[..|more| - 1];
    }
  }

  lemma PartsSnoc(kind: PartKind, sizes: seq<nat>, size: nat, seal: Sealer)
    ensures PartsFrom(kind, sizes + [size], seal) ==
      match PartsFrom(kind, sizes, seal)
      case None => None
      case Some(parts) =>
        match seal(kind, |sizes| + 1, Sum(sizes), size)
        case None => None
        case Some(c) => Some(parts + [PartOf(kind, |sizes| + 1, Sum(sizes), size, c)])
  {
    assert (sizes + [size])[..|sizes|] == sizes;
  }

  /** The loop that cuts the snapshot. */
  method SealSnapshot(n: nat, size: nat, seal: Sealer) returns (parts: Option<seq<Part>>)
    requires size > 0
    ensures parts == PartsFrom(SnapshotPart, Chunks(n, size), seal)
  {
    var acc: seq<Part> := [];
    var offset, ordinal := 0, 1;
    ghost var sizes: seq<nat> := [];
    while offset < n
      invariant 0 <= offset <= n && ordinal == |sizes| + 1 && offset == Sum(sizes)
      invariant sizes + Chunks(n - offset, size) == Chunks(n, size)
      invariant PartsFrom(SnapshotPart, sizes, seal) == Some(acc)
      decreases n - offset
    {
      var length := if n - offset < size then n - offset else size;
      var c := seal(SnapshotPart, ordinal, offset, length);
      PartsSnoc(SnapshotPart, sizes, length, seal);
      ghost var rest := Chunks(n - offset - length, size);
      assert Chunks(n - offset, size) == [length] + rest;
      assert sizes + ([length] + rest) == (sizes + [length]) + rest;
      if c == None {
        PartsFail(SnapshotPart, sizes + [length], rest, seal);
        return None;
      }
      acc := acc + [PartOf(SnapshotPart, ordinal, offset, length, c.value)];
      SumSnoc(sizes, length);
      sizes := sizes + [length];
      offset := offset + length;
      ordinal := ordinal + 1;
    }
    assert sizes + Chunks(0, size) == sizes;
    parts := Some(acc);
  }

  // ---- the records of a range ---------------------------------------------------------------------------

  datatype Exported = Exported(line: ExportRecord, binding: RecordBinding)

  /** One record of the snapshot, as the capture loop reads it. */
  function ReadRecord(cfg: Config, db: Database, n: nat): Option<Exported> {
    match Get(db, Events, Seq(n))
    case Some(Body(r)) =>
      if !Decodes(r, n) || r.event.env !in cfg.sources then None
      else (match ReceiptTime(db, n)
            case None => None
            case Some(at) =>
              match UsageBinding(n, r.content, r.event.usage)
              case None => None
              case Some(b) => Some(Exported(ExportRecord(n, r.content, at, r), b)))
    case _ => None
  }

  type RecordReader = nat -> Option<Exported>

  function RecordsOf(cfg: Config, db: Database): RecordReader { (n: nat) => ReadRecord(cfg, db, n) }

  /** Records from..from+k-1; None when one of them cannot be read. */
  function ReadRange(read: RecordReader, from: nat, k: nat): Option<seq<Exported>> {
    if k == 0 then Some([])
    else match ReadRange(read, from, k - 1)
      case None => None
      case Some(ps) =>
        match read(from + k - 1) case None => None case Some(p) => Some(ps + [p])
  }

  function LineLength(e: ExportRecord): nat { e.record.Length() + LINE_OVERHEAD }

  function Lines(ps: seq<Exported>): (lines: seq<nat>)
    ensures |lines| == |ps| && forall i :: 0 <= i < |ps| ==> lines[i] == LineLength(ps[i].line)
  {
    seq(|ps|, i requires 0 <= i < |ps| => LineLength(ps[i].line))
  }

  function Bindings(ps: seq<Exported>): (refs: seq<RecordBinding>)
    ensures |refs| == |ps| && forall i :: 0 <= i < |ps| ==> refs[i] == ps[i].binding
  {
    seq(|ps|, i requires 0 <= i < |ps| => ps[i].binding)
  }

  function Latest(ps: seq<Exported>): nat {
    if ps == [] then 0
    else
      var before, at := Latest(ps[..|ps| - 1]), ps[|ps| - 1].line.receivedAt;
      if at > before then at else before
  }

  /** A record the capture refuses although it reads: received after the set was made, or
      longer than a part. */
  predicate Packable(p: Exported, createdAt: nat, size: nat) {
    p.line.receivedAt <= createdAt && LineLength(p.line) <= size
  }

  predicate AllPackable(ps: seq<Exported>, createdAt: nat, size: nat) {
    forall i :: 0 <= i < |ps| ==> Packable(ps[i], createdAt, size)
  }

  lemma {:induction false} ReadStops(read: RecordReader, from: nat, k: nat, j: nat)
    requires k <= j && ReadRange(read, from, k) == None
    ensures ReadRange(read, from, j) == None
    decreases j
  {
    if k < j { ReadStops(read, from, k, j - 1); }
  }

  lemma {:induction false} ReadAt(read: RecordReader, from: nat, k: nat)
    requires ReadRange(read, from, k).Some?
    ensures var ps := ReadRange(read, from, k).value;
      |ps| == k && forall i :: 0 <= i < k ==> read(from + i) == Some(ps[i])
  {
    if k > 0 { ReadAt(read, from, k - 1); }
  }

  lemma ReadPrefix(read: RecordReader, from: nat, k: nat, j: nat)
    requires k <= j && ReadRange(read, from, j).Some? && ReadRange(read, from, k).Some?
    ensures |ReadRange(read, from, j).value| == j && ReadRange(read, from, j).value[..k] == ReadRange(read, from, k).value
  {
    ReadAt(read, from, j);
    ReadAt(read, from, k);
  }

  // ---- packing the records ---------------------------------------------------------------------------------

  function EventParts(lines: seq<nat>, size: nat, seal: Sealer): Option<seq<Part>> {
    PartsFrom(EventsPart, Sums(Grouped(lines, size)), seal)
  }

  datatype Export = Export(parts: seq<Part>, bindings: seq<RecordBinding>, maxReceivedAt: nat)

  /** What packing the range makes; None when a record, a limit or a seal stops it. */
  function ExportOf(read: RecordReader, from: nat, count: nat, createdAt: nat, size: nat, seal: Sealer): Option<Export> {
    match ReadRange(read, from, count)
    case None => None
    case Some(ps) =>
      if !AllPackable(ps, createdAt, size) then None
      else match EventParts(Lines(ps), size, seal)
        case None => None
        case Some(parts) => Some(Export(parts, Bindings(ps), Latest(ps)))
  }

  /** `more` only adds to what was flushed. */
  lemma {:induction false} FlushedGrows(lines: seq<nat>, more: seq<nat>, size: nat)
    ensures Packed(lines, size).flushed <= Packed(lines + more, size).flushed
    decreases |more|
  {
    if more == [] {
      assert lines + more == lines;
    } else {
      var rest := more[..|more| - 1];
      FlushedGrows(lines, rest, size);
      PackedIs(lines + more, size);
      assert (lines + more)[..|lines + more| - 1] == lines + rest;
    }
  }

  lemma SumsSnoc(groups: seq<seq<nat>>, g: seq<nat>)
    ensures Sums(groups + [g]) == Sums(groups) + [Sum(g)]
  {}

  lemma SumsPrefix(a: seq<seq<nat>>, b: seq<seq<nat>>)
    requires a <= b
    ensures Sums(b) == Sums(a) + Sums(b)[|a|..]
  {}

  lemma FlushedInGroups(lines: seq<nat>, more: seq<nat>, size: nat, b: Buffer)
    requires b == Packed(lines, size)
    ensures b.flushed <= Grouped(lines + more, size)
  {
    FlushedGrows(lines, more, size);
  }

  lemma GroupsFail(groups: seq<seq<nat>>, all: seq<seq<nat>>, seal: Sealer)
    requires groups <= all && PartsFrom(EventsPart, Sums(groups), seal) == None
    ensures PartsFrom(EventsPart, Sums(all), seal) == None
  {
    SumsPrefix(groups, all);
    PartsFail(EventsPart, Sums(groups), Sums(all)[|groups|..], seal);
  }

  /** A seal that fails at a flush fails the whole export. */
  lemma FlushFails(lines: seq<nat>, more: seq<nat>, size: nat, seal: Sealer, next: Buffer)
    requires next == Packed(lines, size) && PartsFrom(EventsPart, Sums(next.flushed), seal) == None
    ensures EventParts(lines + more, size, seal) == None
  {
    FlushedInGroups(lines, more, size, next);
    GroupsFail(next.flushed, Grouped(lines + more, size), seal);
  }

  /** The state of the record loop. */
  ghost predicate LoopOk(ps: seq<Exported>, size: nat, seal: Sealer, parts: seq<Part>, raw: nat, rawOffset: nat, ordinal: nat) {
    var b := Packed(Lines(ps), size);
    && PartsFrom(EventsPart, Sums(b.flushed), seal) == Some(parts)
    && raw == Sum(b.raw) && rawOffset == Sum(Sums(b.flushed)) && ordinal == |b.flushed| + 1
    && (raw == 0 <==> b.raw == [])
  }

  lemma LinesSnoc(ps: seq<Exported>, p: Exported)
    ensures Lines(ps + [p]) == Lines(ps) + [LineLength(p.line)]
    ensures Bindings(ps + [p]) == Bindings(ps) + [p.binding]
  {}

  lemma LatestSnoc(ps: seq<Exported>, p: Exported)
    ensures Latest(ps + [p]) == if p.line.receivedAt > Latest(ps) then p.line.receivedAt else Latest(ps)
  {
    assert (ps + [p])[..|ps|] == ps;
  }

  /** One flush: the next part holds the buffered lines. */
  lemma FlushedParts(b: Buffer, seal: Sealer, parts: seq<Part>)
    requires PartsFrom(EventsPart, Sums(b.flushed), seal) == Some(parts)
    ensures var c := seal(EventsPart, |b.flushed| + 1, Sum(Sums(b.flushed)), Sum(b.raw));
      PartsFrom(EventsPart, Sums(b.flushed + [b.raw]), seal) ==
        match c case None => None
        case Some(v) => Some(parts + [PartOf(EventsPart, |b.flushed| + 1, Sum(Sums(b.flushed)), Sum(b.raw), v)])
    ensures Sum(Sums(b.flushed + [b.raw])) == Sum(Sums(b.flushed)) + Sum(b.raw)
  {
    SumsSnoc(b.flushed, b.raw);
    PartsSnoc(EventsPart, Sums(b.flushed), Sum(b.raw), seal);
    SumSnoc(Sums(b.flushed), Sum(b.raw));
  }

  lemma LoopAdds(ps: seq<Exported>, p: Exported, size: nat, seal: Sealer, parts: seq<Part>, raw: nat, rawOffset: nat, ordinal: nat)
    requires LoopOk(ps, size, seal, parts, raw, rawOffset, ordinal)
    ensures var line := LineLength(p.line);
      raw + line <= size ==> LoopOk(ps + [p], size, seal, parts, raw + line, rawOffset, ordinal)
    ensures var line := LineLength(p.line);
      raw + line > size && raw == 0 ==> LoopOk(ps + [p], size, seal, parts, line, rawOffset, ordinal)
    ensures var line, c := LineLength(p.line), seal(EventsPart, ordinal, rawOffset, raw);
      raw + line > size && raw > 0 && c.Some? ==>
        LoopOk(ps + [p], size, seal, parts + [PartOf(EventsPart, ordinal, rawOffset, raw, c.value)], line, rawOffset + raw, ordinal + 1)
    ensures var line, c := LineLength(p.line), seal(EventsPart, ordinal, rawOffset, raw);
      raw + line > size && raw > 0 && c.None? ==>
        forall more :: EventParts(Lines(ps + [p]) + more, size, seal) == None
  {
    var lines, line := Lines(ps), LineLength(p.line);
    var b := Packed(lines, size);
    LinesSnoc(ps, p);
    assert (lines + [line])[..|lines|] == lines;
    PackedIs(lines + [line], size);
    SumSnoc(b.raw, line);
    SumSnoc([], line);
    FlushedParts(b, seal, parts);
    if raw + line > size && raw > 0 && seal(EventsPart, ordinal, rawOffset, raw).None? {
      forall more ensures EventParts(Lines(ps + [p]) + more, size, seal) == None {
        FlushFails(lines + [line], more, size, seal, Packed(lines + [line], size));
      }
    }
  }

  lemma LinesSplit(ps: seq<Exported>, k: nat)
    requires k <= |ps|
    ensures Lines(ps) == Lines(ps[..k]) + Lines(ps[k..])
  {}

  /** A failure at record i fails the export. */
  lemma ExportStops(read: RecordReader, from: nat, i: nat, count: nat, createdAt: nat, size: nat, seal: Sealer, ps: seq<Exported>)
    requires i < count && ReadRange(read, from, i) == Some(ps)
    requires match read(from + i)
             case None => true
             case Some(p) =>
               !Packable(p, createdAt, size) || forall more :: EventParts(Lines(ps + [p]) + more, size, seal) == None
    ensures ExportOf(read, from, count, createdAt, size, seal) == None
  {
    if read(from + i) == None {
      assert ReadRange(read, from, i + 1) == None;
      ReadStops(read, from, i + 1, count);
    } else if ReadRange(read, from, count).Some? {
      var all, p := ReadRange(read, from, count).value, read(from + i).value;
      assert ReadRange(read, from, i + 1) == Some(ps + [p]);
      ReadPrefix(read, from, i + 1, count);
      ReadAt(read, from, i + 1);
      LinesSplit(all, i + 1);
      assert all[i] == p;
    }
  }

  lemma LoopEnds(ps: seq<Exported>, size: nat, seal: Sealer, parts: seq<Part>, raw: nat, rawOffset: nat, ordinal: nat)
    requires LoopOk(ps, size, seal, parts, raw, rawOffset, ordinal)
    ensures raw == 0 ==> EventParts(Lines(ps), size, seal) == Some(parts)
    ensures raw > 0 ==> EventParts(Lines(ps), size, seal) == WithFlush(seal, parts, raw, rawOffset, ordinal)
  {
    FlushedParts(Packed(Lines(ps), size), seal, parts);
  }

  lemma LoopStarts(size: nat, seal: Sealer)
    ensures LoopOk([], size, seal, [], 0, 0, 1)
  {
    assert Lines([]) == [] && Sums([]) == [];
  }

  function WithFlush(seal: Sealer, parts: seq<Part>, raw: nat, rawOffset: nat, ordinal: nat): Option<seq<Part>> {
    match seal(EventsPart, ordinal, rawOffset, raw)
    case None => None
    case Some(c) => Some(parts + [PartOf(EventsPart, ordinal, rawOffset, raw, c)])
  }

  /** Where the record loop stands: the parts so far and the bytes in the buffer. */
  datatype Progress = Progress(parts: seq<Part>, raw: nat, rawOffset: nat, ordinal: nat)

  ghost predicate ProgressOk(ps: seq<Exported>, size: nat, seal: Sealer, g: Progress) {
    LoopOk(ps, size, seal, g.parts, g.raw, g.rawOffset, g.ordinal)
  }

  /** One line: flush the buffer when the line does not fit, then buffer the line. */
  function Appended(seal: Sealer, size: nat, g: Progress, line: nat): Option<Progress> {
    if g.raw + line > size && g.raw > 0 then
      match seal(EventsPart, g.ordinal, g.rawOffset, g.raw)
      case None => None
      case Some(c) => Some(Progress(g.parts + [PartOf(EventsPart, g.ordinal, g.rawOffset, g.raw, c)], line,
                                    g.rawOffset + g.raw, g.ordinal + 1))
    else Some(g.(raw := g.raw + line))
  }

  lemma AppendLine(ps: seq<Exported>, p: Exported, size: nat, seal: Sealer, g: Progress)
    requires ProgressOk(ps, size, seal, g)
    ensures var next := Appended(seal, size, g, LineLength(p.line));
      && (next.Some? ==> ProgressOk(ps + [p], size, seal, next.value))
      && (next.None? ==> forall more :: EventParts(Lines(ps + [p]) + more, size, seal) == None)
  {
    hide LoopOk, EventParts, PartOf, LineLength, Lines;
    LoopAdds(ps, p, size, seal, g.parts, g.raw, g.rawOffset, g.ordinal);
  }

  /** What the loop has found out about the records so far. */
  ghost predicate ReadSoFar(read: RecordReader, from: nat, i: nat, ps: seq<Exported>, createdAt: nat, size: nat,
                            bindings: seq<RecordBinding>, latest: nat)
  {
    ReadRange(read, from, i) == Some(ps) && AllPackable(ps, createdAt, size) && bindings == Bindings(ps) && latest == Latest(ps)
  }

  lemma ReadOneMore(read: RecordReader, from: nat, i: nat, ps: seq<Exported>, createdAt: nat, size: nat,
                    bindings: seq<RecordBinding>, latest: nat, p: Exported)
    requires ReadSoFar(read, from, i, ps, createdAt, size, bindings, latest)
    requires read(from + i) == Some(p) && Packable(p, createdAt, size)
    ensures ReadSoFar(read, from, i + 1, ps + [p], createdAt, size, bindings + [p.binding],
                      if p.line.receivedAt > latest then p.line.receivedAt else latest)
  {
    LinesSnoc(ps, p);
    LatestSnoc(ps, p);
  }

  lemma ExportEnds(read: RecordReader, from: nat, count: nat, createdAt: nat, size: nat, seal: Sealer, ps: seq<Exported>,
                   bindings: seq<RecordBinding>, latest: nat, g: Progress, parts: Option<seq<Part>>)
    requires ReadSoFar(read, from, count, ps, createdAt, size, bindings, latest) && ProgressOk(ps, size, seal, g)
    requires parts == if g.raw > 0 then WithFlush(seal, g.parts, g.raw, g.rawOffset, g.ordinal) else Some(g.parts)
    ensures ExportOf(read, from, count, createdAt, size, seal) ==
            if parts == None then None else Some(Export(parts.value, bindings, latest))
  {
    LoopEnds(ps, size, seal, g.parts, g.raw, g.rawOffset, g.ordinal);
  }

  datatype Scan = Scan(progress: Progress, bindings: seq<RecordBinding>, latest: nat)

  ghost predicate Scanned(read: RecordReader, from: nat, i: nat, createdAt: nat, size: nat, seal: Sealer, s: Scan) {
    exists ps :: ReadSoFar(read, from, i, ps, createdAt, size, s.bindings, s.latest) && ProgressOk(ps, size, seal, s.progress)
  }

  function FirstScan(): Scan { Scan(Progress([], 0, 0, 1), [], 0) }

  /** One record of the loop; None ends the capture. */
  function NextScan(read: RecordReader, n: nat, createdAt: nat, size: nat, seal: Sealer, s: Scan): Option<Scan> {
    match read(n)
    case None => None
    case Some(p) =>
      if !Packable(p, createdAt, size) then None
      else match Appended(seal, size, s.progress, LineLength(p.line))
        case None => None
        case Some(g) =>
          var at := p.line.receivedAt;
          Some(Scan(g, s.bindings + [p.binding], if at > s.latest then at else s.latest))
  }

  function ScanOf(read: RecordReader, from: nat, i: nat, createdAt: nat, size: nat, seal: Sealer): Option<Scan> {
    if i == 0 then Some(FirstScan())
    else match ScanOf(read, from, i - 1, createdAt, size, seal)
      case None => None
      case Some(s) => NextScan(read, from + i - 1, createdAt, size, seal, s)
  }

  /** A record that is taken extends what was scanned; one that is not ends the export. */
  lemma ScanStep(read: RecordReader, from: nat, i: nat, count: nat, createdAt: nat, size: nat, seal: Sealer, s: Scan)
    requires i < count && Scanned(read, from, i, createdAt, size, seal, s)
    ensures var next := NextScan(read, from + i, createdAt, size, seal, s);
      && (next.Some? ==> Scanned(read, from, i + 1, createdAt, size, seal, next.value))
      && (next.None? ==> ExportOf(read, from, count, createdAt, size, seal) == None)
  {
    var ps :| ReadSoFar(read, from, i, ps, createdAt, size, s.bindings, s.latest) && ProgressOk(ps, size, seal, s.progress);
    var p := read(from + i);
    if p.Some? && Packable(p.value, createdAt, size) {
      AppendLine(ps, p.value, size, seal, s.progress);
      ReadOneMore(read, from, i, ps, createdAt, size, s.bindings, s.latest, p.value);
    }
    if NextScan(read, from + i, createdAt, size, seal, s).None? {
      ExportStops(read, from, i, count, createdAt, size, seal, ps);
    }
  }

  /** The scan up to record i, or the reason why there is no export. */
  ghost predicate ScanGood(o: Option<Scan>, read: RecordReader, from: nat, i: nat, count: nat, createdAt: nat, size: nat, seal: Sealer) {
    if o.Some? then Scanned(read, from, i, createdAt, size, seal, o.value)
    else ExportOf(read, from, count, createdAt, size, seal) == None
  }

  lemma {:induction false} ScanIs(read: RecordReader, from: nat, i: nat, count: nat, createdAt: nat, size: nat, seal: Sealer)
    requires i <= count
    ensures ScanGood(ScanOf(read, from, i, createdAt, size, seal), read, from, i, count, createdAt, size, seal)
  {
    if i == 0 {
      ScanStarts(read, from, createdAt, size, seal);
    } else {
      ScanIs(read, from, i - 1, count, createdAt, size, seal);
      ScanGoesOn(read, from, i - 1, i, count, createdAt, size, seal, ScanOf(read, from, i - 1, createdAt, size, seal));
    }
  }

  lemma ScanGoesOn(read: RecordReader, from: nat, i: nat, j: nat, count: nat, createdAt: nat, size: nat, seal: Sealer, o: Option<Scan>)
    requires j == i + 1 <= count && o == ScanOf(read, from, i, createdAt, size, seal)
    requires ScanGood(o, read, from, i, count, createdAt, size, seal)
    ensures ScanGood(ScanOf(read, from, j, createdAt, size, seal), read, from, j, count, createdAt, size, seal)
  {
    hide Scanned, ExportOf;
    if o.Some? { ScanStep(read, from, i, count, createdAt, size, seal, o.value); }
  }

  lemma {:induction false} ScanStops(read: RecordReader, from: nat, i: nat, j: nat, createdAt: nat, size: nat, seal: Sealer)
    requires i <= j && ScanOf(read, from, i, createdAt, size, seal) == None
    ensures ScanOf(read, from, j, createdAt, size, seal) == None
    decreases j
  {
    if i < j { ScanStops(read, from, i, j - 1, createdAt, size, seal); }
  }

  lemma ScanEnds(read: RecordReader, from: nat, count: nat, createdAt: nat, size: nat, seal: Sealer, s: Scan, parts: Option<seq<Part>>)
    requires Scanned(read, from, count, createdAt, size, seal, s)
    requires var g := s.progress;
      parts == if g.raw > 0 then WithFlush(seal, g.parts, g.raw, g.rawOffset, g.ordinal) else Some(g.parts)
    ensures ExportOf(read, from, count, createdAt, size, seal) ==
            if parts == None then None else Some(Export(parts.value, s.bindings, s.latest))
  {
    var ps :| ReadSoFar(read, from, count, ps, createdAt, size, s.bindings, s.latest) && ProgressOk(ps, size, seal, s.progress);
    ExportEnds(read, from, count, createdAt, size, seal, ps, s.bindings, s.latest, s.progress, parts);
  }

  lemma ScanStarts(read: RecordReader, from: nat, createdAt: nat, size: nat, seal: Sealer)
    ensures Scanned(read, from, 0, createdAt, size, seal, FirstScan())
  {
    LoopStarts(size, seal);
    assert ReadSoFar(read, from, 0, [], createdAt, size, [], 0);
    assert ProgressOk([], size, seal, Progress([], 0, 0, 1));
  }

  /** The record loop of `Capture`. */
  method ScanRecords(read: RecordReader, from: nat, count: nat, createdAt: nat, size: nat, seal: Sealer) returns (r: Option<Scan>)
    ensures r == ScanOf(read, from, count, createdAt, size, seal)
  {
    var s := FirstScan();
    var i := 0;
    while i < count
      invariant 0 <= i <= count && ScanOf(read, from, i, createdAt, size, seal) == Some(s)
    {
      var next := NextScan(read, from + i, createdAt, size, seal, s);
      if next == None {
        ScanStops(read, from, i + 1, count, createdAt, size, seal);
        return None;
      }
      s := next.value;
      i := i + 1;
    }
    r := Some(s);
  }

  method PackRecords(read: RecordReader, from: nat, count: nat, createdAt: nat, size: nat, seal: Sealer) returns (r: Option<Export>)
    ensures r == ExportOf(read, from, count, createdAt, size, seal)
  {
    var s := ScanRecords(read, from, count, createdAt, size, seal);
    ScanIs(read, from, count, count, createdAt, size, seal);
    if s == None { return None; }
    var g := s.value.progress;
    var parts := if g.raw > 0 then WithFlush(seal, g.parts, g.raw, g.rawOffset, g.ordinal) else Some(g.parts);
    ScanEnds(read, from, count, createdAt, size, seal, s.value, parts);
    r := if parts == None then None else Some(Export(parts.value, s.value.bindings, s.value.latest));
  }

  // ---- the whole capture ---------------------------------------------------------------------------------------

  /** What the environment contributes: the moment, the size and digest of the snapshot file,
      the bytes used by the events bucket, and the sealing of parts. */
  datatype Conditions = Conditions(createdAt: nat, snapshotBytes: nat, digest: string, leafInUse: nat, pageBytes: nat, seal: Sealer)

  function RecordCount(db: Database): nat {
    if RangeStart(db) > 0 then Head(db) - RangeStart(db) + 1 else 0
  }

  function RawBound(leafInUse: nat, count: nat): nat {
    if count > 0 then leafInUse + count * RECEIPT_ALLOWANCE else 0
  }

  /** The checks before anything is written; the probe of free space is left out. */
  predicate Preflight(snapshotBytes: nat, count: nat, rawBound: nat, size: nat)
    requires size > 0
  {
    && count <= MAX_SET_BYTES / RECEIPT_ALLOWANCE
    && snapshotBytes <= MAX_SET_BYTES && rawBound <= MAX_SET_BYTES - snapshotBytes
    && CeilDiv(snapshotBytes, size) + RawParts(rawBound, count, size) <= MAX_PARTS
  }

  function ManifestOf(cfg: Config, db: Database, id: string, env: Conditions, parts: seq<Part>, e: Export): Manifest {
    Manifest(FORMAT_VERSION, cfg.environment, cfg.sources, cfg.stack, StoreId(db), id, env.createdAt, Head(db),
             RangeStart(db), if RangeStart(db) > 0 then Head(db) else 0, RecordCount(db), e.maxReceivedAt, e.bindings,
             env.snapshotBytes, env.digest, cfg.encryptionKeyId, cfg.recipients, parts + e.parts)
  }

  /** The manifest `Capture` seals for a snapshot; None when it gives up. */
  function CaptureOf(cfg: Config, db: Database, id: string, env: Conditions): Option<Manifest>
    requires cfg.partBytes > 0
  {
    if Ready(cfg, db) != None || !Preflight(env.snapshotBytes, RecordCount(db), RawBound(env.leafInUse, RecordCount(db)), cfg.partBytes)
    then None
    else match PartsFrom(SnapshotPart, Chunks(env.snapshotBytes, cfg.partBytes), env.seal)
      case None => None
      case Some(parts) =>
        match ExportOf(RecordsOf(cfg, db), RangeStart(db), RecordCount(db), env.createdAt, cfg.partBytes, env.seal)
        case None => None
        case Some(e) =>
          var m := ManifestOf(cfg, db, id, env, parts, e);
          if ValidManifest(m) then Some(m) else None
  }

  method CaptureSet(cfg: Config, db: Database, id: string, env: Conditions) returns (m: Option<Manifest>)
    requires cfg.partBytes > 0
    ensures m == CaptureOf(cfg, db, id, env)
  {
    if Ready(cfg, db) != None { return None; }
    if !Preflight(env.snapshotBytes, RecordCount(db), RawBound(env.leafInUse, RecordCount(db)), cfg.partBytes) { return None; }
    var parts := SealSnapshot(env.snapshotBytes, cfg.partBytes, env.seal);
    if parts == None { return None; }
    var e := PackRecords(RecordsOf(cfg, db), RangeStart(db), RecordCount(db), env.createdAt, cfg.partBytes, env.seal);
    if e == None { return None; }
    var made := ManifestOf(cfg, db, id, env, parts.value, e.value);
    var valid := Validate(made);
    m := if valid then Some(made) else None;
  }
}
