/** Every manifest that `Capture` would seal passes `Manifest.Validate`, and its parts never
    outnumber the estimate made before packing. */
module CaptureValidity {
  import opened Types
  import opened Store
  import opened Archive
  import opened Invariant
  import opened Lifecycle
  import opened Backup
  import opened Packing
  import opened Capturer

  /** What `ConfigureLifecycle` has checked. */
  predicate ConfigOk(cfg: Config) {
    && SafeId(cfg.environment) && SafeId(cfg.stack) && SafeId(cfg.encryptionKeyId)
    && 1 <= |cfg.sources| <= 8 && (forall i :: 0 <= i < |cfg.sources| ==> SafeId(cfg.sources[i]))
    && (forall i, j :: 0 <= i < j < |cfg.sources| ==> cfg.sources[i] != cfg.sources[j])
    && MIB <= cfg.partBytes <= DEFAULT_PART_BYTES
    && 1 <= |cfg.recipients| <= 16 && (forall v <- cfg.recipients :: LowerHex(v, 32))
  }

  // ---- the shape of sealed parts ---------------------------------------------------------------------

  predicate Shaped(p: Part, kind: PartKind, ordinal: nat, offset: nat, plain: nat) {
    && p.kind == kind && p.name == Generated(kind, ordinal) && p.ordinal == ordinal && p.offset == offset
    && p.plainBytes == plain && 1 <= p.cipherBytes <= MAX_CIPHER_PART_BYTES
  }

  predicate ShapedAt(parts: seq<Part>, kind: PartKind, sizes: seq<nat>, i: nat)
    requires i < |parts| == |sizes|
  {
    Shaped(parts[i], kind, i + 1, Sum(sizes[..i]), sizes[i])
  }

  ghost predicate AllShaped(parts: seq<Part>, kind: PartKind, sizes: seq<nat>) {
    |parts| == |sizes| && forall i :: 0 <= i < |parts| ==> ShapedAt(parts, kind, sizes, i)
  }

  lemma ShapedSnoc(parts: seq<Part>, kind: PartKind, sizes: seq<nat>, p: Part, size: nat)
    requires AllShaped(parts, kind, sizes) && Shaped(p, kind, |sizes| + 1, Sum(sizes), size)
    ensures AllShaped(parts + [p], kind, sizes + [size])
  {
    var ps, ss := parts + [p], sizes + [size];
    forall i | 0 <= i < |ps| ensures ShapedAt(ps, kind, ss, i) {
      assert ss[..i] == sizes[..i];
      if i < |parts| { assert ShapedAt(parts, kind, sizes, i); } else { assert sizes[..i] == sizes; }
    }
  }

  lemma {:induction false} PartsShaped(kind: PartKind, sizes: seq<nat>, seal: Sealer)
    requires PartsFrom(kind, sizes, seal).Some? && Bounded(seal)
    ensures AllShaped(PartsFrom(kind, sizes, seal).value, kind, sizes)
  {
    if sizes != [] {
      var rest, size := sizes[..|sizes| - 1], sizes[|sizes| - 1];
      PartsShaped(kind, rest, seal);
      assert sizes == rest + [size];
      var c := seal(kind, |sizes|, Sum(rest), size).value;
      ShapedSnoc(PartsFrom(kind, rest, seal).value, kind, rest, PartOf(kind, |sizes|, Sum(rest), size, c), size);
    }
  }

  lemma ShapedPrefix(parts: seq<Part>, kind: PartKind, sizes: seq<nat>, k: nat)
    requires AllShaped(parts, kind, sizes) && k <= |parts|
    ensures AllShaped(parts[..k], kind, sizes[..k])
  {
    forall i | 0 <= i < k ensures ShapedAt(parts[..k], kind, sizes[..k], i) {
      assert ShapedAt(parts, kind, sizes, i) && sizes[..k][..i] == sizes[..i];
    }
  }

  lemma {:induction false} ShapedTotals(parts: seq<Part>, kind: PartKind, sizes: seq<nat>, other: PartKind)
    requires AllShaped(parts, kind, sizes) && other != kind
    ensures KindCount(parts, kind) == |parts| && KindBytes(parts, kind) == TotalBytes(parts) == Sum(sizes)
    ensures KindCount(parts, other) == 0 && KindBytes(parts, other) == 0
    decreases |parts|
  {
    if parts != [] {
      var k := |parts| - 1;
      ShapedPrefix(parts, kind, sizes, k);
      ShapedTotals(parts[..k], kind, sizes[..k], other);
      assert ShapedAt(parts, kind, sizes, k);
    }
  }

  lemma {:induction false} TotalsAppend(a: seq<Part>, b: seq<Part>, kind: PartKind)
    ensures KindCount(a + b, kind) == KindCount(a, kind) + KindCount(b, kind)
    ensures KindBytes(a + b, kind) == KindBytes(a, kind) + KindBytes(b, kind)
    ensures Archive.TotalBytes(a + b) == Archive.TotalBytes(a) + Archive.TotalBytes(b)
    decreases |b|
  {
    if b == [] {
      assert a + b == a;
    } else {
      assert (a + b)[..|a + b| - 1] == a + b[..|b| - 1];
      TotalsAppend(a, b[..|b| - 1], kind);
    }
  }

  predicate SizesFit(sizes: seq<nat>) { forall i :: 0 <= i < |sizes| ==> 1 <= sizes[i] <= DEFAULT_PART_BYTES }

  lemma FirstPlaced(parts: seq<Part>, sizes: seq<nat>, i: nat)
    requires AllShaped(parts, SnapshotPart, sizes) && SizesFit(sizes) && i < |parts|
    ensures Placed(parts, i)
  {
    ShapedPrefix(parts, SnapshotPart, sizes, i);
    ShapedTotals(parts[..i], SnapshotPart, sizes[..i], EventsPart);
    assert ShapedAt(parts, SnapshotPart, sizes, i);
  }

  lemma SecondPlaced(a: seq<Part>, sa: seq<nat>, b: seq<Part>, sb: seq<nat>, i: nat)
    requires AllShaped(a, SnapshotPart, sa) && AllShaped(b, EventsPart, sb) && SizesFit(sb) && i < |b|
    ensures Placed(a + b, |a| + i)
  {
    var parts := a + b;
    assert parts[..|a| + i] == a + b[..i];
    ShapedPrefix(b, EventsPart, sb, i);
    ShapedTotals(a, SnapshotPart, sa, EventsPart);
    ShapedTotals(b[..i], EventsPart, sb[..i], SnapshotPart);
    TotalsAppend(a, b[..i], EventsPart);
    assert ShapedAt(b, EventsPart, sb, i);
  }

  lemma DistinctAll(a: seq<Part>, sa: seq<nat>, b: seq<Part>, sb: seq<nat>)
    requires AllShaped(a, SnapshotPart, sa) && AllShaped(b, EventsPart, sb)
    ensures DistinctNames(a + b)
  {
    var parts := a + b;
    forall i, j | 0 <= i < j < |parts| ensures parts[i].name != parts[j].name {
      if i < |a| { assert ShapedAt(a, SnapshotPart, sa, i); } else { assert ShapedAt(b, EventsPart, sb, i - |a|); }
      if j < |a| { assert ShapedAt(a, SnapshotPart, sa, j); } else { assert ShapedAt(b, EventsPart, sb, j - |a|); }
    }
  }

  lemma AllPlaced(a: seq<Part>, sa: seq<nat>, b: seq<Part>, sb: seq<nat>, i: nat)
    requires AllShaped(a, SnapshotPart, sa) && AllShaped(b, EventsPart, sb) && SizesFit(sa) && SizesFit(sb) && i < |a + b|
    ensures Placed(a + b, i)
  {
    if i < |a| {
      FirstPlaced(a, sa, i);
      PlacedIn(a, b, i);
    } else {
      SecondPlaced(a, sa, b, sb, i - |a|);
    }
  }

  lemma SealedTotals(a: seq<Part>, sa: seq<nat>, b: seq<Part>, sb: seq<nat>)
    requires AllShaped(a, SnapshotPart, sa) && AllShaped(b, EventsPart, sb)
    ensures KindBytes(a + b, SnapshotPart) == Sum(sa) && KindCount(a + b, EventsPart) == |b|
    ensures Archive.TotalBytes(a + b) == Sum(sa) + Sum(sb)
  {
    ShapedTotals(a, SnapshotPart, sa, EventsPart);
    ShapedTotals(b, EventsPart, sb, SnapshotPart);
    TotalsAppend(a, b, SnapshotPart);
    TotalsAppend(a, b, EventsPart);
  }

  /** Snapshot parts followed by export parts are well placed. */
  lemma SealedPlaced(a: seq<Part>, sa: seq<nat>, b: seq<Part>, sb: seq<nat>, parts: seq<Part>)
    requires AllShaped(a, SnapshotPart, sa) && AllShaped(b, EventsPart, sb) && SizesFit(sa) && SizesFit(sb)
    requires Sum(sa) + Sum(sb) <= MAX_SET_BYTES && parts == a + b
    ensures WellPlaced(parts)
  {
    SealedTotals(a, sa, b, sb);
    DistinctAll(a, sa, b, sb);
    forall i | 0 <= i < |parts| ensures Placed(parts, i) { AllPlaced(a, sa, b, sb, i); }
  }

  lemma PlacedIn(a: seq<Part>, b: seq<Part>, i: nat)
    requires i < |a| && Placed(a, i)
    ensures Placed(a + b, i)
  {
    assert (a + b)[..i] == a[..i];
  }

  // ---- the export ----------------------------------------------------------------------------------------

  /** The bytes of the bodies in a range of the events bucket. */
  function HotBytes(events: Rowset, from: nat, k: nat): nat {
    if k == 0 then 0 else HotBytes(events, from, k - 1) + BodyLength(events, Seq(from + k - 1))
  }

  predicate ReadOk(cfg: Config, db: Database, n: nat, p: Exported) {
    && p.line.sequence == n && Decodes(p.line.record, n) && p.line.receivedAt > 0
    && BodyLength(Rows(db, Events), Seq(n)) == p.line.record.Length()
  }

  lemma RecordReads(cfg: Config, db: Database, n: nat)
    requires ReadRecord(cfg, db, n).Some?
    ensures ReadOk(cfg, db, n, ReadRecord(cfg, db, n).value)
  {}

  lemma LineFits(cfg: Config, db: Database, n: nat, p: Exported)
    requires ReadOk(cfg, db, n, p)
    ensures 1 <= LineLength(p.line) <= LINE_LIMIT
  {}

  /** What the capture relies on about every record it reads. */
  ghost predicate Reads(read: RecordReader, events: Rowset) {
    forall n: nat :: read(n).Some? ==>
      && BodyLength(events, Seq(n)) == read(n).value.line.record.Length()
      && 1 <= LineLength(read(n).value.line) <= LINE_LIMIT && read(n).value.line.receivedAt > 0
  }

  lemma CaptureReads(cfg: Config, db: Database)
    ensures Reads(RecordsOf(cfg, db), Rows(db, Events))
  {
    var read := RecordsOf(cfg, db);
    forall n: nat | read(n).Some?
      ensures BodyLength(Rows(db, Events), Seq(n)) == read(n).value.line.record.Length()
      ensures 1 <= LineLength(read(n).value.line) <= LINE_LIMIT && read(n).value.line.receivedAt > 0
    {
      RecordReads(cfg, db, n);
      LineFits(cfg, db, n, read(n).value);
    }
  }

  lemma {:induction false} LinesBytes(read: RecordReader, events: Rowset, from: nat, k: nat)
    requires ReadRange(read, from, k).Some? && Reads(read, events)
    ensures Sum(Lines(ReadRange(read, from, k).value)) == HotBytes(events, from, k) + k * LINE_OVERHEAD
  {
    if k > 0 {
      LinesBytes(read, events, from, k - 1);
      var rest, p := ReadRange(read, from, k - 1).value, read(from + k - 1).value;
      LinesSnoc(rest, p);
      SumSnoc(Lines(rest), LineLength(p.line));
      assert k * LINE_OVERHEAD == (k - 1) * LINE_OVERHEAD + LINE_OVERHEAD;
    } else {
      assert Lines([]) == [];
    }
  }

  lemma {:induction false} LatestBounds(ps: seq<Exported>, createdAt: nat)
    requires forall i :: 0 <= i < |ps| ==> 0 < ps[i].line.receivedAt <= createdAt
    ensures Latest(ps) <= createdAt && (ps != [] ==> Latest(ps) > 0)
  {
    if ps != [] { LatestBounds(ps[..|ps| - 1], createdAt); }
  }

  lemma GroupSize(groups: seq<seq<nat>>, size: nat, i: nat)
    requires Greedy(groups, size) && Fit(Join(groups), size) && i < |groups|
    ensures 1 <= Sum(groups[i]) <= size
  {
    forall x | x in groups[i] ensures x >= 1 {
      GroupIn(groups, i, x);
      FitMember(Join(groups), size, x);
    }
    LastLine(groups[i]);
  }

  lemma GroupSizes(groups: seq<seq<nat>>, size: nat)
    requires Greedy(groups, size) && Fit(Join(groups), size) && size <= DEFAULT_PART_BYTES
    ensures SizesFit(Sums(groups)) && (groups == [] <==> Join(groups) == [])
  {
    forall i | 0 <= i < |groups| ensures 1 <= Sum(groups[i]) <= size { GroupSize(groups, size, i); }
    GroupsHold(groups);
  }

  lemma {:induction false} SumOfSums(groups: seq<seq<nat>>)
    ensures Sum(Sums(groups)) == Sum(Join(groups))
  {
    if groups != [] {
      var rest, g := groups[..|groups| - 1], groups[|groups| - 1];
      SumOfSums(rest);
      assert groups == rest + [g];
      SumsSnoc(rest, g);
      SumSnoc(Sums(rest), Sum(g));
      SumAppend(Join(rest), g);
    }
  }

  lemma RangeFits(read: RecordReader, events: Rowset, from: nat, count: nat, createdAt: nat, size: nat, ps: seq<Exported>)
    requires ReadRange(read, from, count) == Some(ps) && Reads(read, events) && AllPackable(ps, createdAt, size)
    ensures |ps| == count && Fit(Lines(ps), size) && Fit(Lines(ps), LINE_LIMIT)
    ensures Latest(ps) <= createdAt && (count > 0 <==> Latest(ps) > 0)
  {
    ReadAt(read, from, count);
    forall i | 0 <= i < count
      ensures 1 <= LineLength(ps[i].line) <= LINE_LIMIT && LineLength(ps[i].line) <= size && 0 < ps[i].line.receivedAt <= createdAt
    {
      assert Packable(ps[i], createdAt, size) && read(from + i) == Some(ps[i]);
    }
    LatestBounds(ps, createdAt);
  }

  /** What an accepted export looks like. */
  ghost predicate ExportFits(e: Export, lines: seq<nat>, count: nat, createdAt: nat, size: nat) {
    && |lines| == count && Fit(lines, size) && Fit(lines, LINE_LIMIT)
    && AllShaped(e.parts, EventsPart, Sums(Grouped(lines, size)))
    && e.maxReceivedAt <= createdAt && (count > 0 <==> e.maxReceivedAt > 0)
  }

  lemma ExportShape(read: RecordReader, events: Rowset, from: nat, count: nat, createdAt: nat, size: nat, seal: Sealer)
    returns (ps: seq<Exported>)
    requires ExportOf(read, from, count, createdAt, size, seal).Some? && Bounded(seal) && Reads(read, events)
    ensures ReadRange(read, from, count) == Some(ps)
    ensures ExportFits(ExportOf(read, from, count, createdAt, size, seal).value, Lines(ps), count, createdAt, size)
    ensures ExportOf(read, from, count, createdAt, size, seal).value.bindings == Bindings(ps)
    ensures ExportOf(read, from, count, createdAt, size, seal).value.maxReceivedAt == Latest(ps)
  {
    ps := ReadRange(read, from, count).value;
    RangeFits(read, events, from, count, createdAt, size, ps);
    PartsShaped(EventsPart, Sums(Grouped(Lines(ps), size)), seal);
  }

  // ---- the manifest -----------------------------------------------------------------------------------------

  /** Sizes, counts and totals of the parts of a capture. */
  lemma PartsFit(a: seq<Part>, n: nat, e: Export, lines: seq<nat>, count: nat, createdAt: nat, size: nat, rawBound: nat)
    requires 0 < size <= DEFAULT_PART_BYTES && AllShaped(a, SnapshotPart, Chunks(n, size)) && ExportFits(e, lines, count, createdAt, size)
    requires Preflight(n, count, rawBound, size)
    requires |Grouped(lines, size)| <= RawParts(rawBound, count, size) && n + Sum(lines) <= MAX_SET_BYTES
    ensures WellPlaced(a + e.parts) && |a + e.parts| <= MAX_PARTS
    ensures KindBytes(a + e.parts, SnapshotPart) == n && (KindCount(a + e.parts, EventsPart) > 0 <==> count > 0)
  {
    hide WellPlaced;
    var groups := Grouped(lines, size);
    ChunksCut(n, size);
    GroupedIsGreedy(lines, size);
    GroupSizes(groups, size);
    SumOfSums(groups);
    ChunkSizes(n, size);
    SealedTotals(a, Chunks(n, size), e.parts, Sums(groups));
    SealedPlaced(a, Chunks(n, size), e.parts, Sums(groups), a + e.parts);
  }

  lemma ChunkSizes(n: nat, size: nat)
    requires 0 < size <= DEFAULT_PART_BYTES
    ensures SizesFit(Chunks(n, size))
  {
    ChunksCut(n, size);
    forall i | 0 <= i < |Chunks(n, size)| ensures 1 <= Chunks(n, size)[i] <= size { assert Chunks(n, size)[i] in Chunks(n, size); }
  }

  // ---- what bbolt reports of the events bucket --------------------------------------------------------------

  /** A bucket of at most a quarter page may be stored inside its parent: then no leaf bytes
      are reported for it. The file is made of whole pages. */
  predicate StoredInline(env: Conditions, hot: nat) {
    && 0 < env.pageBytes <= MIB && MAX_SET_BYTES % env.pageBytes == 0 && env.snapshotBytes % env.pageBytes == 0
    && 4 * hot <= env.pageBytes
  }

  /** The reported leaf bytes cover the bodies, or the bucket is stored inline. */
  predicate Reported(env: Conditions, hot: nat) { hot <= env.leafInUse || StoredInline(env, hot) }

  lemma {:induction false} LinesAtLeast(ps: seq<Exported>)
    ensures Sum(Lines(ps)) >= |ps| * (ENVELOPE_BYTES + LINE_OVERHEAD)
  {
    if ps != [] {
      var rest, last := ps[..|ps| - 1], ps[|ps| - 1];
      LinesAtLeast(rest);
      assert ps == rest + [last];
      LinesSnoc(rest, last);
      SumSnoc(Lines(rest), LineLength(last.line));
    }
  }

  lemma WholePages(total: nat, n: nat, page: nat)
    requires 0 < page && total % page == 0 && n % page == 0 && n < total
    ensures n + page <= total
  {
    var a, b := total / page, n / page;
    assert total == a * page && n == b * page;
    assert b < a by {
      if a <= b { MulMonotone(a, b, page); }
    }
    MulMonotone(b + 1, a, page);
  }

  /** Few lines make one part. */
  lemma OneGroup(lines: seq<nat>, size: nat)
    requires Fit(lines, size) && Sum(lines) <= size
    ensures |Grouped(lines, size)| <= 1
  {
    GroupedIsGreedy(lines, size);
    var groups := Grouped(lines, size);
    if |groups| >= 2 {
      assert FullBefore(groups, size, 1);
      TwoGroups(groups);
      FirstOfGroup(groups[1]);
    }
  }

  lemma {:induction false} TwoGroups(groups: seq<seq<nat>>)
    requires |groups| >= 2
    ensures Sum(groups[0]) + Sum(groups[1]) <= Sum(Join(groups))
  {
    var rest, last := groups[..|groups| - 1], groups[|groups| - 1];
    SumAppend(Join(rest), last);
    if |groups| > 2 {
      TwoGroups(rest);
    } else {
      assert rest == [] + [groups[0]];
      JoinSnoc([], groups[0]);
      assert [] + groups[0] == groups[0] && last == groups[1];
    }
  }

  lemma FirstOfGroup(g: seq<nat>)
    requires g != []
    ensures g[0] <= Sum(g)
  {
    assert g == g[..1] + g[1..];
    SumAppend(g[..1], g[1..]);
    assert Sum(g[..1]) == g[0];
  }

  lemma InlineFits(ps: seq<Exported>, env: Conditions, hot: nat, size: nat)
    requires StoredInline(env, hot) && Sum(Lines(ps)) == hot + |ps| * LINE_OVERHEAD
    requires MIB <= size && Fit(Lines(ps), size) && env.snapshotBytes <= MAX_SET_BYTES
    requires RawBound(env.leafInUse, |ps|) <= MAX_SET_BYTES - env.snapshotBytes
    ensures |Grouped(Lines(ps), size)| <= RawParts(RawBound(env.leafInUse, |ps|), |ps|, size)
    ensures env.snapshotBytes + Sum(Lines(ps)) <= MAX_SET_BYTES
  {
    hide Fit, Grouped, Sum, Lines, CeilDiv;
    LinesAtLeast(ps);
    if ps == [] {
      NoGroups(size);
    } else {
      assert |ps| * (ENVELOPE_BYTES + LINE_OVERHEAD) == |ps| * ENVELOPE_BYTES + |ps| * LINE_OVERHEAD;
      assert 4 * Sum(Lines(ps)) <= 3 * env.pageBytes;
      OneGroup(Lines(ps), size);
      WholePages(MAX_SET_BYTES, env.snapshotBytes, env.pageBytes);
      if size > LINE_LIMIT { SomeParts(RawBound(env.leafInUse, |ps|), size - LINE_LIMIT); }
    }
  }

  lemma NoGroups(size: nat)
    ensures Grouped(Lines([]), size) == [] && Sum(Lines([])) == 0
  {}

  lemma SomeParts(n: nat, q: nat)
    requires n > 0 && q > 0
    ensures CeilDiv(n, q) >= 1
  {}

  /** The estimate covers the lines, in number of parts and in bytes. */
  lemma LinesWithin(read: RecordReader, events: Rowset, from: nat, count: nat, env: Conditions, size: nat, ps: seq<Exported>)
    requires ReadRange(read, from, count) == Some(ps) && |ps| == count && Reads(read, events)
    requires Reported(env, HotBytes(events, from, count)) && MIB <= size
    requires Fit(Lines(ps), LINE_LIMIT) && Fit(Lines(ps), size)
    requires Preflight(env.snapshotBytes, count, RawBound(env.leafInUse, count), size)
    ensures |Grouped(Lines(ps), size)| <= RawParts(RawBound(env.leafInUse, count), count, size)
    ensures env.snapshotBytes + Sum(Lines(ps)) <= MAX_SET_BYTES
  {
    hide Fit, Grouped, Sum, RawParts, StoredInline;
    LinesBytes(read, events, from, count);
    var hot := HotBytes(events, from, count);
    if hot <= env.leafInUse {
      assert count * LINE_OVERHEAD <= count * RECEIPT_ALLOWANCE;
      PartsWithinEstimate(Lines(ps), RawBound(env.leafInUse, count), size);
    } else {
      InlineFits(ps, env, hot, size);
    }
  }

  /** When the estimate admits a capture and every record and seal succeeds, the manifest is
      valid; so the last check before the seal never fails, and the capture never produces
      more parts than it estimated, nor more than a manifest may list. */
  lemma CaptureValid(cfg: Config, db: Database, id: string, env: Conditions)
    requires ConfigOk(cfg) && SafeId(id) && LowerHex(StoreId(db), 16) && Bounded(env.seal)
    requires env.createdAt > 0 && env.snapshotBytes > 0 && Ready(cfg, db) == None
    requires Reported(env, HotBytes(Rows(db, Events), RangeStart(db), RecordCount(db)))
    requires Preflight(env.snapshotBytes, RecordCount(db), RawBound(env.leafInUse, RecordCount(db)), cfg.partBytes)
    requires PartsFrom(SnapshotPart, Chunks(env.snapshotBytes, cfg.partBytes), env.seal).Some?
    requires ExportOf(RecordsOf(cfg, db), RangeStart(db), RecordCount(db), env.createdAt, cfg.partBytes, env.seal).Some?
    ensures CaptureOf(cfg, db, id, env).Some?
    ensures var m := CaptureOf(cfg, db, id, env).value;
      ValidManifest(m) && ScopeOf(cfg, db, id, m) && |m.parts| <= MAX_PARTS
  {
    hide ValidManifest, WellPlaced, Reported;
    var a := PartsFrom(SnapshotPart, Chunks(env.snapshotBytes, cfg.partBytes), env.seal).value;
    var read, from, count := RecordsOf(cfg, db), RangeStart(db), RecordCount(db);
    var e := ExportOf(read, from, count, env.createdAt, cfg.partBytes, env.seal).value;
    PartsShaped(SnapshotPart, Chunks(env.snapshotBytes, cfg.partBytes), env.seal);
    CaptureReads(cfg, db);
    var ps := ExportShape(read, Rows(db, Events), from, count, env.createdAt, cfg.partBytes, env.seal);
    LinesWithin(read, Rows(db, Events), from, count, env, cfg.partBytes, ps);
    PartsFit(a, env.snapshotBytes, e, Lines(ps), count, env.createdAt, cfg.partBytes, RawBound(env.leafInUse, count));
    ManifestFits(cfg, db, id, env, a, e);
  }

  lemma ManifestFits(cfg: Config, db: Database, id: string, env: Conditions, a: seq<Part>, e: Export)
    requires ConfigOk(cfg) && SafeId(id) && LowerHex(StoreId(db), 16) && env.createdAt > 0
    requires 0 < env.snapshotBytes <= MAX_SET_BYTES
    requires WellPlaced(a + e.parts) && |a + e.parts| <= MAX_PARTS && KindBytes(a + e.parts, SnapshotPart) == env.snapshotBytes
    requires KindCount(a + e.parts, EventsPart) > 0 <==> RecordCount(db) > 0
    requires e.maxReceivedAt <= env.createdAt && (RecordCount(db) > 0 <==> e.maxReceivedAt > 0)
    ensures ValidManifest(ManifestOf(cfg, db, id, env, a, e)) && ScopeOf(cfg, db, id, ManifestOf(cfg, db, id, env, a, e))
  {}
}
