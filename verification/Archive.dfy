/** Archive manifests and the signed completion that binds one. */
module Archive {
  import opened Types

  const FORMAT_VERSION := 1
  const DEFAULT_PART_BYTES: nat := 256 * MIB
  const MAX_CIPHER_PART_BYTES: nat := 272 * MIB
  const MAX_SET_BYTES: nat := 65536 * MIB
  const MAX_PARTS: nat := 1024

  // ---- flat checks ---------------------------------------------------------------------------

  predicate SafeChar(c: char) {
    'a' <= c <= 'z' || '0' <= c <= '9' || c == '-' || c == '_' || c == '.'
  }

  predicate SafeId(v: string) {
    0 < |v| <= 128 && (forall c <- v :: SafeChar(c)) && v != "." && v != ".."
  }

  predicate LowerHex(v: string, bytes: nat) {
    |v| == 2 * bytes && forall c <- v :: '0' <= c <= '9' || 'a' <= c <= 'f'
  }

  /** A generated name is always a safe base name. */
  predicate SafeName(n: PartName) { n.Foreign? ==> SafeId(n.text) }

  predicate HeaderOk(m: Manifest) {
    && 1 <= |m.sources| <= 8
    && (forall i :: 0 <= i < |m.sources| ==> SafeId(m.sources[i]))
    && (forall i, j :: 0 <= i < j < |m.sources| ==> m.sources[i] != m.sources[j])
    && m.version == FORMAT_VERSION && SafeId(m.environment) && SafeId(m.stack) && SafeId(m.setId)
    && SafeId(m.keyId) && LowerHex(m.storeId, 16)
    && 1 <= m.snapshotBytes <= MAX_SET_BYTES && m.createdAt != 0
    && 1 <= |m.parts| <= MAX_PARTS
    && 1 <= |m.recipients| <= 16
    && (forall v <- m.recipients :: LowerHex(v, 32))
  }

  predicate RangeOk(m: Manifest) {
    if m.recordCount == 0 then m.from == 0 && m.through == 0 && m.maxReceivedAt == 0
    else
      && 0 < m.from <= m.through <= m.highWater
      && m.through - m.from + 1 == m.recordCount
      && 0 < m.maxReceivedAt <= m.createdAt
  }

  // ---- parts: what the loop checks ---------------------------------------------------------------

  function TotalBytes(parts: seq<Part>): int {
    if parts == [] then 0 else TotalBytes(parts[..|parts| - 1]) + parts[|parts| - 1].plainBytes
  }

  function KindBytes(parts: seq<Part>, kind: PartKind): int {
    if parts == [] then 0
    else
      var p := parts[|parts| - 1];
      KindBytes(parts[..|parts| - 1], kind) + if p.kind == kind then p.plainBytes else 0
  }

  function KindCount(parts: seq<Part>, kind: PartKind): nat {
    if parts == [] then 0
    else KindCount(parts[..|parts| - 1], kind) + if parts[|parts| - 1].kind == kind then 1 else 0
  }

  predicate Continues(p: Part, ordinals: int, offset: int) {
    && p.ordinal == ordinals + 1 && p.offset == offset
    && 1 <= p.plainBytes <= DEFAULT_PART_BYTES
    && 1 <= p.cipherBytes <= MAX_CIPHER_PART_BYTES
  }

  /** Part `i` continues its kind: next ordinal, next byte. */
  predicate Placed(parts: seq<Part>, i: nat) requires i < |parts| {
    var p := parts[i];
    && (p.kind == SnapshotPart || p.kind == EventsPart)
    && SafeName(p.name)
    && Continues(p, KindCount(parts[..i], p.kind), KindBytes(parts[..i], p.kind))
  }

  predicate DistinctNames(parts: seq<Part>) {
    forall i, j :: 0 <= i < j < |parts| ==> parts[i].name != parts[j].name
  }

  predicate WellPlaced(parts: seq<Part>) {
    && (forall i :: 0 <= i < |parts| ==> Placed(parts, i))
    && DistinctNames(parts)
    && TotalBytes(parts) <= MAX_SET_BYTES
  }

  predicate ValidManifest(m: Manifest) {
    && HeaderOk(m) && RangeOk(m) && WellPlaced(m.parts)
    && KindBytes(m.parts, SnapshotPart) == m.snapshotBytes
    && (m.recordCount > 0 <==> KindCount(m.parts, EventsPart) > 0)
  }

  lemma {:induction false} PlacedPrefix(parts: seq<Part>, k: nat)
    requires k <= |parts| && forall i :: 0 <= i < k ==> Placed(parts, i)
    ensures forall i :: 0 <= i < k ==> Placed(parts[..k], i)
  {
    forall i | 0 <= i < k ensures Placed(parts[..k], i) {
      assert parts[..k][..i] == parts[..i];
      assert Placed(parts, i);
    }
  }

  lemma {:induction false} BytesGrow(parts: seq<Part>, k: nat)
    requires k <= |parts| && forall i :: 0 <= i < |parts| ==> parts[i].plainBytes >= 1
    ensures TotalBytes(parts[..k]) + (|parts| - k) <= TotalBytes(parts)
    decreases |parts|
  {
    if k < |parts| {
      var rest := parts[..|parts| - 1];
      assert rest[..k] == parts[..k];
      BytesGrow(rest, k);
    } else {
      assert parts[..k] == parts;
    }
  }

  lemma {:induction false} TotalIsSum(parts: seq<Part>)
    requires forall i :: 0 <= i < |parts| ==> parts[i].kind == SnapshotPart || parts[i].kind == EventsPart
    ensures TotalBytes(parts) == KindBytes(parts, SnapshotPart) + KindBytes(parts, EventsPart)
  {
    if parts != [] {
      assert forall i :: 0 <= i < |parts| - 1 ==> parts[..|parts| - 1][i] == parts[i];
      TotalIsSum(parts[..|parts| - 1]);
    }
  }

  lemma KindStep(parts: seq<Part>, i: nat, kind: PartKind)
    requires i < |parts|
    ensures KindCount(parts[..i + 1], kind) == KindCount(parts[..i], kind) + if parts[i].kind == kind then 1 else 0
    ensures KindBytes(parts[..i + 1], kind) == KindBytes(parts[..i], kind) + if parts[i].kind == kind then parts[i].plainBytes else 0
    ensures TotalBytes(parts[..i + 1]) == TotalBytes(parts[..i]) + parts[i].plainBytes
  {
    assert parts[..i + 1][..i] == parts[..i];
  }

  predicate ScanState(parts: seq<Part>, ordinals: map<PartKind, int>, offsets: map<PartKind, int>) {
    && ordinals.Keys == offsets.Keys == {SnapshotPart, EventsPart}
    && forall k <- ordinals.Keys :: ordinals[k] == KindCount(parts, k) && offsets[k] == KindBytes(parts, k)
  }

  /** The running counters decide whether a part is placed, and move on with it. */
  lemma PlacedScan(parts: seq<Part>, i: nat, ordinals: map<PartKind, int>, offsets: map<PartKind, int>)
    requires i < |parts| && ScanState(parts[..i], ordinals, offsets)
    ensures var p := parts[i];
      Placed(parts, i) <==>
        (p.kind == SnapshotPart || p.kind == EventsPart) && SafeName(p.name) && Continues(p, ordinals[p.kind], offsets[p.kind])
    ensures var p := parts[i]; p.kind in ordinals ==>
      ScanState(parts[..i + 1], ordinals[p.kind := ordinals[p.kind] + 1], offsets[p.kind := offsets[p.kind] + p.plainBytes])
  {
    KindStep(parts, i, SnapshotPart);
    KindStep(parts, i, EventsPart);
  }

  function NamesOf(parts: seq<Part>): set<PartName> { set p <- parts :: p.name }

  lemma NamesStep(parts: seq<Part>, i: nat)
    requires i < |parts| && DistinctNames(parts[..i])
    ensures NamesOf(parts[..i + 1]) == NamesOf(parts[..i]) + {parts[i].name}
    ensures parts[i].name !in NamesOf(parts[..i]) ==> DistinctNames(parts[..i + 1])
    ensures parts[i].name in NamesOf(parts[..i]) ==> !DistinctNames(parts)
  {
    assert parts[..i + 1] == parts[..i] + [parts[i]];
    if parts[i].name in NamesOf(parts[..i]) {
      var p :| p in parts[..i] && p.name == parts[i].name;
      var j :| 0 <= j < i && parts[..i][j] == p;
      assert parts[j].name == parts[i].name;
    }
  }

  ghost predicate ScannedParts(parts: seq<Part>, i: nat, seen: set<PartName>, total: int)
    requires i <= |parts|
  {
    && (forall j :: 0 <= j < i ==> Placed(parts, j))
    && seen == NamesOf(parts[..i]) && DistinctNames(parts[..i])
    && total == TotalBytes(parts[..i]) && 0 <= total <= MAX_SET_BYTES
  }

  lemma NoParts()
    ensures NamesOf([]) == {} && DistinctNames([])
  {}

  /** The loop of `Manifest.Validate`. Its running total cannot overflow an int64. */
  method ValidateParts(parts: seq<Part>) returns (ok: bool, ordinals: map<PartKind, int>, offsets: map<PartKind, int>)
    ensures ok <==> WellPlaced(parts)
    ensures ok ==> ScanState(parts, ordinals, offsets)
  {
    hide SafeName, Placed, NamesOf, DistinctNames;
    ordinals, offsets := map[SnapshotPart := 0, EventsPart := 0], map[SnapshotPart := 0, EventsPart := 0];
    NoParts();
    var seen: set<PartName> := {};
    var total := 0;
    for i := 0 to |parts|
      invariant ScanState(parts[..i], ordinals, offsets) && ScannedParts(parts, i, seen, total)
    {
      var p := parts[i];
      PlacedScan(parts, i, ordinals, offsets);
      NamesStep(parts, i);
      KindStep(parts, i, p.kind);
      if (p.kind != SnapshotPart && p.kind != EventsPart) || !SafeName(p.name)
         || !Continues(p, ordinals[p.kind], offsets[p.kind]) || p.name in seen {
        return false, ordinals, offsets;
      }
      if total > MAX_SET_BYTES - p.plainBytes {
        TooManyBytes(parts, i + 1);
        return false, ordinals, offsets;
      }
      seen := seen + {p.name};
      ordinals := ordinals[p.kind := ordinals[p.kind] + 1];
      offsets := offsets[p.kind := offsets[p.kind] + p.plainBytes];
      total := total + p.plainBytes;
    }
    assert parts[..|parts|] == parts;
    PartsPlaced(parts, NamesOf(parts));
    ok := true;
  }

  lemma PartsPlaced(parts: seq<Part>, seen: set<PartName>)
    requires ScannedParts(parts, |parts|, seen, TotalBytes(parts))
    ensures WellPlaced(parts)
  {
    hide Placed, DistinctNames;
    assert parts[..|parts|] == parts;
  }

  lemma TooManyBytes(parts: seq<Part>, k: nat)
    requires k <= |parts| && TotalBytes(parts[..k]) > MAX_SET_BYTES
    ensures !WellPlaced(parts)
  {
    if WellPlaced(parts) {
      forall i | 0 <= i < |parts| ensures parts[i].plainBytes >= 1 { assert Placed(parts, i); }
      BytesGrow(parts, k);
    }
  }

  method Validate(m: Manifest) returns (ok: bool)
    ensures ok <==> ValidManifest(m)
  {
    if !HeaderOk(m) || !RangeOk(m) { return false; }
    var placed, ordinals, offsets := ValidateParts(m.parts);
    if !placed { return false; }
    ok := offsets[SnapshotPart] == m.snapshotBytes
       && (m.recordCount > 0 ==> ordinals[EventsPart] != 0)
       && (m.recordCount == 0 ==> ordinals[EventsPart] == 0);
  }

  // ---- what a valid manifest means ----------------------------------------------------------------

  predicate Holds(p: Part, kind: PartKind, at: int) {
    p.kind == kind && p.offset <= at < p.offset + p.plainBytes
  }

  predicate HeldBytes(parts: seq<Part>, kind: PartKind, at: int) {
    exists i :: 0 <= i < |parts| && Holds(parts[i], kind, at)
  }

  lemma {:induction false} PartsCover(parts: seq<Part>, kind: PartKind, at: int)
    requires forall i :: 0 <= i < |parts| ==> Placed(parts, i)
    requires 0 <= at < KindBytes(parts, kind)
    ensures HeldBytes(parts, kind, at)
    decreases |parts|
  {
    var n := |parts| - 1;
    assert Placed(parts, n);
    if at < KindBytes(parts[..n], kind) {
      PlacedPrefix(parts, n);
      PartsCover(parts[..n], kind, at);
      var i :| 0 <= i < n && Holds(parts[..n][i], kind, at);
      assert Holds(parts[i], kind, at);
    } else {
      assert Holds(parts[n], kind, at);
    }
  }

  lemma {:induction false} KindBytesGrow(parts: seq<Part>, kind: PartKind, i: nat, j: nat)
    requires i < j <= |parts| && forall k :: 0 <= k < |parts| ==> parts[k].plainBytes >= 1
    ensures KindBytes(parts[..i], kind) + (if parts[i].kind == kind then parts[i].plainBytes else 0)
            <= KindBytes(parts[..j], kind)
    decreases j
  {
    assert parts[..j][..j - 1] == parts[..j - 1];
    if i < j - 1 { KindBytesGrow(parts, kind, i, j - 1); }
  }

  /** In a valid manifest the parts of each kind cut the byte range from 0 to that kind's
      total into pieces: each byte is in exactly one part, the snapshot ends exactly at
      SnapshotBytes, and no running total leaves the set bound or the int64 range. */
  lemma ValidManifestTiles(m: Manifest)
    requires ValidManifest(m)
    ensures forall kind, at :: 0 <= at < KindBytes(m.parts, kind) <==> HeldBytes(m.parts, kind, at)
    ensures forall kind, at, i, j :: 0 <= i < j < |m.parts| && Holds(m.parts[i], kind, at) ==> !Holds(m.parts[j], kind, at)
    ensures KindBytes(m.parts, SnapshotPart) == m.snapshotBytes
    ensures forall k :: 0 <= k <= |m.parts| ==> 0 <= TotalBytes(m.parts[..k]) <= MAX_SET_BYTES < MAX_INT64
  {
    var parts := m.parts;
    assert parts[..|parts|] == parts;
    forall i | 0 <= i < |parts| ensures parts[i].plainBytes >= 1 { assert Placed(parts, i); }
    forall kind, at ensures 0 <= at < KindBytes(parts, kind) <==> HeldBytes(parts, kind, at) {
      if 0 <= at < KindBytes(parts, kind) { PartsCover(parts, kind, at); }
      if HeldBytes(parts, kind, at) {
        var i :| 0 <= i < |parts| && Holds(parts[i], kind, at);
        assert Placed(parts, i);
        KindBytesGrow(parts, kind, i, |parts|);
        KindBytesNonNegative(parts[..i], kind);
      }
    }
    forall kind, at, i, j | 0 <= i < j < |parts| && Holds(parts[i], kind, at)
      ensures !Holds(parts[j], kind, at)
    {
      assert Placed(parts, i) && Placed(parts, j);
      KindBytesGrow(parts, kind, i, j);
    }
    forall k | 0 <= k <= |parts| ensures 0 <= TotalBytes(parts[..k]) <= MAX_SET_BYTES {
      BytesGrow(parts, k);
      BytesGrow(parts[..k], 0);
      assert parts[..k][..0] == [];
    }
  }

  lemma {:induction false} KindBytesNonNegative(parts: seq<Part>, kind: PartKind)
    requires forall k :: 0 <= k < |parts| ==> parts[k].plainBytes >= 1
    ensures KindBytes(parts, kind) >= 0
  {
    if parts != [] { KindBytesNonNegative(parts[..|parts| - 1], kind); }
  }

  // ---- completions ----------------------------------------------------------------------------------

  function PayloadFor(m: Manifest, keyId: string, policy: string, release: string, now: nat): Payload {
    Payload(FORMAT_VERSION, "verified", keyId, m.environment, m.stack, m.storeId, m.setId, m, m.parts,
            m.highWater, m.from, m.through, m.recordCount, m.maxReceivedAt, m.bindings, m.keyId,
            m.recipients, now, policy, release)
  }

  /** `VerifyCompletion`: the exact manifest bytes, an approved key, and the whole scope. */
  predicate CompletionOk(c: Completion, m: Manifest, bytes: Manifest, keys: map<string, PublicKey>) {
    && ValidManifest(bytes) && bytes == m
    && c.keyId in keys && c.signature == Signed(keys[c.keyId], c.payload)
    && c.payload == PayloadFor(m, c.keyId, c.payload.policy, c.payload.release, c.payload.verifiedAt)
    && c.payload.policy != "" && c.payload.release != "" && c.payload.verifiedAt != 0
  }

  function SignCompletion(p: Payload, key: PublicKey): Option<Completion> {
    if !SafeId(p.keyId) || p.version != FORMAT_VERSION || p.verdict != "verified" || p.verifiedAt == 0
       || p.policy == "" || p.release == "" then None
    else Some(Completion(p.keyId, p, Signed(key, p)))
  }

  /** A completion vouches for one manifest only, and what the verifier signs is accepted. */
  lemma CompletionBindsScope(c: Completion, m: Manifest, m': Manifest, keys: map<string, PublicKey>)
    requires CompletionOk(c, m, m, keys)
    ensures CompletionOk(c, m', m', keys) <==> m' == m
    ensures SignCompletion(c.payload, keys[c.keyId]) == Some(c) || !SafeId(c.keyId)
  {
    assert c.payload.manifest == m;
  }
}
