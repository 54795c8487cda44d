/** The values the billing inbox stores and exchanges.

    JSON is a lossless codec here, so a stored value is the datatype it decodes to.
    SHA-256 is collision free: a digest is a datatype that wraps what was hashed.
    Ed25519 (section 5.1.7 of RFC 8032) is symbolic: a signature verifies exactly when
    it was made with that key over that message. A time is a count of nanoseconds, and
    zero is the zero time. */
module Types {
  datatype Option<+T> = None | Some(value: T) {
    function GetOr(default: T): T { match this case Some(v) => v case None => default }
  }

  datatype Result<T> = Ok(value: T) | Err(error: Error)

  const MAX_UINT64: nat := 0xFFFF_FFFF_FFFF_FFFF
  const MAX_INT64: nat := 0x7FFF_FFFF_FFFF_FFFF
  const MIB: nat := 0x10_0000

  function Min(a: nat, b: nat): nat { if a < b then a else b }

  // ---- usage events and log events ----------------------------------------------------

  datatype Measurement = Measurement(metric: string, unit: string, quantity: nat, scale: int)

  datatype UsageEvent = UsageEvent(
    usageId: UsageId, service: string, brand: string, eventTime: nat, windowStart: nat,
    windowEnd: nat, epoch: string, sequence: nat, source: string,
    measurements: seq<Measurement>, dimensions: map<string, string>)

  /** An id chosen by the producer, or the deterministic digest of the identifying fields. */
  datatype UsageId =
    | Given(text: string)
    | Derived(service: string, brand: string, epoch: string, sequence: nat,
              windowStart: nat, windowEnd: nat, dimensions: map<string, string>)

  /** `usage` is None when the field does not decode as a usage event; `deployment` stands
      for the host, version and other fields that may change between retries; `encoded` is
      the length of the JSON text; `wellFormed` is the verdict of the flat envelope and
      redaction checks. */
  datatype LogEvent = LogEvent(
    id: string, env: string, usage: Option<UsageEvent>, time: nat, deployment: string,
    encoded: nat, wellFormed: bool)

  /** The financial digest binds the immutable usage and isolation fields only. */
  datatype ContentDigest = ContentDigest(id: string, env: string, usage: Option<UsageEvent>, time: nat)

  function ContentOf(e: LogEvent): ContentDigest {
    ContentDigest(e.id, e.env, e.usage, e.time)
  }

  const MAX_EVENT_BYTES: nat := MIB
  const MAX_ID_BYTES: nat := 4096
  const ENVELOPE_BYTES: nat := 128

  predicate Acceptable(e: LogEvent) {
    e.wellFormed && 0 < |e.id| <= MAX_ID_BYTES && e.encoded <= MAX_EVENT_BYTES
  }

  datatype BillingRecord = BillingRecord(sequence: nat, content: ContentDigest, event: LogEvent) {
    /** Length of the stored body: the event's text inside a small envelope. */
    function Length(): nat { event.encoded + ENVELOPE_BYTES }
  }

  datatype RecordDigest = RecordDigest(record: BillingRecord)

  /** `decodeBillingRecord` succeeds on this body for this sequence number. */
  predicate Decodes(r: BillingRecord, sequence: nat) {
    && r.sequence == sequence
    && r.Length() <= 2 * MIB
    && Acceptable(r.event)
    && r.content == ContentOf(r.event)
  }

  datatype ReceiptBinding = ReceiptBinding(sequence: nat, content: ContentDigest, record: RecordDigest)

  function BindingOf(r: BillingRecord): ReceiptBinding {
    ReceiptBinding(r.sequence, r.content, RecordDigest(r))
  }

  // ---- archive sets ----------------------------------------------------------------------

  datatype PartKind = SnapshotPart | EventsPart | UnknownPart

  /** A name this service generates from kind and ordinal, or some other text. */
  datatype PartName = Generated(kind: PartKind, ordinal: int) | Foreign(text: string)

  /** `digests` stands for the two part hashes. */
  datatype Part = Part(
    name: PartName, kind: PartKind, ordinal: int, offset: int,
    plainBytes: int, cipherBytes: int, digests: string)

  datatype RecordBinding = RecordBinding(
    sequence: nat, content: ContentDigest, usageId: UsageId, canonical: UsageEvent)

  datatype Manifest = Manifest(
    version: int, environment: string, sources: seq<string>, stack: string, storeId: string,
    setId: string, createdAt: nat, highWater: nat, from: nat, through: nat, recordCount: nat,
    maxReceivedAt: nat, bindings: seq<RecordBinding>, snapshotBytes: int,
    snapshotDigest: string, keyId: string, recipients: seq<string>, parts: seq<Part>)
  {
    predicate Spans(n: nat) { recordCount > 0 && from <= n <= through }
  }

  datatype ExportRecord = ExportRecord(
    sequence: nat, content: ContentDigest, receivedAt: nat, record: BillingRecord)

  datatype Payload = Payload(
    version: int, verdict: string, keyId: string, environment: string, stack: string,
    storeId: string, setId: string, manifest: Manifest, objects: seq<Part>, highWater: nat,
    from: nat, through: nat, recordCount: nat, maxReceivedAt: nat,
    bindings: seq<RecordBinding>, encryptionKeyId: string, recipients: seq<string>,
    verifiedAt: nat, policy: string, release: string)

  datatype PublicKey = PublicKey(holder: string)
  datatype Signature<T> = Signed(key: PublicKey, message: T) | Forged

  datatype Completion = Completion(keyId: string, payload: Payload, signature: Signature<Payload>)

  datatype CatalogEntry = CatalogEntry(manifest: Manifest, manifestBytes: Manifest, completion: Completion)

  datatype CaptureState = Capturing | Sealed | Uploaded | Verified | Abandoned
  datatype CaptureStatus = CaptureStatus(setId: string, state: CaptureState, manifest: Option<Manifest>)

  // ---- retirement and recovery ---------------------------------------------------------------

  datatype RetirementPlan = RetirementPlan(
    operationId: string, environment: string, storeId: string, from: nat, through: nat,
    planDigest: string, setId: string)

  datatype OperationState = Pending | Completed | Aborted
  datatype Receipt = Unsealed | Seal(of: RetirementStatus)
  datatype RetirementStatus = RetirementStatus(
    operationId: string, environment: string, storeId: string, from: nat, through: nat,
    planDigest: string, state: OperationState, receipt: Receipt, completedAt: nat,
    retiredThrough: nat, setId: string)
  {
    predicate Terminal() { state != Pending }
    predicate Spans(n: nat) { state == Completed && from <= n <= through }
  }

  /** The receipt is the digest of the status with an empty receipt. */
  function SealStatus(st: RetirementStatus): RetirementStatus {
    st.(receipt := Seal(st.(receipt := Unsealed)))
  }

  datatype RecoveryApproval = RecoveryApproval(
    keyId: string, environment: string, storeId: string, highWater: nat, archiveFloor: nat,
    operations: set<RetirementStatus>, catalog: set<CatalogEntry>,
    approvedAt: nat, expiresAt: nat)
  datatype SignedApproval = SignedApproval(
    keyId: string, payload: RecoveryApproval, signature: Signature<RecoveryApproval>)

  // ---- configuration ---------------------------------------------------------------------------

  /** A configuration that passed validation, fixed for the run. */
  datatype Config = Config(
    environment: string, sources: seq<string>, stack: string, encryptionKeyId: string,
    recipients: seq<string>, keys: map<string, PublicKey>, recoveryKeys: map<string, PublicKey>,
    retention: nat, partBytes: nat, cacheMaxBytes: nat, retirementEnabled: bool)

  datatype Error =
    | Unavailable | LifecycleConflict | BillingConflict | DuplicateEvent
    | InvalidEvent | CursorInvalid | ArchiveUnavailable | OperationNotFound | CompletionInvalid
}
