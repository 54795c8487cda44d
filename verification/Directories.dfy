/** The directory that holds the inbox: an ordered list of directory operations, of which a
    crash keeps a prefix that includes everything up to the last successful fsync. File
    contents are durable when the call that wrote them returns. */
module Directories {
  import opened Types
  import opened Store
  import opened Gateway

  datatype FileName = Anchor | ActiveManifest | GenerationFile(generation: string) | Temporary(n: nat)
  type FileId = nat

  /** The active manifest; `generation` None is the name "initial". */
  datatype Pointer = Pointer(file: FileName, storeId: string, generation: Option<string>, cutover: nat)
  datatype Content = DbFile(db: Database) | ManifestFile(pointer: Pointer) | RetiredMarker(storeId: string)
  type Directory = map<FileName, FileId>
  type Files = map<FileId, Content>

  datatype DirOp = Link(name: FileName, id: FileId) | Rename(from: FileName, to: FileName) | Unlink(name: FileName)

  datatype Disk = Disk(durable: Directory, pending: seq<DirOp>, files: Files)

  function Perform(d: Directory, op: DirOp): Directory {
    match op
    case Link(n, id) => d[n := id]
    case Unlink(n) => d - {n}
    case Rename(from, to) => if from in d then (d - {from})[to := d[from]] else d
  }

  function PerformAll(d: Directory, ops: seq<DirOp>): Directory {
    if ops == [] then d else Perform(PerformAll(d, ops[..|ops| - 1]), ops[|ops| - 1])
  }

  /** The directory after a crash that keeps `k` of the pending operations. */
  function Cut(disk: Disk, k: nat): Directory requires k <= |disk.pending| {
    PerformAll(disk.durable, disk.pending[..k])
  }

  function Visible(disk: Disk): Directory { Cut(disk, |disk.pending|) }

  function Append(disk: Disk, op: DirOp): Disk { disk.(pending := disk.pending + [op]) }
  function Synced(disk: Disk): Disk { disk.(durable := Visible(disk), pending := []) }

  lemma AppendCuts(disk: Disk, op: DirOp)
    ensures forall k :: 0 <= k <= |disk.pending| ==> Cut(Append(disk, op), k) == Cut(disk, k)
    ensures Visible(Append(disk, op)) == Perform(Visible(disk), op)
  {
    var p := disk.pending;
    assert forall k :: 0 <= k <= |p| ==> (p + [op])[..k] == p[..k];
    assert (p + [op])[..|p| + 1][..|p|] == p[..|p|];
  }

  lemma SyncedCuts(disk: Disk)
    ensures Cut(Synced(disk), 0) == Visible(disk) && Visible(Synced(disk)) == Visible(disk)
  {}

  // ---- selecting the database file --------------------------------------------------------

  /** A manifest may name the anchor or the file of its own generation. */
  predicate WellNamed(p: Pointer) {
    p.file == Anchor || (p.generation.Some? && p.file == GenerationFile(p.generation.value))
  }

  function PointerIn(d: Directory, files: Files): Option<Pointer> {
    if ActiveManifest in d && d[ActiveManifest] in files && files[d[ActiveManifest]].ManifestFile?
       && WellNamed(files[d[ActiveManifest]].pointer)
    then Some(files[d[ActiveManifest]].pointer)
    else None
  }

  /** The file an open would use; None when the manifest is unreadable. */
  function TargetIn(d: Directory, files: Files): Option<FileName> {
    if ActiveManifest !in d then Some(Anchor)
    else match PointerIn(d, files) case Some(p) => Some(p.file) case None => None
  }

  function SelectedIn(d: Directory, files: Files): Option<FileId> {
    match TargetIn(d, files)
    case Some(name) => if name in d then Some(d[name]) else None
    case None => None
  }

  function StorageGenerationOf(db: Database): Option<string> {
    match Get(db, Meta, Field(StorageGeneration)) case Some(Text(g)) => Some(g) case _ => None
  }

  /** `validateActiveManifest`: store, frontier and storage generation must match. */
  predicate PointerAdmits(p: Pointer, db: Database) {
    && p.storeId == StoreId(db)
    && Generation(db) >= p.cutover
    && StorageGenerationOf(db) == p.generation
  }

  predicate ManifestDemanded(db: Database) { Get(db, Meta, Field(ManifestRequired)) == Some(Flag) }

  predicate IsDb(files: Files, id: FileId) { id in files && files[id].DbFile? }

  /** `OpenBillingInbox` accepts this directory. */
  predicate Opens(d: Directory, files: Files) {
    match SelectedIn(d, files)
    case None => false
    case Some(id) =>
      && IsDb(files, id)
      && (match PointerIn(d, files)
          case Some(p) => PointerAdmits(p, files[id].db)
          case None => !ManifestDemanded(files[id].db))
  }

  /** The selected file holds every acknowledged mutation, and the manifest, when there is
      one, admits it. */
  predicate Preserves(d: Directory, files: Files, acked: Database) {
    match SelectedIn(d, files)
    case None => false
    case Some(id) =>
      && IsDb(files, id)
      && Core(files[id].db) == Core(acked)
      && (ActiveManifest in d ==> PointerIn(d, files).Some? && PointerAdmits(PointerIn(d, files).value, files[id].db))
  }

  /** With every acknowledged mutation preserved, only a lost manifest can refuse an open. */
  lemma PreservedOpens(d: Directory, files: Files, acked: Database)
    requires Preserves(d, files, acked)
    ensures Opens(d, files) <==> ActiveManifest in d || !ManifestDemanded(acked)
  {
    CoreLookup(files[SelectedIn(d, files).value].db, acked);
  }

  // ---- one directory operation ------------------------------------------------------------

  lemma LinkKeeps(d: Directory, files: Files, acked: Database, name: FileName, id: FileId)
    requires Preserves(d, files, acked) && name !in d && name != ActiveManifest
    ensures Preserves(d[name := id], files, acked)
    ensures SelectedIn(d[name := id], files) == SelectedIn(d, files)
  {}

  lemma UnlinkKeeps(d: Directory, files: Files, acked: Database, name: FileName)
    requires Preserves(d, files, acked) && name != ActiveManifest
    requires TargetIn(d, files) != Some(name)
    ensures Preserves(Perform(d, Unlink(name)), files, acked)
    ensures SelectedIn(Perform(d, Unlink(name)), files) == SelectedIn(d, files)
  {}

  lemma RetireAnchorKeeps(d: Directory, files: Files, acked: Database, tmp: FileName)
    requires Preserves(d, files, acked) && tmp.Temporary? && tmp in d
    requires TargetIn(d, files) != Some(Anchor)
    ensures Preserves(Perform(d, Rename(tmp, Anchor)), files, acked)
    ensures SelectedIn(Perform(d, Rename(tmp, Anchor)), files) == SelectedIn(d, files)
  {}

  lemma PublishSelects(d: Directory, files: Files, acked: Database, tmp: FileName, p: Pointer, id: FileId)
    requires tmp.Temporary? && tmp in d && d[tmp] in files && files[d[tmp]] == ManifestFile(p)
    requires WellNamed(p) && p.file in d && d[p.file] == id
    requires IsDb(files, id) && Core(files[id].db) == Core(acked) && PointerAdmits(p, files[id].db)
    ensures Preserves(Perform(d, Rename(tmp, ActiveManifest)), files, acked)
    ensures SelectedIn(Perform(d, Rename(tmp, ActiveManifest)), files) == Some(id)
    ensures TargetIn(Perform(d, Rename(tmp, ActiveManifest)), files) == Some(p.file)
  {}
}
