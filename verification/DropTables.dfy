/** The Drop tables and the effect of each committed transaction on them. A transaction that
    fails rolls back, so its outcome carries the tables it started from. */
module DropTables {
  import opened Texts
  import opened Wrappers

  // Row identifiers are opaque; the gateway only compares them.
  type UserId = nat
  type NodeId = nat
  type UploadId = nat
  type FileId = nat

  /** `NoCid` stands for NULL and for the empty text, which the queries treat alike. */
  datatype Cid = NoCid | Cid(text: string)

  datatype DropError =
    | BadRequest | NotFound | Conflict | QuotaExceeded | NodeCapacity | NodeUnavailable
    | ConstraintViolation

  datatype Result<+T> = Ok(value: T) | Err(error: DropError)

  datatype Scope = Public | PrivateOrg

  datatype UploadStatus = Reserved | Uploading | Committed | Failed | Expired

  datatype FileStatus = Active | DeletePending | Deleted | Unavailable

  datatype PinStatus = Pinning | Pinned | UnpinPending | Unpinned | PinError

  datatype NodeState = StateDisabled | StateStarting | StateActive | StateDegraded | StateFull | StateUnreachable

  /** Columns that a commit copies from the reservation to the file without reading them. */
  datatype Attrs = Attrs(orgId: string, entitlementOrgId: string, filename: string, contentType: string,
                         visibility: string, encrypted: bool, encryptionMetadata: string)

  datatype Upload = Upload(owner: UserId, node: NodeId, scope: Scope, attrs: Attrs, declared: int,
                           reserved: int, status: UploadStatus, key: string, cid: Cid, expiresAt: int)

  datatype File = File(upload: UploadId, owner: UserId, node: NodeId, scope: Scope, cid: Cid, attrs: Attrs,
                       size: int, status: FileStatus)

  datatype Pin = Pin(node: NodeId, cid: Cid, status: PinStatus)

  datatype Quota = Quota(used: int, reserved: int)

  datatype NodeRow = NodeRow(enabled: bool, acceptsPublic: bool, state: NodeState, storageMax: int,
                             repoSize: int, reserved: int)

  /** `peers` is the joined runtime table: a registered node and whether it is online. */
  datatype Tables = Tables(uploads: map<UploadId, Upload>, files: map<FileId, File>, pins: map<FileId, Pin>,
                           quota: map<UserId, Quota>, nodes: map<NodeId, NodeRow>, peers: map<NodeId, bool>)

  datatype Outcome<+T> = Outcome(db: Tables, result: Result<T>)

  datatype TierLimit = TierLimit(publicBytes: int, maxFileBytes: int)

  datatype ReserveInput = ReserveInput(user: UserId, node: NodeId, scope: Scope, attrs: Attrs, size: int,
                                       key: string, ttl: int)

  const EMPTY_TABLES := Tables(map[], map[], map[], map[], map[], map[])

  const MAX_INT64: int := 0x7FFF_FFFF_FFFF_FFFF

  /** Go's int64 addition wraps around. */
  function Wrap64(x: int): (r: int)
    ensures -0x8000_0000_0000_0000 <= r < 0x8000_0000_0000_0000
    ensures (r - x) % 0x1_0000_0000_0000_0000 == 0
  {
    (x + 0x8000_0000_0000_0000) % 0x1_0000_0000_0000_0000 - 0x8000_0000_0000_0000
  }

  function Max0(x: int): int { if x < 0 then 0 else x }

  predicate AlphaNumeric(c: char) { 'A' <= c <= 'Z' || 'a' <= c <= 'z' || '0' <= c <= '9' }

  predicate ValidCid(cid: Cid) {
    cid.Cid? && 20 <= |cid.text| <= 120 && forall i | 0 <= i < |cid.text| :: AlphaNumeric(cid.text[i])
  }

  /** A reservation that still holds bytes. */
  predicate Live(s: UploadStatus) { s == Reserved || s == Uploading }

  /** A file that still counts against quota and still needs its pin. */
  predicate Referenced(s: FileStatus) { s != Deleted && s != DeletePending }

  predicate UnpinOwed(s: PinStatus) { s == UnpinPending || s == PinError }

  function QuotaOf(db: Tables, user: UserId): Quota {
    if user in db.quota then db.quota[user] else Quota(0, 0)
  }

  function NodeReserved(db: Tables, node: NodeId): int {
    if node in db.nodes then db.nodes[node].reserved else 0
  }

  predicate HasKey(db: Tables, id: UploadId, owner: UserId, key: string) {
    id in db.uploads && db.uploads[id].owner == owner && db.uploads[id].key == key
  }

  ghost predicate KeyTaken(db: Tables, owner: UserId, key: string) {
    exists id :: HasKey(db, id, owner, key)
  }

  ghost function FindByKey(db: Tables, owner: UserId, key: string): (r: Option<UploadId>)
    ensures r.None? <==> !KeyTaken(db, owner, key)
    ensures r.Some? ==> HasKey(db, r.value, owner, key)
  {
    if KeyTaken(db, owner, key) then
      var id :| HasKey(db, id, owner, key);
      Some(id)
    else None
  }

  predicate IsFileOf(db: Tables, f: FileId, upload: UploadId) {
    f in db.files && db.files[f].upload == upload
  }

  ghost predicate HasFile(db: Tables, upload: UploadId) { exists f :: IsFileOf(db, f, upload) }

  ghost function FileOf(db: Tables, upload: UploadId): (r: Option<FileId>)
    ensures r.Some? ==> IsFileOf(db, r.value, upload)
    ensures r.None? <==> !HasFile(db, upload)
  {
    if HasFile(db, upload) then
      var f :| IsFileOf(db, f, upload);
      Some(f)
    else None
  }

  function IdText(id: UploadId): string {
    if id < 10 then ["0123456789"[id]] else IdText(id / 10) + ["0123456789"[id % 10]]
  }

  /** The key a terminal attempt is moved to when its caller retries. */
  function RetiredKey(key: string, id: UploadId): string { key + ":terminal:" + IdText(id) }

  /** Both counters of a principal move, clamped at zero; the row is created when missing. */
  function AdjustQuota(quota: map<UserId, Quota>, user: UserId, usedDelta: int, reservedDelta: int)
    : map<UserId, Quota>
  {
    var q := if user in quota then quota[user] else Quota(0, 0);
    quota[user := Quota(Max0(q.used + usedDelta), Max0(q.reserved + reservedDelta))]
  }

  function ReleaseNode(nodes: map<NodeId, NodeRow>, node: NodeId, bytes: int): map<NodeId, NodeRow> {
    if node in nodes then nodes[node := nodes[node].(reserved := Max0(nodes[node].reserved - bytes))] else nodes
  }

  /** Whether the locked node row lets `size` more bytes in, and the error otherwise. */
  function NodeVerdict(db: Tables, node: NodeId, scope: Scope, size: int): Result<()> {
    if node !in db.nodes || node !in db.peers then Err(NodeUnavailable)
    else
      var row := db.nodes[node];
      if !row.enabled || row.state != StateActive || !db.peers[node] then Err(NodeUnavailable)
      else if scope == Public && !row.acceptsPublic then Err(NodeUnavailable)
      else if row.storageMax > 0 && Wrap64(row.repoSize + row.reserved + size) > row.storageMax then Err(NodeCapacity)
      else Ok(())
  }

  function QuotaVerdict(db: Tables, user: UserId, limit: TierLimit, size: int): Result<()> {
    var q := QuotaOf(db, user);
    if size > limit.maxFileBytes then Err(QuotaExceeded)
    else if Wrap64(q.used + q.reserved + size) > limit.publicBytes then Err(QuotaExceeded)
    else Ok(())
  }

  function NewUpload(input: ReserveInput, now: int): Upload {
    var ttl := if input.ttl <= 0 then 1800 else input.ttl;
    Upload(input.user, input.node, input.scope, input.attrs, input.size, input.size, Reserved, input.key, NoCid,
           now + ttl)
  }

  /** The tail of a reservation, run on `tx` and undone to `db` on any error. */
  ghost function Admit(db: Tables, tx: Tables, input: ReserveInput, limit: TierLimit, id: UploadId, now: int)
    : Outcome<UploadId>
  {
    if input.scope == Public && QuotaVerdict(tx, input.user, limit, input.size).Err? then
      Outcome(db, Err(QuotaExceeded))
    else
      var verdict := NodeVerdict(tx, input.node, input.scope, input.size);
      if verdict.Err? then Outcome(db, Err(verdict.error))
      else if id in tx.uploads || KeyTaken(tx, input.user, input.key) then Outcome(db, Err(ConstraintViolation))
      else
        var q := QuotaOf(tx, input.user);
        var row := tx.nodes[input.node];
        Outcome(tx.(quota := if input.scope == Public
                             then tx.quota[input.user := q.(reserved := q.reserved + input.size)] else tx.quota,
                    nodes := tx.nodes[input.node := row.(reserved := row.reserved + input.size)],
                    uploads := tx.uploads[id := NewUpload(input, now)]),
                Ok(id))
  }

  ghost function Reserve(db: Tables, input: ReserveInput, limit: TierLimit, id: UploadId, now: int)
    : Outcome<UploadId>
  {
    if input.size <= 0 || !(1 <= |input.key| <= 128) then Outcome(db, Err(BadRequest))
    else
      match FindByKey(db, input.user, input.key)
      case None => Admit(db, db, input, limit, id, now)
      case Some(existing) =>
        var row := db.uploads[existing];
        if Live(row.status) || row.status == Committed then Outcome(db, Ok(existing))
        else if KeyTaken(db, input.user, RetiredKey(row.key, existing)) then Outcome(db, Err(ConstraintViolation))
        else
          var retired := row.(key := RetiredKey(row.key, existing));
          Admit(db, db.(uploads := db.uploads[existing := retired]), input, limit, id, now)
  }

  function CommittedFile(id: UploadId, row: Upload, cid: Cid, reported: int): File {
    File(id, row.owner, row.node, row.scope, cid, row.attrs,
         if reported <= 0 then row.declared else reported, Active)
  }

  ghost function Commit(db: Tables, user: UserId, id: UploadId, cid: Cid, reported: int, fileId: FileId)
    : Outcome<FileId>
  {
    if id !in db.uploads || db.uploads[id].owner != user then Outcome(db, Err(NotFound))
    else
      var row := db.uploads[id];
      if row.status == Committed then
        match FileOf(db, id)
        case None => Outcome(db, Err(NotFound))
        case Some(f) => Outcome(db, Ok(f))
      else if !Live(row.status) then Outcome(db, Err(Conflict))
      else if fileId in db.files then Outcome(db, Err(ConstraintViolation))
      else
        var file := CommittedFile(id, row, cid, reported);
        Outcome(db.(files := db.files[fileId := file],
                    pins := db.pins[fileId := Pin(row.node, cid, Pinned)],
                    uploads := db.uploads[id := row.(status := Committed, cid := cid)],
                    quota := if row.scope == Public
                             then AdjustQuota(db.quota, row.owner, file.size, -row.reserved) else db.quota,
                    nodes := ReleaseNode(db.nodes, row.node, row.reserved)),
                Ok(fileId))
  }

  /** Gives a live reservation's holds back and makes it terminal; a terminal one is left alone. */
  function Release(db: Tables, id: UploadId, status: UploadStatus): Outcome<()> {
    if id !in db.uploads then Outcome(db, Err(NotFound))
    else
      var row := db.uploads[id];
      if !Live(row.status) then Outcome(db, Ok(()))
      else
        Outcome(db.(uploads := db.uploads[id := row.(status := status, reserved := 0)],
                    quota := if row.scope == Public
                             then AdjustQuota(db.quota, row.owner, 0, -row.reserved) else db.quota,
                    nodes := ReleaseNode(db.nodes, row.node, row.reserved)),
                Ok(()))
  }

  /** The second statement of FailDropUploadWithOrphanPin: it only reaches a failed row. */
  function RecordOrphan(db: Tables, id: UploadId, cid: Cid): Tables {
    if id in db.uploads && db.uploads[id].status == Failed
    then db.(uploads := db.uploads[id := db.uploads[id].(cid := cid)]) else db
  }

  /** What is left of that method when its release or its second statement fails. */
  function OrphanRecorded(db: Tables, id: UploadId, cid: Cid, releases: bool, records: bool): Tables {
    if !releases then db
    else if !records then Release(db, id, Failed).db
    else RecordOrphan(Release(db, id, Failed).db, id, cid)
  }

  function ClearOrphan(db: Tables, id: UploadId): Tables { RecordOrphan(db, id, NoCid) }

  ghost function OtherReferences(db: Tables, file: FileId): set<FileId>
    requires file in db.files
  {
    set f | f in db.files && f != file && Referenced(db.files[f].status) &&
            db.files[f].node == db.files[file].node && db.files[f].cid == db.files[file].cid
  }

  function SetPin(pins: map<FileId, Pin>, file: FileId, status: PinStatus): map<FileId, Pin> {
    if file in pins then pins[file := pins[file].(status := status)] else pins
  }

  /** The result says whether the caller should unpin the CID on the node. */
  ghost function Mark(db: Tables, file: FileId): Outcome<bool> {
    if file !in db.files then Outcome(db, Err(NotFound))
    else
      var row := db.files[file];
      if row.status == Deleted then Outcome(db, Ok(false))
      else if row.status == DeletePending then
        Outcome(db, Ok(file in db.pins && UnpinOwed(db.pins[file].status)))
      else
        var last := OtherReferences(db, file) == {};
        Outcome(db.(quota := if row.scope == Public
                             then AdjustQuota(db.quota, row.owner, -row.size, 0) else db.quota,
                    files := db.files[file := row.(status := DeletePending)],
                    pins := SetPin(db.pins, file, if last then UnpinPending else Unpinned)),
                Ok(last))
  }

  function Finalize(db: Tables, file: FileId, unpinned: bool): Tables {
    db.(pins := SetPin(db.pins, file, if unpinned then Unpinned else PinError),
        files := if unpinned && file in db.files && db.files[file].status == DeletePending
                 then db.files[file := db.files[file].(status := Deleted)] else db.files)
  }

  function SetVisibility(db: Tables, file: FileId, user: UserId, visibility: string): Tables {
    if file in db.files && db.files[file].owner == user && db.files[file].status == Active
    then var row := db.files[file];
         db.(files := db.files[file := row.(attrs := row.attrs.(visibility := visibility))])
    else db
  }

  /** Unknown or empty reports count as disabled. */
  function NormalizeDropState(reported: string): NodeState {
    match ToLower(TrimSpace(reported))
    case "starting" => StateStarting
    case "active" => StateActive
    case "degraded" => StateDegraded
    case "full" => StateFull
    case "unreachable" => StateUnreachable
    case _ => StateDisabled
  }

  /** A heartbeat replaces health and capacity; the reservation column keeps its value. */
  function Heartbeat(db: Tables, node: NodeId, state: NodeState, repoSize: int, storageMax: int): Tables {
    var row := if node in db.nodes
               then db.nodes[node].(enabled := true, state := state, repoSize := repoSize, storageMax := storageMax)
               else NodeRow(true, false, state, storageMax, repoSize, 0);
    db.(nodes := db.nodes[node := row])
  }

  function Capability(db: Tables, node: NodeId, enabled: bool, acceptsPublic: bool): Tables {
    var row := if node in db.nodes
               then var prior := db.nodes[node];
                    prior.(enabled := enabled, acceptsPublic := acceptsPublic,
                         state := if enabled then prior.state else StateDisabled)
               else NodeRow(enabled, acceptsPublic, if enabled then StateStarting else StateDisabled, 0, 0, 0);
    db.(nodes := db.nodes[node := row])
  }

  /** One committed transaction. Every interleaving of the gateway's requests and loops is some
      sequence of these. */
  datatype Tx =
    | TReserve(input: ReserveInput, limit: TierLimit, uploadId: UploadId, now: int)
    | TCommit(user: UserId, uploadId: UploadId, cid: Cid, reported: int, fileId: FileId)
    | TRelease(uploadId: UploadId, status: UploadStatus)
    | TRecordOrphan(uploadId: UploadId, cid: Cid)
    | TMark(fileId: FileId)
    | TFinalize(fileId: FileId, unpinned: bool)
    | TSetVisibility(fileId: FileId, user: UserId, visibility: string)
    | THeartbeat(node: NodeId, state: NodeState, repoSize: int, storageMax: int)
    | TCapability(node: NodeId, enabled: bool, acceptsPublic: bool)
    | TPeer(node: NodeId, online: bool)

  ghost function Apply(db: Tables, tx: Tx): Tables {
    match tx
    case TReserve(input, limit, id, now) => Reserve(db, input, limit, id, now).db
    case TCommit(user, id, cid, reported, f) => Commit(db, user, id, cid, reported, f).db
    case TRelease(id, status) =>
      // Callers pass only the two terminal statuses.
      if status == Failed || status == Expired then Release(db, id, status).db else db
    case TRecordOrphan(id, cid) => RecordOrphan(db, id, cid)
    case TMark(f) => Mark(db, f).db
    case TFinalize(f, unpinned) => Finalize(db, f, unpinned)
    case TSetVisibility(f, user, v) => SetVisibility(db, f, user, v)
    case THeartbeat(n, state, repo, max) => Heartbeat(db, n, state, repo, max)
    case TCapability(n, enabled, public) => Capability(db, n, enabled, public)
    case TPeer(n, online) => db.(peers := db.peers[n := online])
  }

  ghost function Exec(db: Tables, txs: seq<Tx>): Tables
    decreases |txs|
  {
    if txs == [] then db else Exec(Apply(db, txs[0]), txs[1..])
  }
}
