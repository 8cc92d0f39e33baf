/** The pin lifecycle as a state machine: content transfers, delete requests and maintenance sweeps
    interleave at transaction boundaries while nodes pin and unpin CIDs. No physical pin is forgotten
    unless one of the listed losses happens, and none of them happens in a disciplined run. */
module DropPins {
  import opened Wrappers
  import opened DropTables
  import opened DropLedger
  import opened DropUploads

  datatype PinRef = PinRef(node: NodeId, cid: Cid)

  function FileRef(f: File): PinRef { PinRef(f.node, f.cid) }

  function UploadRef(u: Upload): PinRef { PinRef(u.node, u.cid) }

  /** Where a content request stands. `applied` tells that its commit went through although the reply was lost. */
  datatype Phase = Sending | Holding(cid: Cid) | Compensating(cid: Cid, applied: bool) | Recording(cid: Cid,
      applied: bool)

  datatype Transfer = Transfer(upload: UploadId, user: UserId, node: NodeId, phase: Phase)

  datatype JobKind = DeleteRequest | FileSweep | OrphanSweep

  datatype JobPhase = Counting | Unpinning | Closing(unpinned: bool)

  /** A request or sweep that may unpin; `target` is a file, or an upload for an orphan sweep. */
  datatype Job = Job(kind: JobKind, target: nat, ref: PinRef, phase: JobPhase)

  /** `pinned` is what the nodes really hold. `escaped` collects the pins whose loss was not recorded anywhere. */
  datatype World = World(db: Tables, pinned: set<PinRef>, transfers: map<nat, Transfer>, jobs: map<nat, Job>,
                         escaped: set<PinRef>)

  const GENESIS := World(EMPTY_TABLES, {}, map[], map[], {})

  datatype CommitReply = Acked | AckLost | RolledBack

  datatype UnpinReply = Removed | RemovedUnacked | Refused

  datatype Step =
    | Standalone(tx: Tx)
    | ExpireRow(upload: UploadId, now: int)
    | Begin(t: nat, user: UserId, upload: UploadId)
    | Reject(t: nat, stored: bool)
    | PinContent(t: nat, cid: Cid)
    | PinUnseen(t: nat, cid: Cid, stored: bool)
    | CommitRow(t: nat, reported: int, file: FileId, reply: CommitReply)
    | Compensate(t: nat, stored: bool)
    | RecordRow(t: nat, stored: bool)
    | Lose(t: nat)
    | DeleteFile(h: nat, file: FileId)
    | SweepFile(h: nat, file: FileId)
    | SweepOrphan(h: nat, upload: UploadId)
    | CountRefs(h: nat)
    | UnpinCid(h: nat, answer: UnpinReply)
    | CloseJob(h: nat, stored: bool)
    | Crash(h: nat)

  /** Transactions that neither start nor end a transfer or a job. */
  predicate IsStandalone(tx: Tx) {
    tx.TReserve? || tx.TSetVisibility? || tx.THeartbeat? || tx.TCapability? || tx.TPeer?
  }

  /** The pin that only this transfer still answers for. */
  function Carried(t: Transfer): set<PinRef> {
    match t.phase
    case Sending => {}
    case Holding(cid) => {PinRef(t.node, cid)}
    case Compensating(cid, applied) => if applied then {} else {PinRef(t.node, cid)}
    case Recording(cid, applied) => if applied then {} else {PinRef(t.node, cid)}
  }

  predicate Sends(w: World, t: nat) { t in w.transfers && w.transfers[t].phase == Sending }

  /** CountActivePinRefs: active files on the node with the CID, other than the excluded one. */
  ghost function ActiveRefs(db: Tables, ref: PinRef, excluded: Option<FileId>): set<FileId> {
    set f | f in db.files && db.files[f].status == Active && FileRef(db.files[f]) == ref && Some(f) != excluded
  }

  predicate UnpinListed(db: Tables, f: FileId) {
    f in db.files && f in db.pins && db.files[f].status == DeletePending && UnpinOwed(db.pins[f].status)
  }

  predicate OrphanListed(db: Tables, u: UploadId) {
    u in db.uploads && db.uploads[u].status == Failed && db.uploads[u].cid != NoCid
  }

  ghost function UnpinJobs(db: Tables): set<FileId> { set f | f in db.files && UnpinListed(db, f) }

  ghost function OrphanJobs(db: Tables): set<UploadId> { set u | u in db.uploads && OrphanListed(db, u) }

  predicate ClosesFile(w: World, h: nat, f: FileId) {
    h in w.jobs && w.jobs[h].kind != OrphanSweep && w.jobs[h].target == f && w.jobs[h].phase == Closing(true)
  }

  predicate ClosesOrphan(w: World, h: nat, u: UploadId, cid: Cid) {
    h in w.jobs && w.jobs[h].kind == OrphanSweep && w.jobs[h].target == u && w.jobs[h].phase.Closing? &&
    w.jobs[h].ref.cid == cid
  }

  ghost predicate FileClosing(w: World, f: FileId) { exists h :: ClosesFile(w, h, f) }

  ghost predicate OrphanClosing(w: World, u: UploadId, cid: Cid) { exists h :: ClosesOrphan(w, h, u, cid) }

  function SetPhase(w: World, t: nat, phase: Phase): World
    requires t in w.transfers
  {
    w.(transfers := w.transfers[t := w.transfers[t].(phase := phase)])
  }

  function SetJob(w: World, h: nat, phase: JobPhase): World
    requires h in w.jobs
  {
    w.(jobs := w.jobs[h := w.jobs[h].(phase := phase)])
  }

  ghost function ReleasedIf(db: Tables, stored: bool, u: UploadId): Tables {
    if stored then Apply(db, TRelease(u, Failed)) else db
  }

  ghost function CommitNext(w: World, t: nat, reported: int, f: FileId, reply: CommitReply): World
    requires t in w.transfers && w.transfers[t].phase.Holding?
  {
    var tr := w.transfers[t];
    var cid := tr.phase.cid;
    var out := Commit(w.db, tr.user, tr.upload, cid, reported, f);
    if reply == RolledBack || out.result.Err? then SetPhase(w, t, Compensating(cid, false))
    else
      var first := Live(w.db.uploads[tr.upload].status);
      if reply == AckLost then SetPhase(w, t, Compensating(cid, first)).(db := out.db)
      else
        var file := out.db.files[out.result.value];
        w.(db := out.db, transfers := w.transfers - {t},
           escaped := w.escaped + if first || (file.cid == cid && Referenced(file.status)) then {} else Carried(tr))
  }

  ghost function RecordNext(w: World, t: nat, stored: bool): World
    requires t in w.transfers && w.transfers[t].phase.Recording?
  {
    var tr := w.transfers[t];
    var cid := tr.phase.cid;
    var failed := tr.upload in w.db.uploads && w.db.uploads[tr.upload].status == Failed;
    if !stored then w.(transfers := w.transfers - {t}, escaped := w.escaped + Carried(tr))
    else
      var missed := if failed && !OrphanClosing(w, tr.upload, cid) then {} else Carried(tr);
      var overwritten := if failed && w.db.uploads[tr.upload].cid !in {NoCid, cid}
                         then {UploadRef(w.db.uploads[tr.upload])} else {};
      w.(db := Apply(w.db, TRecordOrphan(tr.upload, cid)), transfers := w.transfers - {t},
         escaped := w.escaped + missed + overwritten)
  }

  ghost function DeleteNext(w: World, h: nat, f: FileId): World
    requires f in w.db.files
  {
    var ref := FileRef(w.db.files[f]);
    var needed := Mark(w.db, f).result == Ok(true);
    var phase := if needed && ValidCid(ref.cid) then Unpinning else Closing(true);
    w.(db := Apply(w.db, TMark(f)), jobs := w.jobs[h := Job(DeleteRequest, f, ref, phase)])
  }

  ghost function CountNext(w: World, h: nat): World
    requires h in w.jobs
  {
    var job := w.jobs[h];
    var excluded := if job.kind == OrphanSweep then None else Some(job.target);
    if ActiveRefs(w.db, job.ref, excluded) != {} then SetJob(w, h, Closing(true)) else SetJob(w, h, Unpinning)
  }

  function UnpinNext(w: World, h: nat, reply: UnpinReply): World
    requires h in w.jobs
  {
    var job := w.jobs[h];
    var pinned := if reply == Refused then w.pinned else w.pinned - {job.ref};
    if reply == Removed then SetJob(w, h, Closing(true)).(pinned := pinned)
    else if job.kind == DeleteRequest then SetJob(w, h, Closing(false)).(pinned := pinned)
    else w.(jobs := w.jobs - {h}, pinned := pinned)
  }

  ghost function CloseNext(w: World, h: nat, stored: bool): World
    requires h in w.jobs && w.jobs[h].phase.Closing?
  {
    var job := w.jobs[h];
    if !stored then w.(jobs := w.jobs - {h})
    else if job.kind != OrphanSweep then
      w.(db := Apply(w.db, TFinalize(job.target, job.phase.unpinned)), jobs := w.jobs - {h})
    else
      var wiped := if OrphanListed(w.db, job.target) && w.db.uploads[job.target].cid != job.ref.cid
                   then {UploadRef(w.db.uploads[job.target])} else {};
      w.(db := Apply(w.db, TRecordOrphan(job.target, NoCid)), jobs := w.jobs - {h}, escaped := w.escaped + wiped)
  }

  /** A step that is not enabled leaves the world alone. */
  ghost function Next(w: World, s: Step): World {
    match s
    case Standalone(tx) => if IsStandalone(tx) then w.(db := Apply(w.db, tx)) else w
    case ExpireRow(u, now) =>
      if IsLive(w.db, u) && w.db.uploads[u].expiresAt < now then w.(db := Apply(w.db, TRelease(u, Expired))) else w
    case Begin(t, user, u) =>
      if t !in w.transfers && IsLive(w.db, u) && w.db.uploads[u].owner == user
      then w.(transfers := w.transfers[t := Transfer(u, user, w.db.uploads[u].node, Sending)]) else w
    case Reject(t, stored) =>
      if Sends(w, t)
      then w.(db := ReleasedIf(w.db, stored, w.transfers[t].upload), transfers := w.transfers - {t}) else w
    case PinContent(t, cid) =>
      if Sends(w, t) && ValidCid(cid)
      then SetPhase(w, t, Holding(cid)).(pinned := w.pinned + {PinRef(w.transfers[t].node, cid)}) else w
    case PinUnseen(t, cid, stored) =>
      if Sends(w, t)
      then var ref := PinRef(w.transfers[t].node, cid);
           w.(db := ReleasedIf(w.db, stored, w.transfers[t].upload), transfers := w.transfers - {t},
              pinned := w.pinned + {ref}, escaped := w.escaped + {ref})
      else w
    case CommitRow(t, reported, f, reply) =>
      if t in w.transfers && w.transfers[t].phase.Holding? then CommitNext(w, t, reported, f, reply) else w
    case Compensate(t, stored) =>
      if t in w.transfers && w.transfers[t].phase.Compensating?
      then var tr := w.transfers[t];
           if stored then SetPhase(w, t, Recording(tr.phase.cid, tr.phase.applied))
                          .(db := Apply(w.db, TRelease(tr.upload, Failed)))
           else w.(transfers := w.transfers - {t}, escaped := w.escaped + Carried(tr))
      else w
    case RecordRow(t, stored) =>
      if t in w.transfers && w.transfers[t].phase.Recording? then RecordNext(w, t, stored) else w
    case Lose(t) =>
      if t in w.transfers
      then w.(transfers := w.transfers - {t}, escaped := w.escaped + Carried(w.transfers[t])) else w
    case DeleteFile(h, f) => if h !in w.jobs && f in w.db.files then DeleteNext(w, h, f) else w
    case SweepFile(h, f) =>
      if h !in w.jobs && UnpinListed(w.db, f)
      then w.(jobs := w.jobs[h := Job(FileSweep, f, FileRef(w.db.files[f]), Counting)]) else w
    case SweepOrphan(h, u) =>
      if h !in w.jobs && OrphanListed(w.db, u)
      then w.(jobs := w.jobs[h := Job(OrphanSweep, u, UploadRef(w.db.uploads[u]), Counting)]) else w
    case CountRefs(h) => if h in w.jobs && w.jobs[h].phase == Counting then CountNext(w, h) else w
    case UnpinCid(h, reply) => if h in w.jobs && w.jobs[h].phase == Unpinning then UnpinNext(w, h, reply) else w
    case CloseJob(h, stored) => if h in w.jobs && w.jobs[h].phase.Closing? then CloseNext(w, h, stored) else w
    case Crash(h) => w.(jobs := w.jobs - {h})
  }

  ghost function Run(w: World, steps: seq<Step>): World
    decreases |steps|
  {
    if steps == [] then w else Run(Next(w, steps[0]), steps[1..])
  }

  // ---- Short runs -----------------------------------------------------------------------------------

  lemma {:induction false} RunSnoc(w: World, steps: seq<Step>, s: Step)
    ensures Run(w, steps + [s]) == Next(Run(w, steps), s)
    decreases |steps|
  {
    if steps != [] {
      assert (steps + [s])[1..] == steps[1..] + [s];
      RunSnoc(Next(w, steps[0]), steps[1..], s);
    }
  }

  lemma RunTwo(w: World, a: Step, b: Step)
    ensures Run(w, [a, b]) == Next(Next(w, a), b)
  {
    assert [a, b][1..] == [b];
    assert [b][1..] == [];
    assert Run(Next(w, a), [b]) == Run(Next(Next(w, a), b), []);
  }

  lemma RunThree(w: World, a: Step, b: Step, c: Step)
    ensures Run(w, [a, b, c]) == Next(Next(Next(w, a), b), c)
  {
    assert [a, b, c][1..] == [b, c];
    assert [b, c][1..] == [c];
    assert [c][1..] == [];
    assert Run(Next(Next(w, a), b), [c]) == Run(Next(Next(Next(w, a), b), c), []);
  }

  lemma RunFour(w: World, a: Step, b: Step, c: Step, d: Step)
    ensures Run(w, [a, b, c, d]) == Next(Next(Next(Next(w, a), b), c), d)
  {
    assert [a, b, c, d][1..] == [b, c, d];
    RunThree(Next(w, a), b, c, d);
  }

  lemma RunFive(w: World, a: Step, b: Step, c: Step, d: Step, e: Step)
    ensures Run(w, [a, b, c, d, e]) == Next(Next(Next(Next(Next(w, a), b), c), d), e)
  {
    assert [a, b, c, d, e][1..] == [b, c, d, e];
    RunFour(Next(w, a), b, c, d, e);
  }

  // ---- Coverage -----------------------------------------------------------------------------------

  datatype Cover = ByTransfer(t: nat) | ByFile(f: FileId) | ByUpload(u: UploadId)

  /** Someone will still unpin `ref` or still needs it: a transfer that carries it, a referenced file, a
      delete job that is not already being closed, or a failed upload still on the orphan list. */
  ghost predicate Covers(w: World, c: Cover, ref: PinRef) {
    match c
    case ByTransfer(t) => t in w.transfers && ref in Carried(w.transfers[t])
    case ByFile(f) =>
      && f in w.db.files && FileRef(w.db.files[f]) == ref
      && (Referenced(w.db.files[f].status) || (UnpinListed(w.db, f) && !FileClosing(w, f)))
    case ByUpload(u) =>
      OrphanListed(w.db, u) && UploadRef(w.db.uploads[u]) == ref && !OrphanClosing(w, u, ref.cid)
  }

  ghost predicate Covered(w: World, ref: PinRef) { exists c :: Covers(w, c, ref) }

  ghost predicate Accounted(w: World, ref: PinRef) { ref in w.pinned && ref !in w.escaped ==> Covered(w, ref) }

  predicate JobOk(w: World, h: nat) {
    h in w.jobs ==>
      var job := w.jobs[h];
      if job.kind == OrphanSweep
      then job.target in w.db.uploads && w.db.uploads[job.target].node == job.ref.node &&
           w.db.uploads[job.target].status == Failed
      else job.target in w.db.files && FileRef(w.db.files[job.target]) == job.ref &&
           !Referenced(w.db.files[job.target].status)
  }

  predicate TransferOk(w: World, t: nat) {
    t in w.transfers ==>
      var tr := w.transfers[t];
      && tr.upload in w.db.uploads && w.db.uploads[tr.upload].node == tr.node &&
        w.db.uploads[tr.upload].owner == tr.user
      && (tr.phase != Sending ==> ValidCid(tr.phase.cid))
      && ((tr.phase.Compensating? || tr.phase.Recording?) && tr.phase.applied ==>
            w.db.uploads[tr.upload].status == Committed)
  }

  predicate FileCidOk(db: Tables, f: FileId) {
    f in db.files ==> ValidCid(db.files[f].cid) && db.files[f].status != Unavailable
  }

  ghost predicate WorldInv(w: World) {
    && Inv(w.db)
    && (forall f :: FileCidOk(w.db, f))
    && (forall h :: JobOk(w, h))
    && (forall t :: TransferOk(w, t))
    && (forall ref :: Accounted(w, ref))
  }
}
