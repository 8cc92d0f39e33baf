/** The request handlers and the reconciliation loops, run start to finish without interference. Each one is
    a run of the pin state machine, so its safety and coverage theorems apply to it: whatever such a run can do
    to the tables and to the nodes' pins, a handler can do, and nothing else. */
module DropHandlers {
  import opened Wrappers
  import opened DropTables
  import opened DropLedger
  import opened DropUploads
  import opened DropPins
  import opened DropExpiry
  import opened JobQueue
  import opened DropStoreModel

  /** The nodes as the gateway sees them through upload and unpin calls. */
  class DropNodes {
    var pinned: set<PinRef>

    constructor ()
      ensures pinned == {}
    {
      pinned := {};
    }

    /** An unpin call; the answer is the node's, and a lost answer may still have removed the pin. */
    method Unpin(ref: PinRef, answer: UnpinReply) returns (ok: bool)
      modifies this
      ensures ok <==> answer == Removed
      ensures pinned == if answer == Refused then old(pinned) else old(pinned) - {ref}
    {
      if answer != Refused {
        pinned := pinned - {ref};
      }
      return answer == Removed;
    }
  }

  ghost function Quiet(db: Tables, pinned: set<PinRef>): World { World(db, pinned, map[], map[], {}) }

  ghost function WorldOf(store: DropStore, nodes: DropNodes): World
    reads store, nodes
  {
    Quiet(store.Snapshot(), nodes.pinned)
  }

  // ---- Delete request ------------------------------------------------------------------------------

  datatype DeleteStatus = FileMissing | DeleteFailed | StillPending | NowDeleted

  /** How the store answers a delete: whether the file loads, and what becomes of the two transactions. */
  datatype DeleteStore = DeleteStore(loads: bool, mark: CommitReply, close: CommitReply)

  function DeleteSteps(file: FileId, answer: UnpinReply, replies: DeleteStore): seq<Step> {
    if !replies.loads || replies.mark == RolledBack then []
    else if replies.mark == AckLost then [DeleteFile(0, file), Crash(0)]
    else [DeleteFile(0, file), UnpinCid(0, answer), CloseJob(0, replies.close != RolledBack)]
  }

  function FinalizeIf(db: Tables, stored: bool, file: FileId, unpinned: bool): Tables {
    if stored then Finalize(db, file, unpinned) else db
  }

  /** The job of a delete that was just marked. */
  lemma MarkLands(db: Tables, pinned: set<PinRef>, file: FileId)
    requires file in db.files && ValidCid(db.files[file].cid)
    ensures var job := Job(DeleteRequest, file, FileRef(db.files[file]), Counting);
            Next(Quiet(db, pinned), DeleteFile(0, file)) ==
              OneJob(Mark(db, file).db, pinned, job, if Mark(db, file).result == Ok(true) then Unpinning
                else Closing(true))
  {
  }

  lemma DeleteUnpinLands(db: Tables, pinned: set<PinRef>, job: Job, answer: UnpinReply)
    requires job.kind == DeleteRequest
    ensures var left := if answer == Refused then pinned else pinned - {job.ref};
            Next(OneJob(db, pinned, job, Unpinning), UnpinCid(0, answer)) ==
              OneJob(db, left, job, Closing(answer == Removed))
  {
    var jobs := map[0 := job.(phase := Unpinning)];
    assert jobs[0 := job.(phase := Closing(answer == Removed))] == map[0 := job.(phase := Closing(answer == Removed))];
  }

  /** What a delete whose marking is acknowledged does to the tables and the pins. */
  lemma DeleteEffect(db: Tables, pinned: set<PinRef>, file: FileId, answer: UnpinReply, replies: DeleteStore)
    requires file in db.files && ValidCid(db.files[file].cid) && replies.loads && replies.mark == Acked
    ensures var needed := Mark(db, file).result == Ok(true);
            Run(Quiet(db, pinned), DeleteSteps(file, answer, replies)) ==
              Quiet(FinalizeIf(Mark(db, file).db, replies.close != RolledBack, file, !needed || answer == Removed),
                    if needed && answer != Refused then pinned - {FileRef(db.files[file])} else pinned)
  {
    var job := Job(DeleteRequest, file, FileRef(db.files[file]), Counting);
    var marked := Mark(db, file).db;
    var stored := replies.close != RolledBack;
    RunThree(Quiet(db, pinned), DeleteFile(0, file), UnpinCid(0, answer), CloseJob(0, stored));
    MarkLands(db, pinned, file);
    if Mark(db, file).result == Ok(true) {
      DeleteUnpinLands(marked, pinned, job, answer);
      ClosesQuiet(marked, if answer == Refused then pinned else pinned - {job.ref}, job, answer == Removed, stored);
    } else {
      assert Next(OneJob(marked, pinned, job, Closing(true)), UnpinCid(0, answer)) ==
        OneJob(marked, pinned, job, Closing(true));
      ClosesQuiet(marked, pinned, job, true, stored);
    }
  }

  /** A marking that went through although its answer was lost: the handler gives up, and the file stays pending. */
  lemma MarkLostEffect(db: Tables, pinned: set<PinRef>, file: FileId)
    requires file in db.files && ValidCid(db.files[file].cid)
    ensures Run(Quiet(db, pinned), [DeleteFile(0, file), Crash(0)]) == Quiet(Mark(db, file).db, pinned)
  {
    RunTwo(Quiet(db, pinned), DeleteFile(0, file), Crash(0));
    MarkLands(db, pinned, file);
    var job := Job(DeleteRequest, file, FileRef(db.files[file]), Counting);
    assert OneJob(Mark(db, file).db, pinned, job, Unpinning).jobs - {0} == map[];
    assert OneJob(Mark(db, file).db, pinned, job, Closing(true)).jobs - {0} == map[];
  }

  lemma MissingFileIdle(db: Tables, pinned: set<PinRef>, file: FileId, answer: UnpinReply, replies: DeleteStore)
    requires file !in db.files
    ensures Run(Quiet(db, pinned), DeleteSteps(file, answer, replies)) == Quiet(db, pinned)
  {
    var w := Quiet(db, pinned);
    assert w.jobs - {0} == map[];
    if replies.loads && replies.mark == AckLost {
      RunTwo(w, DeleteFile(0, file), Crash(0));
    } else if replies.loads && replies.mark == Acked {
      RunThree(w, DeleteFile(0, file), UnpinCid(0, answer), CloseJob(0, replies.close != RolledBack));
    }
  }

  /** Authorisation aside: load, mark, unpin when asked, finalise; any failing store call ends it with an error. */
  method HandleDropDeleteFile(store: DropStore, nodes: DropNodes, file: FileId, answer: UnpinReply,
      replies: DeleteStore)
    returns (status: DeleteStatus)
    requires store.Valid() && FileCidOk(store.Snapshot(), file)
    modifies store, nodes
    ensures store.Valid()
    ensures WorldOf(store, nodes) == Run(old(WorldOf(store, nodes)), DeleteSteps(file, answer, replies))
    ensures status == FileMissing <==> replies.loads && file !in old(store.files)
    ensures status == NowDeleted ==> file in store.files && store.files[file].status == Deleted
    ensures status == StillPending ==> UnpinListed(store.Snapshot(), file)
    ensures status == DeleteFailed <==>
              !replies.loads || (file in old(store.files) && (replies.mark != Acked || replies.close != Acked))
  {
    if !replies.loads {
      return DeleteFailed;
    }
    if file !in store.files {
      MissingFileIdle(store.Snapshot(), nodes.pinned, file, answer, replies);
      return FileMissing;
    }
    if replies.mark == RolledBack {
      return DeleteFailed;
    }
    var ref := FileRef(store.files[file]);
    MarkLostEffect(store.Snapshot(), nodes.pinned, file);
    if replies.mark == AckLost {
      var lost := store.MarkDropFileDeletePending(file);
      return DeleteFailed;
    }
    DeleteEffect(store.Snapshot(), nodes.pinned, file, answer, replies);
    DeleteStatusEffect(store.Snapshot(), file, answer);
    var needed := store.MarkDropFileDeletePending(file);
    var unpinned := true;
    if needed == Ok(true) && ValidCid(ref.cid) {
      unpinned := nodes.Unpin(ref, answer);
    }
    if replies.close != RolledBack {
      store.FinalizeDropFileDeletion(file, unpinned);
    }
    return if replies.close != Acked then DeleteFailed else if unpinned then NowDeleted else StillPending;
  }

  /** The file ends deleted, or on the job list when an unpin was needed and not confirmed. */
  lemma DeleteStatusEffect(db: Tables, file: FileId, answer: UnpinReply)
    requires Inv(db) && file in db.files
    ensures var done := Mark(db, file).result != Ok(true) || answer == Removed;
            var next := Finalize(Mark(db, file).db, file, done);
            && (done ==> file in next.files && next.files[file].status == Deleted)
            && (!done ==> UnpinListed(next, file))
  {
    assert FileOk(db, file);
  }

  // ---- Content request -----------------------------------------------------------------------------

  /** What comes of the streamed content: nothing pinned, a pin the gateway never hears of, or an answer. */
  datatype PutAnswer = PutFailed | PutUnseen(cid: Cid) | PutPinned(cid: Cid, reported: int)

  datatype UploadReply = UploadMissing | NotAccepting | UploadFailed | Finished(file: FileId)

  /** How the store answers a content request: whether its reads work, and what becomes of the commit, of the release
      that follows a failure, and of recording the orphan CID. */
  datatype ContentStore = ContentStore(loads: bool, commit: CommitReply, releases: bool, records: bool)

  function ContentSteps(user: UserId, id: UploadId, put: PutAnswer, file: FileId, replies: ContentStore): seq<Step> {
    match put
    case PutFailed => [Begin(0, user, id), Reject(0, replies.releases)]
    case PutUnseen(cid) => [Begin(0, user, id), PinUnseen(0, cid, replies.releases)]
    case PutPinned(cid, reported) =>
      if ValidCid(cid) then
        [Begin(0, user, id), PinContent(0, cid), CommitRow(0, reported, file, replies.commit),
         Compensate(0, replies.releases), RecordRow(0, replies.records)]
      else [Begin(0, user, id), PinUnseen(0, cid, replies.releases)]
  }

  lemma BeginPinned(db: Tables, pinned: set<PinRef>, user: UserId, id: UploadId, cid: Cid)
    requires IsLive(db, id) && db.uploads[id].owner == user && ValidCid(cid)
    ensures var held := Transfer(id, user, db.uploads[id].node, Holding(cid));
            Next(Next(Quiet(db, pinned), Begin(0, user, id)), PinContent(0, cid)) ==
              Quiet(db, pinned + {PinRef(held.node, cid)}).(transfers := map[0 := held])
  {
  }

  /** What a pinned upload of a live reservation ends in. */
  ghost function ContentTables(db: Tables, user: UserId, id: UploadId, cid: Cid, reported: int, file: FileId,
                               replies: ContentStore): Tables
  {
    if replies.commit == RolledBack then OrphanRecorded(db, id, cid, replies.releases, replies.records)
    else Commit(db, user, id, cid, reported, file).db
  }

  /** The end of the only transfer, once it holds its pin. */
  lemma HeldEffect(w: World, held: Transfer, cid: Cid, reported: int, file: FileId, replies: ContentStore)
    requires Inv(w.db) && w.jobs == map[] && w.escaped == {} && w.transfers == map[0 := held] &&
        held.phase == Holding(cid)
    requires IsLive(w.db, held.upload) && w.db.uploads[held.upload].owner == held.user && file !in w.db.files
    ensures var a, b, c := CommitRow(0, reported, file, replies.commit), Compensate(0, replies.releases),
        RecordRow(0, replies.records);
            Next(Next(Next(w, a), b), c) ==
              w.(transfers := map[],
                 db := ContentTables(w.db, held.user, held.upload, cid, reported, file, replies),
                 escaped := if replies.commit == RolledBack && !(replies.releases && replies.records)
                            then {PinRef(held.node, cid)} else {})
  {
    CommitReplies(w, held, reported, file, replies.commit);
    assert UploadOk(w.db.uploads[held.upload]);
    if replies.commit != Acked {
      CompensationEffect(Next(w, CommitRow(0, reported, file, replies.commit)), 0, held.upload, cid,
                         replies.commit == AckLost, replies.releases, replies.records);
    }
  }

  /** A pinned upload of a live reservation either becomes a file, or leaves its CID on the orphan list; when the
      commit was rolled back and the compensation is not stored in full, the pin is among the losses. */
  lemma ContentEffect(db: Tables, pinned: set<PinRef>, user: UserId, id: UploadId, cid: Cid, reported: int,
                      file: FileId, replies: ContentStore)
    requires Inv(db) && IsLive(db, id) && db.uploads[id].owner == user && ValidCid(cid) && file !in db.files
    ensures var w := Run(Quiet(db, pinned), ContentSteps(user, id, PutPinned(cid, reported), file, replies));
            var ref := PinRef(db.uploads[id].node, cid);
            && w.db == ContentTables(db, user, id, cid, reported, file, replies)
            && w.escaped == (if replies.commit == RolledBack && !(replies.releases && replies.records) then {ref}
              else {})
            && w == Quiet(w.db, pinned + {ref}).(escaped := w.escaped)
  {
    var w0 := Quiet(db, pinned);
    RunFive(w0, Begin(0, user, id), PinContent(0, cid), CommitRow(0, reported, file, replies.commit),
            Compensate(0, replies.releases), RecordRow(0, replies.records));
    var held := Transfer(id, user, db.uploads[id].node, Holding(cid));
    var w2 := Quiet(db, pinned + {PinRef(held.node, cid)}).(transfers := map[0 := held]);
    BeginPinned(db, pinned, user, id, cid);
    HeldEffect(w2, held, cid, reported, file, replies);
  }

  /** The three replies to the commit of a live reservation by the only transfer. */
  lemma CommitReplies(w: World, held: Transfer, reported: int, file: FileId, reply: CommitReply)
    requires w.transfers == map[0 := held] && held.phase.Holding?
    requires IsLive(w.db, held.upload) && w.db.uploads[held.upload].owner == held.user && file !in w.db.files
    ensures Next(w, CommitRow(0, reported, file, reply)) ==
              w.(db := if reply == RolledBack then w.db
                       else Commit(w.db, held.user, held.upload, held.phase.cid, reported, file).db,
                 transfers := if reply == Acked then map[]
                              else map[0 := held.(phase := Compensating(held.phase.cid, reply == AckLost))])
  {
    assert w.transfers - {0} == map[];
  }

  /** Compensation on its own releases a live row and records the CID, as far as its two transactions are stored, and
      does nothing to a committed one. */
  lemma CompensationEffect(w: World, t: nat, id: UploadId, cid: Cid, applied: bool, releases: bool, records: bool)
    requires w.transfers.Keys == {t} && w.transfers[t].phase == Compensating(cid, applied) &&
        w.transfers[t].upload == id
    requires id in w.db.uploads && w.jobs == map[] && w.escaped == {}
    requires if applied then w.db.uploads[id].status == Committed
             else Live(w.db.uploads[id].status) && w.db.uploads[id].cid == NoCid
    ensures var next := Next(Next(w, Compensate(t, releases)), RecordRow(t, records));
            next == w.(transfers := map[],
                       db := if applied then w.db else OrphanRecorded(w.db, id, cid, releases, records),
                       escaped := if applied || (releases && records) then {} else {PinRef(w.transfers[t].node, cid)})
  {
    var next := Next(Next(w, Compensate(t, releases)), RecordRow(t, records));
    assert next.transfers == map[];
  }

  lemma RejectEffect(db: Tables, pinned: set<PinRef>, user: UserId, id: UploadId, releases: bool)
    requires IsLive(db, id) && db.uploads[id].owner == user
    ensures Run(Quiet(db, pinned), [Begin(0, user, id), Reject(0, releases)]) ==
              Quiet(if releases then Release(db, id, Failed).db else db, pinned)
  {
    RunTwo(Quiet(db, pinned), Begin(0, user, id), Reject(0, releases));
    var begun := Quiet(db, pinned).(transfers := map[0 := Transfer(id, user, db.uploads[id].node, Sending)]);
    assert Next(Quiet(db, pinned), Begin(0, user, id)) == begun;
    assert begun.transfers - {0} == map[];
  }

  lemma UnseenEffect(db: Tables, pinned: set<PinRef>, user: UserId, id: UploadId, cid: Cid, releases: bool)
    requires IsLive(db, id) && db.uploads[id].owner == user
    ensures var ref := PinRef(db.uploads[id].node, cid);
            Run(Quiet(db, pinned), [Begin(0, user, id), PinUnseen(0, cid, releases)]) ==
              Quiet(if releases then Release(db, id, Failed).db else db, pinned + {ref}).(escaped := {ref})
  {
    RunTwo(Quiet(db, pinned), Begin(0, user, id), PinUnseen(0, cid, releases));
    var begun := Quiet(db, pinned).(transfers := map[0 := Transfer(id, user, db.uploads[id].node, Sending)]);
    assert Next(Quiet(db, pinned), Begin(0, user, id)) == begun;
    assert begun.transfers - {0} == map[];
  }

  /** The node's part of a content request. */
  function PinsLeft(node: NodeId, put: PutAnswer): set<PinRef> {
      if put.PutFailed? then {} else {PinRef(node, put.cid)} }

  /** Streams the content to the node and commits, or compensates as far as the store lets it. `usable` stands for the
      checks of the node and its endpoint. */
  method HandleDropUploadContent(store: DropStore, nodes: DropNodes, user: UserId, id: UploadId, usable: bool,
                                 put: PutAnswer, newFile: FileId, replies: ContentStore)
    returns (r: UploadReply)
    requires store.Valid() && newFile !in store.files
    modifies store, nodes
    ensures store.Valid()
    ensures !replies.loads ==> r == UploadFailed && WorldOf(store, nodes) == old(WorldOf(store, nodes))
    ensures replies.loads && (id !in old(store.uploads) || old(store.uploads)[id].owner != user) ==>
              r == UploadMissing && WorldOf(store, nodes) == old(WorldOf(store, nodes))
    ensures replies.loads && id in old(store.uploads) && old(store.uploads)[id].owner == user &&
            !Live(old(store.uploads)[id].status) ==>
              && WorldOf(store, nodes) == old(WorldOf(store, nodes))
              && (r.Finished? <==> old(store.uploads)[id].status == Committed)
              && (r.Finished? ==> IsFileOf(store.Snapshot(), r.file, id))
    ensures replies.loads && old(IsLive(store.Snapshot(), id)) && old(store.uploads)[id].owner == user ==>
              if !usable then r == NotAccepting && WorldOf(store, nodes) == old(WorldOf(store, nodes))
              else
                && WorldOf(store, nodes) ==
                     Run(old(WorldOf(store, nodes)), ContentSteps(user, id, put, newFile, replies)).(escaped := {})
                && (r == Finished(newFile) <==> put.PutPinned? && ValidCid(put.cid) && replies.commit == Acked)
  {
    if !replies.loads {
      return UploadFailed;
    }
    if id !in store.uploads || store.uploads[id].owner != user {
      return UploadMissing;
    }
    var row := store.uploads[id];
    if row.status == Committed {
      assert CommitHasFile(store.Snapshot(), id);
      var f := store.FileByUpload(id);
      return Finished(f.value);
    }
    if !Live(row.status) || !usable {
      return NotAccepting;
    }
    if !put.PutPinned? || !ValidCid(put.cid) {
      RejectEffect(store.Snapshot(), nodes.pinned, user, id, replies.releases);
      if !put.PutFailed? { UnseenEffect(store.Snapshot(), nodes.pinned, user, id, put.cid, replies.releases); }
      nodes.pinned := nodes.pinned + PinsLeft(row.node, put);
      if replies.releases {
        var released := store.ReleaseDropReservation(id, Some(Failed));
      }
      return UploadFailed;
    }
    ContentEffect(store.Snapshot(), nodes.pinned, user, id, put.cid, put.reported, newFile, replies);
    nodes.pinned := nodes.pinned + {PinRef(row.node, put.cid)};
    if replies.commit != RolledBack {
      var committed := store.CommitDropUpload(user, id, put.cid, put.reported, newFile);
      if replies.commit == Acked {
        return Finished(committed.value);
      }
    }
    var cleaned := store.FailDropUploadWithOrphanPin(id, put.cid, replies.releases, replies.records);
    return UploadFailed;
  }

  // ---- Reconciliation ------------------------------------------------------------------------------

  /** What becomes of one job of a loop: its references cannot be counted, or they are, and then the node's answer to
      an unpin, should one be needed, and whether the closing transaction is stored. */
  datatype Sweep = CountFails | Counted(answer: UnpinReply, stored: bool)

  function SweepSteps(first: Step, sweep: Sweep): seq<Step> {
    match sweep
    case CountFails => [first, Crash(0)]
    case Counted(answer, stored) => [first, CountRefs(0), UnpinCid(0, answer), CloseJob(0, stored)]
  }

  function FileSweepSteps(file: FileId, sweep: Sweep): seq<Step> { SweepSteps(SweepFile(0, file), sweep) }

  function OrphanSweepSteps(upload: UploadId, sweep: Sweep): seq<Step> { SweepSteps(SweepOrphan(0, upload), sweep) }

  ghost function SweepFiles(w: World, jobs: seq<FileId>, sweeps: FileId -> Sweep): World
    decreases |jobs|
  {
    if jobs == [] then w
    else
      var f := jobs[|jobs| - 1];
      Run(SweepFiles(w, jobs[..|jobs| - 1], sweeps), FileSweepSteps(f, sweeps(f)))
  }

  ghost function SweepOrphans(w: World, jobs: seq<UploadId>, sweeps: UploadId -> Sweep): World
    decreases |jobs|
  {
    if jobs == [] then w
    else
      var u := jobs[|jobs| - 1];
      Run(SweepOrphans(w, jobs[..|jobs| - 1], sweeps), OrphanSweepSteps(u, sweeps(u)))
  }

  ghost predicate Shared(db: Tables, job: Job) {
    ActiveRefs(db, job.ref, if job.kind == OrphanSweep then None else Some(job.target)) != {}
  }

  predicate SweepsCurrentRow(db: Tables, job: Job) {
    && job.kind != DeleteRequest
    && (job.kind == OrphanSweep ==> OrphanListed(db, job.target) && db.uploads[job.target].cid == job.ref.cid)
  }

  function Closed(db: Tables, job: Job): Tables {
    if job.kind == OrphanSweep then ClearOrphan(db, job.target) else Finalize(db, job.target, true)
  }

  /** The quiet world with its only job in the given phase. */
  ghost function OneJob(db: Tables, pinned: set<PinRef>, job: Job, phase: JobPhase): World {
    Quiet(db, pinned).(jobs := map[0 := job.(phase := phase)])
  }

  lemma CountLands(db: Tables, pinned: set<PinRef>, job: Job)
    requires SweepsCurrentRow(db, job) && job.phase == Counting
    ensures Next(OneJob(db, pinned, job, Counting), CountRefs(0)) ==
              OneJob(db, pinned, job, if Shared(db, job) then Closing(true) else Unpinning)
  {
    var w := OneJob(db, pinned, job, Counting);
    assert Next(w, CountRefs(0)) == SetJob(w, 0, if Shared(db, job) then Closing(true) else Unpinning);
  }

  /** A counted sweep is finished when its closing is stored and either its CID is still used or the node confirmed the
      unpin; it unpins only a CID that is no longer used. */
  predicate Finishes(shared: bool, sweep: Sweep) {
    sweep.Counted? && sweep.stored && (shared || sweep.answer == Removed)
  }

  predicate Unpins(shared: bool, sweep: Sweep) { sweep.Counted? && !shared && sweep.answer != Refused }

  lemma SweepTail(db: Tables, pinned: set<PinRef>, job: Job, answer: UnpinReply, stored: bool)
    requires SweepsCurrentRow(db, job) && job.phase == Counting
    ensures var shared := Shared(db, job);
            Next(Next(Next(OneJob(db, pinned, job, Counting), CountRefs(0)), UnpinCid(0, answer)),
              CloseJob(0, stored)) ==
              Quiet(if Finishes(shared, Counted(answer, stored)) then Closed(db, job) else db,
                    if Unpins(shared, Counted(answer, stored)) then pinned - {job.ref} else pinned)
  {
    CountLands(db, pinned, job);
    if Shared(db, job) {
      var w := OneJob(db, pinned, job, Closing(true));
      assert Next(w, UnpinCid(0, answer)) == w;
      ClosesQuiet(db, pinned, job, true, stored);
    } else {
      UnpinLands(db, pinned, job, answer);
      if answer == Removed { ClosesQuiet(db, pinned - {job.ref}, job, true, stored); }
    }
  }

  lemma UncountedSweep(db: Tables, pinned: set<PinRef>, first: Step, job: Job)
    requires Next(Quiet(db, pinned), first) == OneJob(db, pinned, job, Counting)
    ensures Run(Quiet(db, pinned), [first, Crash(0)]) == Quiet(db, pinned)
  {
    RunTwo(Quiet(db, pinned), first, Crash(0));
    assert OneJob(db, pinned, job, Counting).jobs - {0} == map[];
  }

  /** A whole sweep from a quiet world. */
  lemma SweepEffect(db: Tables, pinned: set<PinRef>, first: Step, job: Job, sweep: Sweep)
    requires SweepsCurrentRow(db, job) && job.phase == Counting
    requires Next(Quiet(db, pinned), first) == OneJob(db, pinned, job, Counting)
    ensures var shared := Shared(db, job);
            Run(Quiet(db, pinned), SweepSteps(first, sweep)) ==
              Quiet(if Finishes(shared, sweep) then Closed(db, job) else db,
                    if Unpins(shared, sweep) then pinned - {job.ref} else pinned)
  {
    if sweep.CountFails? {
      UncountedSweep(db, pinned, first, job);
    } else {
      RunFour(Quiet(db, pinned), first, CountRefs(0), UnpinCid(0, sweep.answer), CloseJob(0, sweep.stored));
      SweepTail(db, pinned, job, sweep.answer, sweep.stored);
    }
  }

  /** The node's answer to the only job: confirmed, the job goes on to close; otherwise the job is dropped. */
  lemma UnpinLands(db: Tables, pinned: set<PinRef>, job: Job, answer: UnpinReply)
    requires job.kind != DeleteRequest
    ensures var left := if answer == Refused then pinned else pinned - {job.ref};
            Next(OneJob(db, pinned, job, Unpinning), UnpinCid(0, answer)) ==
              if answer == Removed then OneJob(db, left, job, Closing(true)) else Quiet(db, left)
  {
    var jobs := map[0 := job.(phase := Unpinning)];
    assert jobs - {0} == map[];
    assert jobs[0 := job.(phase := Closing(true))] == map[0 := job.(phase := Closing(true))];
  }

  /** Closing the only job of a quiet world, if that is stored. */
  lemma ClosesQuiet(db: Tables, pinned: set<PinRef>, job: Job, unpinned: bool, stored: bool)
    requires job.kind == OrphanSweep ==> OrphanListed(db, job.target) && db.uploads[job.target].cid == job.ref.cid
    ensures Next(OneJob(db, pinned, job, Closing(unpinned)), CloseJob(0, stored)) ==
              Quiet(if !stored then db else if job.kind == OrphanSweep then ClearOrphan(db, job.target)
                    else Finalize(db, job.target, unpinned), pinned)
  {
    assert OneJob(db, pinned, job, Closing(unpinned)).jobs - {0} == map[];
  }

  ghost predicate FileShared(db: Tables, f: FileId)
    requires f in db.files
  {
    ActiveRefs(db, FileRef(db.files[f]), Some(f)) != {}
  }

  ghost predicate OrphanShared(db: Tables, u: UploadId)
    requires u in db.uploads
  {
    ActiveRefs(db, UploadRef(db.uploads[u]), None) != {}
  }

  /** What one file job does: it is finished when another file uses the CID or the node confirmed the unpin. */
  lemma FileSweepEffect(db: Tables, pinned: set<PinRef>, f: FileId, sweep: Sweep)
    requires UnpinListed(db, f)
    ensures var shared := FileShared(db, f);
            Run(Quiet(db, pinned), FileSweepSteps(f, sweep)) ==
              Quiet(if Finishes(shared, sweep) then Finalize(db, f, true) else db,
                    if Unpins(shared, sweep) then pinned - {FileRef(db.files[f])} else pinned)
  {
    var job := Job(FileSweep, f, FileRef(db.files[f]), Counting);
    assert Quiet(db, pinned).jobs[0 := job] == map[0 := job];
    SweepEffect(db, pinned, SweepFile(0, f), job, sweep);
  }

  lemma OrphanSweepEffect(db: Tables, pinned: set<PinRef>, u: UploadId, sweep: Sweep)
    requires OrphanListed(db, u)
    ensures var shared := OrphanShared(db, u);
            Run(Quiet(db, pinned), OrphanSweepSteps(u, sweep)) ==
              Quiet(if Finishes(shared, sweep) then ClearOrphan(db, u) else db,
                    if Unpins(shared, sweep) then pinned - {UploadRef(db.uploads[u])} else pinned)
  {
    var job := Job(OrphanSweep, u, UploadRef(db.uploads[u]), Counting);
    assert Quiet(db, pinned).jobs[0 := job] == map[0 := job];
    SweepEffect(db, pinned, SweepOrphan(0, u), job, sweep);
  }

  /** One file job of the loop; other listed jobs stay listed. */
  method ReconcileFile(store: DropStore, nodes: DropNodes, f: FileId, sweep: Sweep)
    requires store.Valid() && UnpinListed(store.Snapshot(), f)
    modifies store, nodes
    ensures store.Valid()
    ensures WorldOf(store, nodes) == Run(old(WorldOf(store, nodes)), FileSweepSteps(f, sweep))
    ensures forall k | k != f && UnpinListed(old(store.Snapshot()), k) :: UnpinListed(store.Snapshot(), k)
  {
    FileSweepEffect(store.Snapshot(), nodes.pinned, f, sweep);
    if sweep.CountFails? { return; }
    var ref := FileRef(store.files[f]);
    var refs := store.CountActivePinRefs(ref, Some(f));
    var done := refs > 0;
    if !done {
      done := nodes.Unpin(ref, sweep.answer);
    }
    if done && sweep.stored {
      store.FinalizeDropFileDeletion(f, true);
    }
  }

  /** One orphan job of the loop; other listed jobs stay listed. */
  method ReconcileOrphan(store: DropStore, nodes: DropNodes, u: UploadId, sweep: Sweep)
    requires store.Valid() && OrphanListed(store.Snapshot(), u)
    modifies store, nodes
    ensures store.Valid()
    ensures WorldOf(store, nodes) == Run(old(WorldOf(store, nodes)), OrphanSweepSteps(u, sweep))
    ensures forall k | k != u && OrphanListed(old(store.Snapshot()), k) :: OrphanListed(store.Snapshot(), k)
  {
    OrphanSweepEffect(store.Snapshot(), nodes.pinned, u, sweep);
    if sweep.CountFails? { return; }
    var ref := UploadRef(store.uploads[u]);
    var refs := store.CountActivePinRefs(ref, None);
    var done := refs > 0;
    if !done {
      done := nodes.Unpin(ref, sweep.answer);
    }
    if done && sweep.stored {
      store.ClearDropUploadOrphanPin(u);
    }
  }

  method ReconcileFiles(store: DropStore, nodes: DropNodes, jobs: seq<FileId>, sweeps: FileId -> Sweep)
    requires store.Valid() && Distinct(jobs)
    requires forall i | 0 <= i < |jobs| :: UnpinListed(store.Snapshot(), jobs[i])
    modifies store, nodes
    ensures store.Valid()
    ensures WorldOf(store, nodes) == SweepFiles(old(WorldOf(store, nodes)), jobs, sweeps)
  {
    for i := 0 to |jobs|
      invariant store.Valid()
      invariant forall k | i <= k < |jobs| :: UnpinListed(store.Snapshot(), jobs[k])
      invariant WorldOf(store, nodes) == SweepFiles(old(WorldOf(store, nodes)), jobs[..i], sweeps)
    {
      assert jobs[..i + 1][..i] == jobs[..i];
      ReconcileFile(store, nodes, jobs[i], sweeps(jobs[i]));
    }
    assert jobs[..|jobs|] == jobs;
  }

  method ReconcileOrphans(store: DropStore, nodes: DropNodes, jobs: seq<UploadId>, sweeps: UploadId -> Sweep)
    requires store.Valid() && Distinct(jobs)
    requires forall i | 0 <= i < |jobs| :: OrphanListed(store.Snapshot(), jobs[i])
    modifies store, nodes
    ensures store.Valid()
    ensures WorldOf(store, nodes) == SweepOrphans(old(WorldOf(store, nodes)), jobs, sweeps)
  {
    for i := 0 to |jobs|
      invariant store.Valid()
      invariant forall k | i <= k < |jobs| :: OrphanListed(store.Snapshot(), jobs[k])
      invariant WorldOf(store, nodes) == SweepOrphans(old(WorldOf(store, nodes)), jobs[..i], sweeps)
    {
      assert jobs[..i + 1][..i] == jobs[..i];
      ReconcileOrphan(store, nodes, jobs[i], sweeps(jobs[i]));
    }
    assert jobs[..|jobs|] == jobs;
  }

  /** How one job of a loop goes: what becomes of it when there is time enough, how long that takes, and what the node
      does should the deadline of the pass come first. A node that never answers takes the whole pass. */
  datatype Handling = Handling(sweep: Sweep, time: nat, late: UnpinReply)

  /** From the deadline on every store call fails; a job cut off by it is not closed. */
  function Handled(h: Handling, start: nat, budget: nat): Sweep {
    if start + h.time < budget then h.sweep
    else if start >= budget || h.sweep.CountFails? then CountFails
    else Counted(h.late, false)
  }

  function Times(handling: nat -> Handling): nat -> nat { (j: nat) => handling(j).time }

  /** What becomes of the jobs of a page that has this much time. */
  function Sweeps(page: seq<nat>, handling: nat -> Handling, budget: nat): nat -> Sweep {
    (j: nat) => Handled(handling(j), StartOf(page, Times(handling), j), budget)
  }

  /** What a page leaves of the time. */
  function Rest(budget: nat, page: seq<nat>, handling: nat -> Handling): nat {
    var spent := TimeOf(page, Times(handling));
    if spent < budget then budget - spent else 0
  }

  /** What a pass works on: the updated_at columns, whether its two queries work, the time left until the deadline that
      both loops share, and how each job goes. */
  datatype PassInput = PassInput(pinStamp: FileId -> int, uploadStamp: UploadId -> int, filesListed: bool,
                                 orphansListed: bool, budget: nat, files: FileId -> Handling,
                                 orphans: UploadId -> Handling)

  /** A list of at most twenty jobs, oldest first; empty when the query fails or there is no time left for it. */
  ghost predicate Listing(all: set<nat>, stamp: nat -> int, listed: bool, budget: nat, jobs: seq<nat>) {
    if listed && budget > 0 then IsPage(all, stamp, 20, jobs) else jobs == []
  }

  /** One maintenance pass over both job lists, the oldest twenty jobs of each, under one deadline. */
  method ReconcileDropPins(store: DropStore, nodes: DropNodes, pass: PassInput)
    returns (fileJobs: seq<FileId>, orphanJobs: seq<UploadId>)
    requires store.Valid()
    modifies store, nodes
    ensures store.Valid()
    ensures Listing(UnpinJobs(old(store.Snapshot())), pass.pinStamp, pass.filesListed, pass.budget, fileJobs)
    ensures var left := Rest(pass.budget, fileJobs, pass.files);
            var swept := SweepFiles(old(WorldOf(store, nodes)), fileJobs, Sweeps(fileJobs, pass.files, pass.budget));
            && Listing(OrphanJobs(swept.db), pass.uploadStamp, pass.orphansListed, left, orphanJobs)
            && WorldOf(store, nodes) == SweepOrphans(swept, orphanJobs, Sweeps(orphanJobs, pass.orphans, left))
  {
    fileJobs, orphanJobs := [], [];
    if pass.filesListed && pass.budget > 0 {
      fileJobs := store.ListPendingDropUnpins(20, pass.pinStamp);
      assert forall i | 0 <= i < |fileJobs| :: fileJobs[i] in UnpinJobs(store.Snapshot());
      ReconcileFiles(store, nodes, fileJobs, Sweeps(fileJobs, pass.files, pass.budget));
    }
    var left := Rest(pass.budget, fileJobs, pass.files);
    if pass.orphansListed && left > 0 {
      orphanJobs := store.ListPendingDropOrphanPins(20, pass.uploadStamp);
      assert forall i | 0 <= i < |orphanJobs| :: orphanJobs[i] in OrphanJobs(store.Snapshot());
      ReconcileOrphans(store, nodes, orphanJobs, Sweeps(orphanJobs, pass.orphans, left));
    }
  }
}
