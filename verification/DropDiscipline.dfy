/** No unpin work is lost when transfers are disciplined. */
module DropDiscipline {
  import opened DropTables
  import opened DropLedger
  import opened DropUploads
  import opened DropPins
  import opened DropCoverage

  ghost predicate NoTransferOn(w: World, u: UploadId) {
    forall t | t in w.transfers :: w.transfers[t].upload != u
  }

  /** One transfer per upload, ended before its reservation expires; the node's answer arrives with a valid
      CID, and the cleanup of a failed commit reaches the database. */
  ghost predicate Disciplined(w: World, s: Step) {
    match s
    case Begin(_, _, u) => NoTransferOn(w, u)
    case ExpireRow(u, _) => NoTransferOn(w, u)
    case PinUnseen(_, _, _) => false
    case Compensate(_, stored) => stored
    case RecordRow(_, stored) => stored
    case Lose(t) => t in w.transfers ==> Carried(w.transfers[t]) == {}
    case _ => true
  }

  ghost predicate DisciplinedRun(w: World, steps: seq<Step>)
    decreases |steps|
  {
    steps == [] || (Disciplined(w, steps[0]) && DisciplinedRun(Next(w, steps[0]), steps[1..]))
  }

  // ---- What discipline keeps -----------------------------------------------------------------------

  predicate SameTarget(w: World, a: nat, b: nat) {
    a in w.transfers && b in w.transfers && w.transfers[a].upload == w.transfers[b].upload
  }

  /** The reservation's row is where its only transfer left it. */
  predicate RowAwaits(w: World, t: nat) {
    t in w.transfers && w.transfers[t].upload in w.db.uploads ==>
      var row := w.db.uploads[w.transfers[t].upload];
      match w.transfers[t].phase
      case Recording(_, applied) => if applied then row.status == Committed
        else row.status == Failed && row.cid == NoCid
      case Compensating(_, applied) => if applied then row.status == Committed else Live(row.status)
      case _ => Live(row.status)
  }

  predicate SweepsApart(w: World, h: nat, t: nat) {
    h in w.jobs && t in w.transfers && w.jobs[h].kind == OrphanSweep ==> w.jobs[h].target != w.transfers[t].upload
  }

  /** A sweep of a failed row looks at the CID the row carries. */
  predicate SweepCurrent(w: World, h: nat) {
    h in w.jobs && w.jobs[h].kind == OrphanSweep && OrphanListed(w.db, w.jobs[h].target) ==>
      w.jobs[h].ref == UploadRef(w.db.uploads[w.jobs[h].target])
  }

  ghost predicate DisciplineInv(w: World) {
    && (forall a, b :: SameTarget(w, a, b) ==> a == b)
    && (forall t :: RowAwaits(w, t))
    && (forall h, t :: SweepsApart(w, h, t))
    && (forall h :: SweepCurrent(w, h))
    && w.escaped == {}
  }

  predicate SameRow(db: Tables, next: Tables, u: UploadId) {
    u in db.uploads ==>
      u in next.uploads && next.uploads[u].status == db.uploads[u].status && next.uploads[u].cid == db.uploads[u].cid &&
      next.uploads[u].node == db.uploads[u].node
  }

  predicate Targets(tx: Tx, u: UploadId) {
    (tx.TCommit? || tx.TRelease? || tx.TRecordOrphan?) && tx.uploadId == u
  }

  lemma UntargetedRow(db: Tables, tx: Tx, u: UploadId)
    requires !Targets(tx, u)
    ensures SameRow(db, Apply(db, tx), u)
  {
    if tx.TReserve? {
      ReserveEvolves(db, tx.input, tx.limit, tx.uploadId, tx.now, u);
    }
  }

  /** A step that writes at most the row `u`, moves at most the transfer on `u`, starts no transfer and no
      orphan sweep, and leaves that row and transfer matched. */
  lemma DisciplineFrame(w: World, next: World, u: UploadId)
    requires WorldInv(w) && DisciplineInv(w) && next.escaped == {}
    requires forall t | t in next.transfers ::
               t in w.transfers && next.transfers[t].upload == w.transfers[t].upload &&
               (w.transfers[t].upload != u ==> next.transfers[t] == w.transfers[t])
    requires forall h | h in next.jobs && next.jobs[h].kind == OrphanSweep ::
               h in w.jobs && w.jobs[h].kind == OrphanSweep && next.jobs[h].target == w.jobs[h].target &&
               next.jobs[h].ref == w.jobs[h].ref
    requires forall v | v != u :: SameRow(w.db, next.db, v)
    requires forall t | t in next.transfers && next.transfers[t].upload == u :: RowAwaits(next, t)
    requires forall h | h in next.jobs && next.jobs[h].target == u :: SweepCurrent(next, h)
    ensures DisciplineInv(next)
  {
    forall a, b | SameTarget(next, a, b) ensures a == b { assert SameTarget(w, a, b); }
    forall t ensures RowAwaits(next, t) {
      assert RowAwaits(w, t) && TransferOk(w, t);
      if t in next.transfers {
        assert next.transfers[t].upload != u ==> SameRow(w.db, next.db, next.transfers[t].upload); }
    }
    forall h, t ensures SweepsApart(next, h, t) { assert SweepsApart(w, h, t); }
    forall h ensures SweepCurrent(next, h) {
      assert SweepCurrent(w, h) && JobOk(w, h);
      if h in next.jobs { assert next.jobs[h].target != u ==> SameRow(w.db, next.db, next.jobs[h].target); }
    }
  }

  lemma TableStepDisciplined(w: World, tx: Tx, u: UploadId)
    requires WorldInv(w) && DisciplineInv(w)
    requires (IsStandalone(tx) && tx.TReserve?) || !tx.TReserve?
    requires Targets(tx, u) ==> NoTransferOn(w, u) && tx.TRelease?
    requires forall v | v != u :: !Targets(tx, v)
    ensures DisciplineInv(w.(db := Apply(w.db, tx)))
  {
    var next := w.(db := Apply(w.db, tx));
    forall v | v != u ensures SameRow(w.db, next.db, v) { UntargetedRow(w.db, tx, v); }
    forall t | t in next.transfers && next.transfers[t].upload == u ensures RowAwaits(next, t) {
      assert RowAwaits(w, t) && TransferOk(w, t);
      UntargetedRow(w.db, tx, u);
    }
    forall h | h in next.jobs && next.jobs[h].target == u ensures SweepCurrent(next, h) {
      assert SweepCurrent(w, h) && JobOk(w, h);
      if !Targets(tx, u) { UntargetedRow(w.db, tx, u); }
    }
    DisciplineFrame(w, next, u);
  }

  lemma BeginDisciplined(w: World, t: nat, user: UserId, u: UploadId)
    requires WorldInv(w) && DisciplineInv(w) && NoTransferOn(w, u)
    ensures DisciplineInv(Next(w, Begin(t, user, u)))
  {
    var next := Next(w, Begin(t, user, u));
    if next != w {
      forall a, b | SameTarget(next, a, b) ensures a == b {
        assert a != t && b != t ==> SameTarget(w, a, b);
      }
      forall i ensures RowAwaits(next, i) { assert RowAwaits(w, i); }
      forall h, i ensures SweepsApart(next, h, i) { assert SweepsApart(w, h, i) && JobOk(w, h); }
      forall h ensures SweepCurrent(next, h) { assert SweepCurrent(w, h); }
    }
  }

  lemma SweepOrphanDisciplined(w: World, h: nat, u: UploadId)
    requires WorldInv(w) && DisciplineInv(w)
    ensures DisciplineInv(Next(w, SweepOrphan(h, u)))
  {
    var next := Next(w, SweepOrphan(h, u));
    if next != w {
      forall a, b | SameTarget(next, a, b) ensures a == b { assert SameTarget(w, a, b); }
      forall t ensures RowAwaits(next, t) { assert RowAwaits(w, t); }
      forall i, t ensures SweepsApart(next, i, t) {
        assert SweepsApart(w, i, t) && RowAwaits(w, t) && TransferOk(w, t);
      }
      forall i ensures SweepCurrent(next, i) { assert SweepCurrent(w, i); }
    }
  }

  /** A step of the only transfer on its upload. */
  lemma TransferStepDisciplined(w: World, next: World, t: nat, tx: Tx)
    requires WorldInv(w) && DisciplineInv(w) && t in w.transfers
    requires next.db == w.db || (next.db == Apply(w.db, tx) && Targets(tx, w.transfers[t].upload))
    requires next.jobs == w.jobs && next.escaped == {}
    requires SameButAt(w.transfers, next.transfers, t)
    requires t in next.transfers ==> next.transfers[t].upload == w.transfers[t].upload && RowAwaits(next, t)
    ensures DisciplineInv(next)
  {
    var u := w.transfers[t].upload;
    forall v | v != u ensures SameRow(w.db, next.db, v) {
      if next.db != w.db { UntargetedRow(w.db, tx, v); }
    }
    forall i | i in next.transfers && next.transfers[i].upload == u ensures RowAwaits(next, i) {
      if i != t { assert SameTarget(w, i, t); }
    }
    forall h | h in next.jobs && next.jobs[h].target == u ensures SweepCurrent(next, h) {
      assert SweepsApart(w, h, t);
    }
    forall i | i in next.transfers
      ensures i in w.transfers && next.transfers[i].upload == w.transfers[i].upload &&
              (w.transfers[i].upload != u ==> next.transfers[i] == w.transfers[i])
    {}
    DisciplineFrame(w, next, u);
  }

  lemma CommitDisciplined(w: World, t: nat, reported: int, f: FileId, reply: CommitReply)
    requires WorldInv(w) && DisciplineInv(w) && t in w.transfers && w.transfers[t].phase.Holding?
    ensures DisciplineInv(CommitNext(w, t, reported, f, reply))
  {
    var tr := w.transfers[t];
    var tx := TCommit(tr.user, tr.upload, tr.phase.cid, reported, f);
    assert RowAwaits(w, t) && TransferOk(w, t);
    TransferStepDisciplined(w, CommitNext(w, t, reported, f, reply), t, tx);
  }

  lemma CompensateDisciplined(w: World, t: nat)
    requires WorldInv(w) && DisciplineInv(w) && t in w.transfers && w.transfers[t].phase.Compensating?
    ensures DisciplineInv(Next(w, Compensate(t, true)))
  {
    var u := w.transfers[t].upload;
    assert RowAwaits(w, t) && TransferOk(w, t);
    assert RowAwaits(Next(w, Compensate(t, true)), t) by {
      assert Inv(w.db);
      assert u in w.db.uploads ==> UploadOk(w.db.uploads[u]);
    }
    TransferStepDisciplined(w, Next(w, Compensate(t, true)), t, TRelease(u, Failed));
  }

  lemma RecordDisciplined(w: World, t: nat)
    requires WorldInv(w) && DisciplineInv(w) && t in w.transfers && w.transfers[t].phase.Recording?
    ensures DisciplineInv(RecordNext(w, t, true))
  {
    var tr := w.transfers[t];
    var next := RecordNext(w, t, true);
    assert RowAwaits(w, t) && TransferOk(w, t);
    forall h ensures !ClosesOrphan(w, h, tr.upload, tr.phase.cid) { assert SweepsApart(w, h, t); }
    TransferStepDisciplined(w, next, t, TRecordOrphan(tr.upload, tr.phase.cid));
  }

  lemma CloseDisciplined(w: World, h: nat)
    requires WorldInv(w) && DisciplineInv(w) && h in w.jobs && w.jobs[h].phase.Closing?
    ensures DisciplineInv(CloseNext(w, h, true))
  {
    var job := w.jobs[h];
    var next := CloseNext(w, h, true);
    assert SweepCurrent(w, h);
    if job.kind == OrphanSweep {
      forall v | v != job.target ensures SameRow(w.db, next.db, v) {
        UntargetedRow(w.db, TRecordOrphan(job.target, NoCid), v);
      }
      forall t | t in next.transfers ensures next.transfers[t].upload != job.target { assert SweepsApart(w, h, t); }
      DisciplineFrame(w, next, job.target);
    } else {
      TableStepDisciplined(w, TFinalize(job.target, job.phase.unpinned), 0);
      CrashDisciplined(w.(db := next.db), h);
    }
  }

  /** Ending a job, or moving a file job on, concerns no transfer. */
  lemma CrashDisciplined(w: World, h: nat)
    requires DisciplineInv(w)
    ensures DisciplineInv(w.(jobs := w.jobs - {h}))
  {
    var next := w.(jobs := w.jobs - {h});
    forall a, b | SameTarget(next, a, b) ensures a == b { assert SameTarget(w, a, b); }
    forall t ensures RowAwaits(next, t) { assert RowAwaits(w, t); }
    forall i, t ensures SweepsApart(next, i, t) { assert SweepsApart(w, i, t); }
    forall i ensures SweepCurrent(next, i) { assert SweepCurrent(w, i); }
  }

  /** Steps that leave tables and transfers alone, and add no orphan job, concern no transfer either. */
  lemma JobsMoveDisciplined(w: World, next: World)
    requires DisciplineInv(w)
    requires next.db == w.db && next.transfers == w.transfers && next.escaped == w.escaped
    requires forall i | i in next.jobs && next.jobs[i].kind == OrphanSweep ::
        i in w.jobs && next.jobs[i] == w.jobs[i].(phase := next.jobs[i].phase)
    ensures DisciplineInv(next)
  {
    forall a, b | SameTarget(next, a, b) ensures a == b { assert SameTarget(w, a, b); }
    forall t ensures RowAwaits(next, t) { assert RowAwaits(w, t); }
    forall i, t ensures SweepsApart(next, i, t) { assert SweepsApart(w, i, t); }
    forall i ensures SweepCurrent(next, i) { assert SweepCurrent(w, i); }
  }

  lemma JobStepDisciplined(w: World, s: Step)
    requires WorldInv(w) && DisciplineInv(w) && (s.SweepFile? || s.CountRefs? || s.UnpinCid?)
    ensures DisciplineInv(Next(w, s))
  {
    JobsMoveDisciplined(w, Next(w, s));
  }

  lemma DeleteDisciplined(w: World, h: nat, f: FileId)
    requires WorldInv(w) && DisciplineInv(w) && h !in w.jobs && f in w.db.files
    ensures DisciplineInv(DeleteNext(w, h, f))
  {
    var next := DeleteNext(w, h, f);
    TableStepDisciplined(w, TMark(f), 0);
    var mid := w.(db := next.db);
    forall a, b | SameTarget(next, a, b) ensures a == b { assert SameTarget(mid, a, b); }
    forall t ensures RowAwaits(next, t) { assert RowAwaits(mid, t); }
    forall i, t ensures SweepsApart(next, i, t) { assert SweepsApart(mid, i, t); }
    forall i ensures SweepCurrent(next, i) { assert SweepCurrent(mid, i); }
  }

  lemma StepDisciplined(w: World, s: Step)
    requires WorldInv(w) && DisciplineInv(w) && Disciplined(w, s)
    ensures DisciplineInv(Next(w, s))
  {
    match s
    case Standalone(tx) => if IsStandalone(tx) { TableStepDisciplined(w, tx, 0); }
    case ExpireRow(u, now) => TableStepDisciplined(w, TRelease(u, Expired), u);
    case Begin(t, user, u) => BeginDisciplined(w, t, user, u);
    case Reject(t, stored) =>
      if Sends(w, t) {
        TransferStepDisciplined(w, Next(w, s), t, TRelease(w.transfers[t].upload, Failed));
      }
    case PinContent(t, cid) =>
      if Sends(w, t) && ValidCid(cid) {
        assert RowAwaits(w, t);
        TransferStepDisciplined(w, Next(w, s), t, TRelease(w.transfers[t].upload, Failed));
      }
    case PinUnseen(_, _, _) =>
    case CommitRow(t, reported, f, reply) =>
      if t in w.transfers && w.transfers[t].phase.Holding? { CommitDisciplined(w, t, reported, f, reply); }
    case Compensate(t, _) =>
      if t in w.transfers && w.transfers[t].phase.Compensating? { CompensateDisciplined(w, t); }
    case RecordRow(t, _) =>
      if t in w.transfers && w.transfers[t].phase.Recording? { RecordDisciplined(w, t); }
    case Lose(t) =>
      if t in w.transfers {
        TransferStepDisciplined(w, Next(w, s), t, TRelease(w.transfers[t].upload, Failed));
      }
    case DeleteFile(h, f) => if h !in w.jobs && f in w.db.files { DeleteDisciplined(w, h, f); }
    case SweepFile(_, _) => JobStepDisciplined(w, s);
    case SweepOrphan(h, u) => SweepOrphanDisciplined(w, h, u);
    case CountRefs(_) => JobStepDisciplined(w, s);
    case UnpinCid(_, _) => JobStepDisciplined(w, s);
    case CloseJob(h, stored) =>
      if h in w.jobs && w.jobs[h].phase.Closing? {
        CloseDisciplined(w, h);
        CrashDisciplined(w, h);
      }
    case Crash(h) => CrashDisciplined(w, h);
  }

  lemma {:induction false} RunDisciplined(w: World, steps: seq<Step>)
    requires WorldInv(w) && DisciplineInv(w) && DisciplinedRun(w, steps)
    ensures WorldInv(Run(w, steps)) && DisciplineInv(Run(w, steps))
    decreases |steps|
  {
    if steps != [] {
      StepKeepsWorld(w, steps[0]);
      StepDisciplined(w, steps[0]);
      RunDisciplined(Next(w, steps[0]), steps[1..]);
    }
  }

  /** No unpin work is lost: after every disciplined run, whatever a node still holds pinned is carried by a
      transfer, needed by a referenced file, owed by a delete job, or on the orphan list. */
  lemma NoUnpinLost(steps: seq<Step>, ref: PinRef)
    requires DisciplinedRun(GENESIS, steps)
    ensures var w := Run(GENESIS, steps);
            w.escaped == {} && (ref in w.pinned ==> Covered(w, ref))
  {
    GenesisInv();
    RunDisciplined(GENESIS, steps);
    assert Accounted(Run(GENESIS, steps), ref);
  }

  // ---- The exact reach of the compensation -----------------------------------------------------------

  /** FailDropUploadWithOrphanPin puts the CID on the orphan list exactly when the row was not yet terminal
      in another way: an expired or committed row records nothing. */
  lemma CompensationRecordsIff(db: Tables, u: UploadId, cid: Cid)
    requires u in db.uploads && cid != NoCid
    ensures var after := RecordOrphan(Apply(db, TRelease(u, Failed)), u, cid);
            (OrphanListed(after, u) && after.uploads[u].cid == cid) <==>
              (Live(db.uploads[u].status) || db.uploads[u].status == Failed)
  {
  }

  predicate CanRecord(w: World, t: nat)
    requires t in w.transfers && TransferOk(w, t)
  {
    var status := w.db.uploads[w.transfers[t].upload].status;
    Live(status) || status == Failed
  }

  ghost predicate CoveredOtherwise(w: World, t: nat, ref: PinRef) {
    exists c :: c != ByTransfer(t) && Covers(w, c, ref)
  }

  ghost function AfterCompensation(w: World, t: nat): World {
    Next(Next(w, Compensate(t, true)), RecordRow(t, true))
  }

  predicate Uncommitted(w: World, t: nat, ref: PinRef) {
    && t in w.transfers && TransferOk(w, t)
    && w.transfers[t].phase == Compensating(ref.cid, false) && w.transfers[t].node == ref.node
  }

  /** Compensation leaves files, jobs and every other row and transfer alone. */
  lemma CompensationFrame(w: World, t: nat, ref: PinRef, c: Cover)
    requires WorldInv(w) && Uncommitted(w, t, ref)
    requires c != ByTransfer(t) && c != ByUpload(w.transfers[t].upload)
    ensures Covers(AfterCompensation(w, t), c, ref) <==> Covers(w, c, ref)
  {
    var after := AfterCompensation(w, t);
    assert after.jobs == w.jobs && after.db.files == w.db.files && after.db.pins == w.db.pins;
    if c.ByFile? {
      assert forall h :: ClosesFile(after, h, c.f) <==> ClosesFile(w, h, c.f);
    } else if c.ByUpload? {
      assert forall h :: ClosesOrphan(after, h, c.u, ref.cid) <==> ClosesOrphan(w, h, c.u, ref.cid);
    }
  }

  /** The row ends up covering the pin exactly when it could record it and no sweep is closing that CID. */
  lemma CompensatedRow(w: World, t: nat, ref: PinRef)
    requires WorldInv(w) && Uncommitted(w, t, ref)
    ensures var u := w.transfers[t].upload;
            Covers(AfterCompensation(w, t), ByUpload(u), ref) <==> CanRecord(w, t) && !OrphanClosing(w, u, ref.cid)
  {
    var u := w.transfers[t].upload;
    var after := AfterCompensation(w, t);
    assert forall h :: ClosesOrphan(after, h, u, ref.cid) <==> ClosesOrphan(w, h, u, ref.cid);
  }

  /** The whole compensation of a failed commit keeps its pin covered exactly when the row was live or failed
      and no sweep is closing that CID on it, or something else covers the pin anyway. */
  lemma CompensationCoversIff(w: World, t: nat, ref: PinRef)
    requires WorldInv(w) && Uncommitted(w, t, ref)
    ensures Covered(AfterCompensation(w, t), ref) <==>
              (CanRecord(w, t) && !OrphanClosing(w, w.transfers[t].upload, ref.cid)) || CoveredOtherwise(w, t, ref)
  {
    var u := w.transfers[t].upload;
    var after := AfterCompensation(w, t);
    CompensatedRow(w, t, ref);
    if Covered(after, ref) {
      var c :| Covers(after, c, ref);
      assert c != ByTransfer(t);
      if c != ByUpload(u) {
        CompensationFrame(w, t, ref, c);
      }
    }
    if CoveredOtherwise(w, t, ref) {
      var c :| c != ByTransfer(t) && Covers(w, c, ref);
      if c != ByUpload(u) {
        CompensationFrame(w, t, ref, c);
      }
    }
  }
}
