/** Deletions that never end. */
module DropForgotten {
  import opened DropTables
  import opened DropLedger
  import opened DropUploads
  import opened DropPins
  import opened DropLosses
  import opened DropPinSafety
  import opened DropPinRaces
  import opened DropHandlers
  import opened DropReconcile

  /** Being deleted, with no unpin owed: such a file is on no job list. */
  predicate Forgotten(db: Tables, f: FileId) {
    f in db.files && f in db.pins && db.files[f].status == DeletePending && !UnpinOwed(db.pins[f].status)
  }

  /** No delete request and no sweep is working on the file. */
  ghost predicate NoJobOn(w: World, f: FileId) {
    forall h | h in w.jobs :: w.jobs[h].kind == OrphanSweep || w.jobs[h].target != f
  }

  predicate Deletes(s: Step, f: FileId) { s.DeleteFile? && s.file == f }

  lemma TablesKeepForgotten(db: Tables, tx: Tx, f: FileId)
    requires Forgotten(db, f) && !(tx.TFinalize? && tx.fileId == f)
    ensures Forgotten(Apply(db, tx), f)
  {
  }

  lemma NoNewJob(w: World, s: Step, f: FileId)
    requires Forgotten(w.db, f) && NoJobOn(w, f) && !Deletes(s, f)
    ensures NoJobOn(Next(w, s), f)
  {
    var next := Next(w, s);
    forall h | h in next.jobs ensures next.jobs[h].kind == OrphanSweep || next.jobs[h].target != f {
      assert h in w.jobs ==> w.jobs[h].kind == OrphanSweep || w.jobs[h].target != f;
    }
  }

  /** The tables after a step: one transaction later, if at all, and not the one that ends the deletion of f. */
  ghost predicate OneTransaction(db: Tables, next: Tables, f: FileId) {
    next == db || exists tx :: next == Apply(db, tx) && !(tx.TFinalize? && tx.fileId == f)
  }

  lemma IsTransaction(db: Tables, next: Tables, tx: Tx, f: FileId)
    requires (next == db || next == Apply(db, tx)) && !(tx.TFinalize? && tx.fileId == f)
    ensures OneTransaction(db, next, f)
  {
  }

  lemma TransferTransaction(w: World, s: Step, f: FileId)
    requires s.Reject? || s.PinUnseen? || s.CommitRow? || s.Compensate? || s.RecordRow?
    ensures OneTransaction(w.db, Next(w, s).db, f)
  {
    var db := Next(w, s).db;
    if s.t in w.transfers {
      var tr := w.transfers[s.t];
      if s.CommitRow? {
        if tr.phase.Holding? {
          IsTransaction(w.db, db, TCommit(tr.user, tr.upload, tr.phase.cid, s.reported, s.file), f);
        }
      } else if s.RecordRow? {
        if tr.phase.Recording? { IsTransaction(w.db, db, TRecordOrphan(tr.upload, tr.phase.cid), f); }
      } else {
        IsTransaction(w.db, db, TRelease(tr.upload, Failed), f);
      }
    }
  }

  lemma CloseTransaction(w: World, h: nat, stored: bool, f: FileId)
    requires NoJobOn(w, f)
    ensures OneTransaction(w.db, Next(w, CloseJob(h, stored)).db, f)
  {
    if h in w.jobs && w.jobs[h].phase.Closing? {
      var job := w.jobs[h];
      IsTransaction(w.db, CloseNext(w, h, stored).db,
        if job.kind == OrphanSweep then TRecordOrphan(job.target, NoCid) else TFinalize(job.target, job.phase.unpinned),
        f);
    }
  }

  lemma StepTransaction(w: World, s: Step, f: FileId)
    requires NoJobOn(w, f)
    ensures OneTransaction(w.db, Next(w, s).db, f)
  {
    match s
    case Standalone(tx) => IsTransaction(w.db, Next(w, s).db, if IsStandalone(tx) then tx else TPeer(0, true), f);
    case ExpireRow(u, _) => IsTransaction(w.db, Next(w, s).db, TRelease(u, Expired), f);
    case DeleteFile(_, g) => IsTransaction(w.db, Next(w, s).db, TMark(g), f);
    case CloseJob(h, stored) => CloseTransaction(w, h, stored, f);
    case _ =>
      if s.Reject? || s.PinUnseen? || s.CommitRow? || s.Compensate? || s.RecordRow? { TransferTransaction(w, s, f); }
  }

  lemma ForgottenStays(w: World, s: Step, f: FileId)
    requires Forgotten(w.db, f) && NoJobOn(w, f) && !Deletes(s, f)
    ensures Forgotten(Next(w, s).db, f) && NoJobOn(Next(w, s), f)
  {
    NoNewJob(w, s, f);
    StepTransaction(w, s, f);
    if Next(w, s).db != w.db {
      var tx :| Next(w, s).db == Apply(w.db, tx) && !(tx.TFinalize? && tx.fileId == f);
      TablesKeepForgotten(w.db, tx, f);
    }
  }

  /** Only a new delete request changes that: no sweep, no other request and no failure does, in any run. */
  lemma {:induction false} ForgottenForever(w: World, steps: seq<Step>, f: FileId)
    requires Forgotten(w.db, f) && NoJobOn(w, f) && forall i | 0 <= i < |steps| :: !Deletes(steps[i], f)
    ensures Forgotten(Run(w, steps).db, f) && NoJobOn(Run(w, steps), f)
    decreases |steps|
  {
    if steps != [] {
      ForgottenStays(w, steps[0], f);
      assert forall i | 0 <= i < |steps[1..]| :: steps[1..][i] == steps[i + 1];
      ForgottenForever(Next(w, steps[0]), steps[1..], f);
    }
  }

  /** Some sweep can finish a pending deletion if and only if it is on the job list. */
  lemma SweepFinishesIff(w: World, f: FileId)
    requires IsQuiet(w) && Inv(w.db) && f in w.db.files && w.db.files[f].status == DeletePending
    ensures (exists sweep :: Ends(Run(w, FileSweepSteps(f, sweep)).db, f)) <==> UnpinListed(w.db, f)
  {
    assert FileOk(w.db, f);
    if UnpinListed(w.db, f) {
      var sweep := Counted(Removed, true);
      FileSweepEffect(w.db, w.pinned, f, sweep);
      assert Ends(Run(w, FileSweepSteps(f, sweep)).db, f);
    } else {
      forall sweep ensures !Ends(Run(w, FileSweepSteps(f, sweep)).db, f) {
        ForgottenForever(w, FileSweepSteps(f, sweep), f);
      }
    }
  }

  predicate Ends(db: Tables, f: FileId) { f in db.files && db.files[f].status == Deleted }

  lemma MarkForgetsIff(db: Tables, f: FileId)
    requires Inv(db) && f in db.files && Referenced(db.files[f].status)
    ensures Forgotten(Mark(db, f).db, f) <==> OtherReferences(db, f) != {}
  {
    assert FileOk(db, f);
  }

  /** A delete leaves its file forgotten if and only if another file shares the CID, and the deletion was marked but
      not finalised. */
  lemma DeleteForgetsIff(db: Tables, pinned: set<PinRef>, f: FileId, answer: UnpinReply, replies: DeleteStore)
    requires Inv(db) && f in db.files && Referenced(db.files[f].status) && ValidCid(db.files[f].cid)
    ensures Forgotten(Run(Quiet(db, pinned), DeleteSteps(f, answer, replies)).db, f) <==>
              OtherReferences(db, f) != {} && replies.loads &&
              (replies.mark == AckLost || (replies.mark == Acked && replies.close == RolledBack))
  {
    MarkForgetsIff(db, f);
    assert FileOk(db, f);
    if replies.loads && replies.mark == AckLost {
      MarkLostEffect(db, pinned, f);
    } else if replies.loads && replies.mark == Acked {
      DeleteEffect(db, pinned, f, answer, replies);
    }
  }

  /** A second delete request ends it, without asking the node. */
  lemma SecondDeleteFinishes(db: Tables, pinned: set<PinRef>, f: FileId, answer: UnpinReply)
    requires Forgotten(db, f) && ValidCid(db.files[f].cid)
    ensures var w := Run(Quiet(db, pinned), DeleteSteps(f, answer, DeleteStore(true, Acked, Acked)));
            Ends(w.db, f) && w.pinned == pinned
  {
    DeleteEffect(db, pinned, f, answer, DeleteStore(true, Acked, Acked));
  }

  lemma SharedMarkForgets(w: World, f: FileId, g: FileId, ref: PinRef)
    requires ReachableWorld(w) && w.jobs == map[] && f != g && Needs(w, f, ref) && Needs(w, g, ref)
    ensures var next := Next(Next(w, DeleteFile(0, f)), Crash(0));
            ReachableWorld(next) && Forgotten(next.db, f) && NoJobOn(next, f)
  {
    ReachableInv(w);
    assert g in OtherReferences(w.db, f);
    MarkForgetsIff(w.db, f);
    NextReachable(w, DeleteFile(0, f));
    NextReachable(Next(w, DeleteFile(0, f)), Crash(0));
  }

  /** The commit of a second file with the same CID. */
  lemma BothNeed(w: World, ref: PinRef, f: FileId, g: FileId)
    requires ReachableWorld(w) && w.db.files.Keys == {f} && Needs(w, f, ref) && CanCommit(w, 2, ref) && g != f
    ensures var next := Next(w, CommitRow(2, 0, g, Acked));
            ReachableWorld(next) && next.jobs == w.jobs && Needs(next, f, ref) && Needs(next, g, ref)
  {
    ReachableInv(w);
    assert TransferOk(w, 2);
    NextReachable(w, CommitRow(2, 0, g, Acked));
  }

  /** Two files share a CID, and the gateway stops after marking the first for deletion: a reachable state in which that
      deletion is forgotten. */
  lemma CutDeleteForgotten(a: ReserveInput, b: ReserveInput, cid: Cid)
    requires WellFormed(a) && WellFormed(b) && a.scope == PrivateOrg && b.scope == PrivateOrg && ValidCid(cid)
    requires a.node == b.node && (a.user != b.user || a.key != b.key)
    ensures exists w :: ReachableWorld(w) && Forgotten(w.db, 1) && NoJobOn(w, 1)
  {
    SharedCidHolds(a, b, cid);
    SharedForgets(SharedCid(a, b, cid), PinRef(a.node, cid));
  }

  lemma SharedForgets(w: World, ref: PinRef)
    requires ReachableWorld(w) && w.jobs == map[] && w.db.files.Keys == {1} && Needs(w, 1, ref) && CanCommit(w, 2, ref)
    ensures exists w' :: ReachableWorld(w') && Forgotten(w'.db, 1) && NoJobOn(w', 1)
  {
    BothNeed(w, ref, 1, 2);
    SharedMarkForgets(Next(w, CommitRow(2, 0, 2, Acked)), 1, 2, ref);
  }
}
