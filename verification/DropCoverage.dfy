/** Every physical pin is accounted for over every run. */
module DropCoverage {
  import opened Wrappers
  import opened DropTables
  import opened DropLedger
  import opened DropUploads
  import opened DropPins

  // ---- How rows and requests evolve ----------------------------------------------------------------

  /** A file keeps its reference for good and never becomes referenced again. */
  predicate FileEvolves(db: Tables, next: Tables, f: FileId) {
    f in db.files ==>
      && f in next.files && FileRef(next.files[f]) == FileRef(db.files[f])
      && (!Referenced(db.files[f].status) ==> !Referenced(next.files[f].status))
      && (next.files[f].status == Unavailable ==> db.files[f].status == Unavailable)
  }

  lemma ApplyEvolvesFile(db: Tables, tx: Tx, f: FileId)
    ensures FileEvolves(db, Apply(db, tx), f)
    ensures f in Apply(db, tx).files && f !in db.files ==>
              tx.TCommit? && Apply(db, tx).files[f].cid == tx.cid && Apply(db, tx).files[f].status == Active
  {
  }

  /** Jobs, transfers and files stay well formed when the tables take one transaction. */
  lemma ApplyKeepsRequests(w: World, tx: Tx)
    requires WorldInv(w) && (tx.TCommit? ==> ValidCid(tx.cid))
    ensures var next := w.(db := Apply(w.db, tx));
            && Inv(next.db) && (forall f :: FileCidOk(next.db, f))
            && (forall h :: JobOk(next, h)) && (forall t :: TransferOk(next, t))
  {
    var next := w.(db := Apply(w.db, tx));
    ApplyKeepsInv(w.db, tx);
    forall f ensures FileCidOk(next.db, f) {
      assert FileCidOk(w.db, f);
      ApplyEvolvesFile(w.db, tx, f);
    }
    forall h ensures JobOk(next, h) {
      assert JobOk(w, h);
      if h in w.jobs {
        ApplyEvolvesFile(w.db, tx, w.jobs[h].target);
        ApplyEvolves(w.db, tx, w.jobs[h].target);
      }
    }
    forall t ensures TransferOk(next, t) {
      assert TransferOk(w, t);
      if t in w.transfers {
        ApplyEvolves(w.db, tx, w.transfers[t].upload);
      }
    }
  }

  ghost predicate SameButAt<V>(a: map<nat, V>, b: map<nat, V>, k: nat) {
    forall i | i != k :: (i in a <==> i in b) && (i in a ==> a[i] == b[i])
  }

  // ---- Covers that a step leaves alone -------------------------------------------------------------

  predicate SameFile(db: Tables, next: Tables, f: FileId) {
    f in db.files ==>
      && f in next.files && FileRef(next.files[f]) == FileRef(db.files[f]) && next.files[f].status == db.files[f].status
      && (f in db.pins ==> f in next.pins && next.pins[f] == db.pins[f])
  }

  predicate SameOrphan(db: Tables, next: Tables, u: UploadId) {
    OrphanListed(db, u) ==> OrphanListed(next, u) && UploadRef(next.uploads[u]) == UploadRef(db.uploads[u])
  }

  /** Reservations, releases and node reports take no file or orphan off its list. */
  lemma QuietTx(db: Tables, tx: Tx, f: FileId, u: UploadId)
    requires IsStandalone(tx) || tx.TRelease?
    ensures SameFile(db, Apply(db, tx), f) && SameOrphan(db, Apply(db, tx), u)
  {
    if tx.TReserve? {
      ReserveEvolves(db, tx.input, tx.limit, tx.uploadId, tx.now, u);
    }
  }

  /** A cover survives when its own row does and no job starts closing it. */
  lemma CoverSurvives(w: World, next: World, c: Cover, ref: PinRef)
    requires Covers(w, c, ref)
    requires c.ByTransfer? ==> c.t in next.transfers && ref in Carried(next.transfers[c.t])
    requires c.ByFile? ==> SameFile(w.db, next.db, c.f) && forall h :: ClosesFile(next, h, c.f) ==>
        ClosesFile(w, h, c.f)
    requires c.ByUpload? ==> SameOrphan(w.db, next.db, c.u) &&
                             forall h :: ClosesOrphan(next, h, c.u, ref.cid) ==> ClosesOrphan(w, h, c.u, ref.cid)
    ensures Covers(next, c, ref)
  {
  }

  /** A step over quiet tables that drops nothing carried and starts closing nothing keeps every pin accounted. */
  lemma QuietStep(w: World, next: World)
    requires forall ref :: Accounted(w, ref)
    requires next.db == w.db || exists tx :: (IsStandalone(tx) || tx.TRelease?) && next.db == Apply(w.db, tx)
    requires forall t | t in w.transfers && !(Carried(w.transfers[t]) <= next.escaped) ::
               t in next.transfers && Carried(w.transfers[t]) <= Carried(next.transfers[t])
    requires forall h | h in next.jobs && next.jobs[h].phase.Closing? :: h in w.jobs && w.jobs[h] == next.jobs[h]
    requires w.escaped <= next.escaped
    ensures forall ref | ref in w.pinned :: Accounted(next, ref)
  {
    forall ref | ref in w.pinned ensures Accounted(next, ref) {
      assert Accounted(w, ref);
      if ref !in next.escaped {
        var c :| Covers(w, c, ref);
        if next.db != w.db {
          var tx :| (IsStandalone(tx) || tx.TRelease?) && next.db == Apply(w.db, tx);
          QuietTx(w.db, tx, if c.ByFile? then c.f else 0, if c.ByUpload? then c.u else 0);
        }
        CoverSurvives(w, next, c, ref);
      }
    }
  }

  // ---- Each kind of step -----------------------------------------------------------------------------

  lemma StandaloneKeeps(w: World, tx: Tx)
    requires WorldInv(w) && (IsStandalone(tx) || tx.TRelease?)
    ensures WorldInv(w.(db := Apply(w.db, tx)))
  {
    var next := w.(db := Apply(w.db, tx));
    ApplyKeepsRequests(w, tx);
    QuietStep(w, next);
    forall ref ensures Accounted(next, ref) {}
  }

  /** A transfer starts, moves on or ends, losing nothing it carried except into `escaped`. */
  lemma TransferStepKeeps(w: World, next: World, t: nat)
    requires WorldInv(w) && next.db == w.db && next.jobs == w.jobs && w.escaped <= next.escaped
    requires SameButAt(w.transfers, next.transfers, t) && TransferOk(next, t)
    requires t in w.transfers && !(Carried(w.transfers[t]) <= next.escaped) ==>
               t in next.transfers && Carried(w.transfers[t]) <= Carried(next.transfers[t])
    requires forall ref | ref in next.pinned && ref !in w.pinned ::
               ref in next.escaped || (t in next.transfers && ref in Carried(next.transfers[t]))
    ensures WorldInv(next)
  {
    forall h ensures JobOk(next, h) { assert JobOk(w, h); }
    forall i ensures TransferOk(next, i) { assert TransferOk(w, i); }
    QuietStep(w, next);
    forall ref ensures Accounted(next, ref) {
      if ref in next.pinned && ref !in w.pinned && ref !in next.escaped {
        assert Covers(next, ByTransfer(t), ref);
      }
    }
  }

  /** A job starts, moves on short of closing, or ends, while pins only disappear. */
  lemma JobStepKeeps(w: World, next: World, h: nat)
    requires WorldInv(w) && next.db == w.db && next.transfers == w.transfers && next.escaped == w.escaped
    requires SameButAt(w.jobs, next.jobs, h) && JobOk(next, h)
    requires next.pinned <= w.pinned
    requires h in next.jobs && next.jobs[h].phase.Closing? && (h !in w.jobs || w.jobs[h] != next.jobs[h]) ==>
               next.jobs[h].ref !in next.pinned ||
               (next.jobs[h].kind != OrphanSweep && next.jobs[h].phase == Closing(false)) ||
               ActiveRefs(w.db, next.jobs[h].ref,
                          if next.jobs[h].kind == OrphanSweep then None else Some(next.jobs[h].target)) != {}
    ensures WorldInv(next)
  {
    forall i ensures JobOk(next, i) { assert JobOk(w, i); }
    forall t ensures TransferOk(next, t) { assert TransferOk(w, t); }
    forall ref ensures Accounted(next, ref) {
      assert Accounted(w, ref);
      if ref in next.pinned && ref !in next.escaped {
        var c :| Covers(w, c, ref);
        JobStepCovers(w, next, h, c, ref);
      }
    }
  }

  lemma JobStepCovers(w: World, next: World, h: nat, c: Cover, ref: PinRef)
    requires next.db == w.db && next.transfers == w.transfers && SameButAt(w.jobs, next.jobs, h)
    requires JobOk(next, h) && Covers(w, c, ref) && ref in next.pinned
    requires h in next.jobs && next.jobs[h].phase.Closing? && (h !in w.jobs || w.jobs[h] != next.jobs[h]) ==>
               next.jobs[h].ref !in next.pinned ||
               (next.jobs[h].kind != OrphanSweep && next.jobs[h].phase == Closing(false)) ||
               ActiveRefs(w.db, next.jobs[h].ref,
                          if next.jobs[h].kind == OrphanSweep then None else Some(next.jobs[h].target)) != {}
    ensures Covered(next, ref)
  {
    if Covers(next, c, ref) {
    } else {
      // Only the new closing job can have taken the cover away, so it counted another reference.
      assert h in next.jobs && next.jobs[h].phase.Closing? && (h !in w.jobs || w.jobs[h] != next.jobs[h])
             && next.jobs[h].ref == ref &&
               (next.jobs[h].kind == OrphanSweep || next.jobs[h].phase == Closing(true)) by {
        if c.ByFile? {
          var i :| ClosesFile(next, i, c.f);
          assert !ClosesFile(w, i, c.f);
        } else {
          var i :| ClosesOrphan(next, i, c.u, ref.cid);
          assert !ClosesOrphan(w, i, c.u, ref.cid);
        }
      }
      var f :| f in ActiveRefs(w.db, ref,
                               if next.jobs[h].kind == OrphanSweep then None else Some(next.jobs[h].target));
      assert Covers(next, ByFile(f), ref);
    }
  }

  /** Writing one file, one pin and one upload row keeps the covers made of other rows. */
  lemma OtherRowsSurvive(w: World, next: World, t: nat, f: FileId, u: UploadId, c: Cover, ref: PinRef)
    requires Covers(w, c, ref) && next.jobs == w.jobs && SameButAt(w.transfers, next.transfers, t)
    requires SameButAt(w.db.files, next.db.files, f) && SameButAt(w.db.pins, next.db.pins, f)
    requires SameButAt(w.db.uploads, next.db.uploads, u)
    requires c != ByTransfer(t) && c != ByFile(f) && c != ByUpload(u)
    ensures Covers(next, c, ref)
  {
    CoverSurvives(w, next, c, ref);
  }

  /** An acknowledged replay leaves the pin with the existing file, or escaped. */
  lemma ReplayStepKeeps(w: World, next: World, t: nat, f: FileId)
    requires WorldInv(w) && t in w.transfers && w.transfers[t].phase.Holding?
    requires IsFileOf(w.db, f, w.transfers[t].upload)
    requires next == w.(transfers := w.transfers - {t}, escaped := next.escaped) && w.escaped <= next.escaped
    requires (w.db.files[f].cid == w.transfers[t].phase.cid && Referenced(w.db.files[f].status)) ||
             Carried(w.transfers[t]) <= next.escaped
    ensures WorldInv(next)
  {
    assert TransferOk(w, t) && FileOk(w.db, f);
    forall h ensures JobOk(next, h) { assert JobOk(w, h); }
    forall i ensures TransferOk(next, i) { assert TransferOk(w, i); }
    forall ref ensures Accounted(next, ref) {
      assert Accounted(w, ref);
      if ref in next.pinned && ref !in next.escaped {
        var c :| Covers(w, c, ref);
        if c == ByTransfer(t) {
          assert Covers(next, ByFile(f), ref);
        } else {
          CoverSurvives(w, next, c, ref);
        }
      }
    }
  }

  /** The first commit hands the pin over from the transfer to the new file. */
  lemma FirstCommitKeeps(w: World, next: World, t: nat, reported: int, f: FileId)
    requires WorldInv(w) && t in w.transfers && w.transfers[t].phase.Holding?
    requires IsLive(w.db, w.transfers[t].upload) && f !in w.db.files
    requires next.db == Apply(w.db,
        TCommit(w.transfers[t].user, w.transfers[t].upload, w.transfers[t].phase.cid, reported, f))
    requires next == w.(db := next.db, transfers := next.transfers)
    requires SameButAt(w.transfers, next.transfers, t)
    requires t in next.transfers ==>
               next.transfers[t] == w.transfers[t].(phase := Compensating(w.transfers[t].phase.cid, true))
    ensures WorldInv(next)
  {
    var tr := w.transfers[t];
    assert TransferOk(w, t);
    var tx := TCommit(tr.user, tr.upload, tr.phase.cid, reported, f);
    ApplyKeepsRequests(w, tx);
    forall h ensures JobOk(next, h) { assert JobOk(w.(db := next.db), h); }
    forall i ensures TransferOk(next, i) { assert TransferOk(w.(db := next.db), i); }
    forall ref ensures Accounted(next, ref) {
      assert Accounted(w, ref);
      if ref in next.pinned && ref !in next.escaped {
        var c :| Covers(w, c, ref);
        if c == ByTransfer(t) {
          assert Covers(next, ByFile(f), ref);
        } else {
          OtherRowsSurvive(w, next, t, f, tr.upload, c, ref);
        }
      }
    }
  }

  lemma CommitStepKeeps(w: World, t: nat, reported: int, f: FileId, reply: CommitReply)
    requires WorldInv(w) && t in w.transfers && w.transfers[t].phase.Holding?
    ensures WorldInv(CommitNext(w, t, reported, f, reply))
  {
    var tr := w.transfers[t];
    var out := Commit(w.db, tr.user, tr.upload, tr.phase.cid, reported, f);
    var next := CommitNext(w, t, reported, f, reply);
    assert TransferOk(w, t);
    if reply == RolledBack || out.result.Err? {
      TransferStepKeeps(w, next, t);
    } else if Live(w.db.uploads[tr.upload].status) {
      FirstCommitKeeps(w, next, t, reported, f);
    } else if reply == AckLost {
      TransferStepKeeps(w, next, t);
    } else {
      ReplayStepKeeps(w, next, t, out.result.value);
    }
  }

  lemma CompensateStepKeeps(w: World, t: nat)
    requires WorldInv(w) && t in w.transfers && w.transfers[t].phase.Compensating?
    ensures WorldInv(Next(w, Compensate(t, true)))
  {
    var tr := w.transfers[t];
    var mid := w.(db := Apply(w.db, TRelease(tr.upload, Failed)));
    StandaloneKeeps(w, TRelease(tr.upload, Failed));
    var next := SetPhase(mid, t, Recording(tr.phase.cid, tr.phase.applied));
    assert TransferOk(mid, t);
    TransferStepKeeps(mid, next, t);
  }

  /** The pin moves from the transfer to the failed row; a CID it overwrites escapes. */
  lemma RecordStepKeeps(w: World, t: nat)
    requires WorldInv(w) && t in w.transfers && w.transfers[t].phase.Recording?
    ensures WorldInv(RecordNext(w, t, true))
  {
    var tr := w.transfers[t];
    var next := RecordNext(w, t, true);
    var tx := TRecordOrphan(tr.upload, tr.phase.cid);
    assert TransferOk(w, t);
    ApplyKeepsRequests(w, tx);
    forall h ensures JobOk(next, h) { assert JobOk(w.(db := next.db), h); }
    forall i ensures TransferOk(next, i) { assert TransferOk(w.(db := next.db), i); }
    forall ref ensures Accounted(next, ref) {
      assert Accounted(w, ref);
      if ref in next.pinned && ref !in next.escaped {
        var c :| Covers(w, c, ref);
        if c == ByTransfer(t) {
          assert forall h :: ClosesOrphan(next, h, tr.upload, ref.cid) ==> ClosesOrphan(w, h, tr.upload, ref.cid);
          assert Covers(next, ByUpload(tr.upload), ref);
        } else {
          CoverSurvives(w, next, c, ref);
        }
      }
    }
  }

  // ---- Delete requests and sweeps -------------------------------------------------------------------

  /** A file that is still referenced has no job. */
  lemma ReferencedHasNoJob(w: World, f: FileId)
    requires WorldInv(w) && f in w.db.files && Referenced(w.db.files[f].status)
    ensures forall h | h in w.jobs && w.jobs[h].kind != OrphanSweep :: w.jobs[h].target != f
  {
    forall h | h in w.jobs && w.jobs[h].kind != OrphanSweep ensures w.jobs[h].target != f {
      assert JobOk(w, h);
    }
  }

  lemma FirstDeleteCovers(w: World, next: World, h: nat, f: FileId, c: Cover, ref: PinRef)
    requires WorldInv(w) && h !in w.jobs && f in w.db.files && Referenced(w.db.files[f].status)
    requires next == DeleteNext(w, h, f) && Covers(w, c, ref)
    ensures Covered(next, ref)
  {
    assert FileOk(w.db, f) && FileCidOk(w.db, f);
    ReferencedHasNoJob(w, f);
    if c == ByFile(f) {
      if OtherReferences(w.db, f) == {} {
        assert forall i :: !ClosesFile(next, i, f);
        assert Covers(next, ByFile(f), ref);
      } else {
        var g :| g in OtherReferences(w.db, f);
        assert Covers(next, ByFile(g), ref);
      }
    } else {
      CoverSurvives(w, next, c, ref);
    }
  }

  lemma DeleteStepKeeps(w: World, h: nat, f: FileId)
    requires WorldInv(w) && h !in w.jobs && f in w.db.files
    ensures WorldInv(DeleteNext(w, h, f))
  {
    var next := DeleteNext(w, h, f);
    assert FileOk(w.db, f) && FileCidOk(w.db, f);
    ApplyKeepsRequests(w, TMark(f));
    ApplyEvolvesFile(w.db, TMark(f), f);
    forall i ensures JobOk(next, i) { assert JobOk(w.(db := next.db), i); }
    forall t ensures TransferOk(next, t) { assert TransferOk(w.(db := next.db), t); }
    forall ref ensures Accounted(next, ref) {
      assert Accounted(w, ref);
      if ref in next.pinned && ref !in next.escaped {
        var c :| Covers(w, c, ref);
        if Referenced(w.db.files[f].status) {
          FirstDeleteCovers(w, next, h, f, c, ref);
        } else {
          CoverSurvives(w, next, c, ref);
        }
      }
    }
  }

  lemma CloseStepKeeps(w: World, h: nat)
    requires WorldInv(w) && h in w.jobs && w.jobs[h].phase.Closing?
    ensures WorldInv(CloseNext(w, h, true))
  {
    var job := w.jobs[h];
    var next := CloseNext(w, h, true);
    var tx := if job.kind != OrphanSweep then TFinalize(job.target, job.phase.unpinned)
              else TRecordOrphan(job.target, NoCid);
    assert JobOk(w, h) && FileOk(w.db, job.target);
    ApplyKeepsRequests(w, tx);
    forall i ensures JobOk(next, i) { assert JobOk(w.(db := next.db), i); }
    forall t ensures TransferOk(next, t) { assert TransferOk(w.(db := next.db), t); }
    forall ref ensures Accounted(next, ref) {
      assert Accounted(w, ref);
      if ref in next.pinned && ref !in next.escaped {
        var c :| Covers(w, c, ref);
        CloseCovers(w, next, h, c, ref);
      }
    }
  }

  lemma CloseCovers(w: World, next: World, h: nat, c: Cover, ref: PinRef)
    requires WorldInv(w) && h in w.jobs && w.jobs[h].phase.Closing? && next == CloseNext(w, h, true)
    requires Covers(w, c, ref) && ref !in next.escaped
    ensures Covers(next, c, ref)
  {
    var job := w.jobs[h];
    assert JobOk(w, h) && FileOk(w.db, job.target);
    if c.ByFile? {
      assert !ClosesFile(w, h, c.f);
      assert forall i :: ClosesFile(next, i, c.f) ==> ClosesFile(w, i, c.f);
    } else if c.ByUpload? {
      assert !ClosesOrphan(w, h, c.u, ref.cid);
      assert forall i :: ClosesOrphan(next, i, c.u, ref.cid) ==> ClosesOrphan(w, i, c.u, ref.cid);
    }
  }

  // ---- Every run -------------------------------------------------------------------------------------

  lemma PlainTransferStepKeeps(w: World, s: Step)
    requires WorldInv(w) && (s.Begin? || s.PinContent? || s.Lose?)
    ensures WorldInv(Next(w, s))
  {
    assert TransferOk(w, s.t);
    if Next(w, s) != w {
      TransferStepKeeps(w, Next(w, s), s.t);
    }
  }

  lemma RejectStepKeeps(w: World, s: Step)
    requires WorldInv(w) && (s.Reject? || s.PinUnseen?) && Sends(w, s.t)
    ensures WorldInv(Next(w, s))
  {
    var next := Next(w, s);
    assert TransferOk(w, s.t);
    StandaloneKeeps(w, TRelease(w.transfers[s.t].upload, Failed));
    TransferStepKeeps(if s.stored then w.(db := next.db) else w, next, s.t);
  }

  /** The cleanup could not be stored, so what the transfer carried escapes. */
  lemma AbandonKeeps(w: World, t: nat)
    requires WorldInv(w) && t in w.transfers
    ensures WorldInv(w.(transfers := w.transfers - {t}, escaped := w.escaped + Carried(w.transfers[t])))
  {
    TransferStepKeeps(w, w.(transfers := w.transfers - {t}, escaped := w.escaped + Carried(w.transfers[t])), t);
  }

  lemma JobStepsKeep(w: World, s: Step)
    requires WorldInv(w) && (s.SweepFile? || s.SweepOrphan? || s.CountRefs? || s.UnpinCid? || s.Crash?)
    ensures WorldInv(Next(w, s))
  {
    assert JobOk(w, s.h);
    if Next(w, s) != w {
      JobStepKeeps(w, Next(w, s), s.h);
    }
  }

  predicate OfTransfer(s: Step) {
    s.Begin? || s.PinContent? || s.Lose? || s.Reject? || s.PinUnseen? || s.CommitRow? || s.Compensate? || s.RecordRow?
  }

  lemma StepOfTransferKeeps(w: World, s: Step)
    requires WorldInv(w) && OfTransfer(s)
    ensures WorldInv(Next(w, s))
  {
    match s
    case Begin(_, _, _) => PlainTransferStepKeeps(w, s);
    case PinContent(_, _) => PlainTransferStepKeeps(w, s);
    case Lose(_) => PlainTransferStepKeeps(w, s);
    case Reject(t, _) => if Sends(w, t) { RejectStepKeeps(w, s); }
    case PinUnseen(t, _, _) => if Sends(w, t) { RejectStepKeeps(w, s); }
    case CommitRow(t, reported, f, reply) =>
      if t in w.transfers && w.transfers[t].phase.Holding? { CommitStepKeeps(w, t, reported, f, reply); }
    case Compensate(t, stored) =>
      if t in w.transfers && w.transfers[t].phase.Compensating? {
        CompensateStepKeeps(w, t);
        AbandonKeeps(w, t);
      }
    case RecordRow(t, stored) =>
      if t in w.transfers && w.transfers[t].phase.Recording? {
        RecordStepKeeps(w, t);
        AbandonKeeps(w, t);
      }
  }

  lemma StepKeepsWorld(w: World, s: Step)
    requires WorldInv(w)
    ensures WorldInv(Next(w, s))
  {
    if OfTransfer(s) {
      StepOfTransferKeeps(w, s);
      return;
    }
    match s
    case Standalone(tx) => if IsStandalone(tx) { StandaloneKeeps(w, tx); }
    case ExpireRow(u, now) => StandaloneKeeps(w, TRelease(u, Expired));
    case DeleteFile(h, f) => if h !in w.jobs && f in w.db.files { DeleteStepKeeps(w, h, f); }
    case SweepFile(_, _) => JobStepsKeep(w, s);
    case SweepOrphan(_, _) => JobStepsKeep(w, s);
    case CountRefs(_) => JobStepsKeep(w, s);
    case UnpinCid(_, _) => JobStepsKeep(w, s);
    case Crash(_) => JobStepsKeep(w, s);
    case CloseJob(h, stored) =>
      if h in w.jobs && w.jobs[h].phase.Closing? {
        CloseStepKeeps(w, h);
        JobStepsKeep(w, Crash(h));
      }
  }

  lemma GenesisInv()
    ensures WorldInv(GENESIS)
  {
    EmptyTablesInv();
  }

  lemma {:induction false} RunKeepsWorld(w: World, steps: seq<Step>)
    requires WorldInv(w)
    ensures WorldInv(Run(w, steps))
    decreases |steps|
  {
    if steps != [] {
      StepKeepsWorld(w, steps[0]);
      RunKeepsWorld(Next(w, steps[0]), steps[1..]);
    }
  }

  /** Under every interleaving, each pin a node holds is covered or is one of the recorded losses. */
  lemma EveryPinAccounted(steps: seq<Step>, ref: PinRef)
    ensures var w := Run(GENESIS, steps);
            ref in w.pinned ==> ref in w.escaped || Covered(w, ref)
  {
    GenesisInv();
    RunKeepsWorld(GENESIS, steps);
    assert Accounted(Run(GENESIS, steps), ref);
  }
}
