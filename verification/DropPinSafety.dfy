/** Pin safety: what an active file needs stays pinned. */
module DropPinSafety {
  import opened Wrappers
  import opened DropTables
  import opened DropUploads
  import opened DropPins
  import opened DropCoverage

  /** A transfer whose pin is done and whose commit would create a file. */
  predicate CanCommit(w: World, t: nat, ref: PinRef) {
    && t in w.transfers && w.transfers[t].phase == Holding(ref.cid) && w.transfers[t].node == ref.node
    && IsLive(w.db, w.transfers[t].upload)
  }

  predicate Needs(w: World, f: FileId, ref: PinRef) {
    f in w.db.files && Referenced(w.db.files[f].status) && FileRef(w.db.files[f]) == ref
  }

  predicate Decided(w: World, h: nat, ref: PinRef) {
    h in w.jobs && w.jobs[h].phase == Unpinning && w.jobs[h].ref == ref
  }

  // ---- The guard -----------------------------------------------------------------------------------

  ghost predicate NoDecision(w: World, ref: PinRef) { forall h :: !Decided(w, h, ref) }

  ghost predicate NoneCommitting(w: World, ref: PinRef) { forall t :: !CanCommit(w, t, ref) }

  ghost predicate NoneNeeds(w: World, ref: PinRef) { forall f :: !Needs(w, f, ref) }

  ghost predicate DecidesToUnpin(w: World, s: Step) {
    match s
    case DeleteFile(h, f) => h !in w.jobs && f in w.db.files && Mark(w.db, f).result == Ok(true)
    case CountRefs(h) => h in w.jobs && w.jobs[h].phase == Counting && CountNext(w, h).jobs[h].phase == Unpinning
    case _ => false
  }

  function DecidedRef(w: World, s: Step): PinRef {
    match s
    case DeleteFile(_, f) => if f in w.db.files then FileRef(w.db.files[f]) else PinRef(0, NoCid)
    case CountRefs(h) => if h in w.jobs then w.jobs[h].ref else PinRef(0, NoCid)
    case _ => PinRef(0, NoCid)
  }

  /** A delete of a file that is already pending trusts the recorded pin status and counts nothing. */
  predicate Repeats(w: World, s: Step) {
    s.DeleteFile? && s.file in w.db.files && !Referenced(w.db.files[s.file].status)
  }

  /** The guard: the stretch from a transfer's pin to its commit and the stretch from an unpin decision to the unpin
      never overlap on one (node, CID), and no repeated delete is issued while a file uses the CID. */
  ghost predicate Exclusive(w: World, s: Step) {
    && (s.PinContent? && Sends(w, s.t) && ValidCid(s.cid) && IsLive(w.db, w.transfers[s.t].upload) ==>
          NoDecision(w, PinRef(w.transfers[s.t].node, s.cid)))
    && (DecidesToUnpin(w, s) ==> NoneCommitting(w, DecidedRef(w, s)))
    && (DecidesToUnpin(w, s) && Repeats(w, s) ==> NoneNeeds(w, DecidedRef(w, s)))
  }

  ghost predicate ExclusiveRun(w: World, steps: seq<Step>)
    decreases |steps|
  {
    steps == [] || (Exclusive(w, steps[0]) && ExclusiveRun(Next(w, steps[0]), steps[1..]))
  }

  // ---- The invariant -------------------------------------------------------------------------------

  ghost predicate FilesPinned(w: World) { forall f, ref :: Needs(w, f, ref) ==> ref in w.pinned }

  ghost predicate Safe(w: World) {
    && FilesPinned(w)
    && (forall t, ref :: CanCommit(w, t, ref) ==> ref in w.pinned)
    && (forall h, ref :: Decided(w, h, ref) ==> NoneNeeds(w, ref) && NoneCommitting(w, ref))
  }

  /** A step that unpins nothing, creates no need and takes no decision. */
  lemma SafeFrame(w: World, next: World)
    requires Safe(w) && w.pinned <= next.pinned
    requires forall f, ref :: Needs(next, f, ref) ==> Needs(w, f, ref)
    requires forall t, ref :: CanCommit(next, t, ref) ==> CanCommit(w, t, ref)
    requires forall h, ref :: Decided(next, h, ref) ==> Decided(w, h, ref)
    ensures Safe(next)
  {
    forall f, ref | Needs(next, f, ref) ensures ref in next.pinned { assert Needs(w, f, ref); }
    forall t, ref | CanCommit(next, t, ref) ensures ref in next.pinned { assert CanCommit(w, t, ref); }
    forall h, ref | Decided(next, h, ref) ensures NoneNeeds(next, ref) && NoneCommitting(next, ref) {
      assert Decided(w, h, ref);
      assert NoneNeeds(w, ref) && NoneCommitting(w, ref);
    }
  }

  /** A transaction other than a commit creates no need and revives no reservation. */
  lemma TxCreatesNoNeed(w: World, tx: Tx, f: FileId, u: UploadId, ref: PinRef)
    requires !tx.TCommit?
    ensures var next := w.(db := Apply(w.db, tx));
            && (Needs(next, f, ref) ==> Needs(w, f, ref))
            && (u in w.db.uploads && IsLive(next.db, u) ==> IsLive(w.db, u))
  {
    ApplyEvolvesFile(w.db, tx, f);
    ApplyEvolves(w.db, tx, u);
  }

  /** Steps over one transaction that is no commit, after which the requests are as before or further along. */
  lemma QuietStepSafe(w: World, next: World, tx: Tx)
    requires WorldInv(w) && Safe(w) && w.pinned <= next.pinned
    requires next.db == w.db || (!tx.TCommit? && next.db == Apply(w.db, tx))
    requires forall t | t in next.transfers && next.transfers[t].phase.Holding? ::
               t in w.transfers && next.transfers[t] == w.transfers[t]
    requires forall h | h in next.jobs && next.jobs[h].phase == Unpinning :: h in w.jobs && next.jobs[h] == w.jobs[h]
    ensures Safe(next)
  {
    forall f, ref | Needs(next, f, ref) ensures Needs(w, f, ref) {
      if next.db != w.db { TxCreatesNoNeed(w, tx, f, 0, ref); assert Needs(w.(db := next.db), f, ref); }
    }
    forall t, ref | CanCommit(next, t, ref) ensures CanCommit(w, t, ref) {
      assert TransferOk(w, t);
      if next.db != w.db { TxCreatesNoNeed(w, tx, 0, w.transfers[t].upload, ref); }
    }
    SafeFrame(w, next);
  }

  lemma PinContentSafe(w: World, t: nat, cid: Cid)
    requires WorldInv(w) && Safe(w) && Exclusive(w, PinContent(t, cid))
    ensures Safe(Next(w, PinContent(t, cid)))
  {
    var next := Next(w, PinContent(t, cid));
    if next != w {
      forall f, ref | Needs(next, f, ref) ensures ref in next.pinned { assert Needs(w, f, ref); }
      forall i, ref | CanCommit(next, i, ref) ensures ref in next.pinned { assert i != t ==> CanCommit(w, i, ref); }
      forall h, ref | Decided(next, h, ref) ensures NoneNeeds(next, ref) && NoneCommitting(next, ref) {
        assert Decided(w, h, ref);
        assert NoneNeeds(w, ref) && NoneCommitting(w, ref);
        forall f ensures !Needs(next, f, ref) { assert !Needs(w, f, ref); }
        forall i ensures !CanCommit(next, i, ref) { assert !CanCommit(w, i, ref); }
      }
    }
  }

  /** The first commit turns a pinned transfer into a file that needs the same pin. */
  lemma FirstCommitSafe(w: World, t: nat, reported: int, f: FileId, reply: CommitReply)
    requires WorldInv(w) && Safe(w) && t in w.transfers && w.transfers[t].phase.Holding?
    requires IsLive(w.db, w.transfers[t].upload) && f !in w.db.files && reply != RolledBack
    ensures Safe(CommitNext(w, t, reported, f, reply))
  {
    var next := CommitNext(w, t, reported, f, reply);
    assert TransferOk(w, t);
    var mine := PinRef(w.transfers[t].node, w.transfers[t].phase.cid);
    assert CanCommit(w, t, mine);
    forall g, ref | Needs(next, g, ref) ensures ref in next.pinned && (Needs(w, g, ref) || ref == mine) {
      assert g != f ==> Needs(w, g, ref);
    }
    forall i, ref | CanCommit(next, i, ref) ensures ref in next.pinned {
      assert TransferOk(w, i);
      assert CanCommit(w, i, ref);
    }
    forall h, ref | Decided(next, h, ref) ensures NoneNeeds(next, ref) && NoneCommitting(next, ref) {
      assert Decided(w, h, ref);
      assert NoneNeeds(w, ref) && NoneCommitting(w, ref);
      assert !CanCommit(w, t, ref);
      forall i ensures !CanCommit(next, i, ref) { assert TransferOk(w, i) && !CanCommit(w, i, ref); }
    }
  }

  lemma CommitSafe(w: World, t: nat, reported: int, f: FileId, reply: CommitReply)
    requires WorldInv(w) && Safe(w) && t in w.transfers && w.transfers[t].phase.Holding?
    ensures Safe(CommitNext(w, t, reported, f, reply))
  {
    assert TransferOk(w, t);
    if IsLive(w.db, w.transfers[t].upload) && f !in w.db.files && reply != RolledBack {
      FirstCommitSafe(w, t, reported, f, reply);
    } else {
      QuietStepSafe(w, CommitNext(w, t, reported, f, reply), TPeer(0, false));
    }
  }

  /** A first delete that finds no other reference leaves none. */
  lemma DeleteLeavesNoNeed(w: World, h: nat, f: FileId)
    requires WorldInv(w) && f in w.db.files && Mark(w.db, f).result == Ok(true) && Referenced(w.db.files[f].status)
    ensures NoneNeeds(DeleteNext(w, h, f), FileRef(w.db.files[f]))
  {
    var ref := FileRef(w.db.files[f]);
    forall g ensures !Needs(DeleteNext(w, h, f), g, ref) {
      assert g !in OtherReferences(w.db, f);
    }
  }

  lemma DeleteSafe(w: World, h: nat, f: FileId)
    requires WorldInv(w) && Safe(w) && h !in w.jobs && f in w.db.files && Exclusive(w, DeleteFile(h, f))
    ensures Safe(DeleteNext(w, h, f))
  {
    var next := DeleteNext(w, h, f);
    var mine := FileRef(w.db.files[f]);
    forall g, ref | Needs(next, g, ref) ensures Needs(w, g, ref) { TxCreatesNoNeed(w, TMark(f), g, 0, ref); }
    if Mark(w.db, f).result == Ok(true) && Referenced(w.db.files[f].status) {
      DeleteLeavesNoNeed(w, h, f);
    }
    forall g, ref | Needs(next, g, ref) ensures ref in next.pinned { assert Needs(w, g, ref); }
    forall t, ref | CanCommit(next, t, ref) ensures ref in next.pinned { assert CanCommit(w, t, ref); }
    forall i, ref | Decided(next, i, ref) ensures NoneNeeds(next, ref) && NoneCommitting(next, ref) {
      if i != h {
        assert Decided(w, i, ref);
        assert NoneNeeds(w, ref) && NoneCommitting(w, ref);
      } else {
        assert NoneCommitting(w, ref);
      }
      forall t ensures !CanCommit(next, t, ref) { assert !CanCommit(w, t, ref); }
    }
  }

  lemma CountSafe(w: World, h: nat)
    requires WorldInv(w) && Safe(w) && h in w.jobs && w.jobs[h].phase == Counting && Exclusive(w, CountRefs(h))
    ensures Safe(CountNext(w, h))
  {
    var next := CountNext(w, h);
    forall f, ref | Needs(next, f, ref) ensures ref in next.pinned { assert Needs(w, f, ref); }
    forall t, ref | CanCommit(next, t, ref) ensures ref in next.pinned { assert CanCommit(w, t, ref); }
    forall i, ref | Decided(next, i, ref) ensures NoneNeeds(next, ref) && NoneCommitting(next, ref) {
      if i != h {
        assert Decided(w, i, ref);
        assert NoneNeeds(w, ref) && NoneCommitting(w, ref);
      } else {
        CountFindsNeeds(w, h);
        assert NoneCommitting(w, ref);
      }
      forall f ensures !Needs(next, f, ref) { assert !Needs(w, f, ref); }
      forall t ensures !CanCommit(next, t, ref) { assert !CanCommit(w, t, ref); }
    }
  }

  /** The sweep's count of active files agrees with the delete's count of files not on their way out. */
  lemma CountFindsNeeds(w: World, h: nat)
    requires WorldInv(w) && h in w.jobs && w.jobs[h].phase == Counting && CountNext(w, h).jobs[h].phase == Unpinning
    ensures NoneNeeds(w, w.jobs[h].ref)
  {
    var job := w.jobs[h];
    var excluded := if job.kind == OrphanSweep then None else Some(job.target);
    assert ActiveRefs(w.db, job.ref, excluded) == {};
    forall f ensures !Needs(w, f, job.ref) {
      assert JobOk(w, h) && FileCidOk(w.db, f);
      assert f !in ActiveRefs(w.db, job.ref, excluded);
    }
  }

  lemma UnpinSafe(w: World, h: nat, reply: UnpinReply)
    requires WorldInv(w) && Safe(w) && h in w.jobs && w.jobs[h].phase == Unpinning
    ensures Safe(UnpinNext(w, h, reply))
  {
    var next := UnpinNext(w, h, reply);
    var mine := w.jobs[h].ref;
    assert Decided(w, h, mine);
    assert NoneNeeds(w, mine) && NoneCommitting(w, mine);
    forall f, ref | Needs(next, f, ref) ensures ref in next.pinned { assert Needs(w, f, ref) && !Needs(w, f, mine); }
    forall t, ref | CanCommit(next, t, ref) ensures ref in next.pinned {
      assert CanCommit(w, t, ref) && !CanCommit(w, t, mine);
    }
    forall i, ref | Decided(next, i, ref) ensures NoneNeeds(next, ref) && NoneCommitting(next, ref) {
      assert Decided(w, i, ref);
      assert NoneNeeds(w, ref) && NoneCommitting(w, ref);
      forall f ensures !Needs(next, f, ref) { assert !Needs(w, f, ref); }
      forall t ensures !CanCommit(next, t, ref) { assert !CanCommit(w, t, ref); }
    }
  }

  lemma CloseSafe(w: World, h: nat, stored: bool)
    requires WorldInv(w) && Safe(w) && h in w.jobs && w.jobs[h].phase.Closing?
    ensures Safe(CloseNext(w, h, stored))
  {
    var job := w.jobs[h];
    QuietStepSafe(w, CloseNext(w, h, stored),
                  if job.kind != OrphanSweep then TFinalize(job.target, job.phase.unpinned)
                  else TRecordOrphan(job.target, NoCid));
  }

  lemma TransferEndSafe(w: World, s: Step)
    requires WorldInv(w) && Safe(w) &&
        (s.Reject? || s.PinUnseen? || s.Compensate? || s.RecordRow? || s.Lose? || s.Begin?)
    ensures Safe(Next(w, s))
  {
    var tx := if s.t !in w.transfers then TPeer(0, false)
              else if s.RecordRow? && w.transfers[s.t].phase.Recording?
              then TRecordOrphan(w.transfers[s.t].upload, w.transfers[s.t].phase.cid)
              else TRelease(w.transfers[s.t].upload, Failed);
    QuietStepSafe(w, Next(w, s), tx);
  }

  lemma StepSafe(w: World, s: Step)
    requires WorldInv(w) && Safe(w) && Exclusive(w, s)
    ensures Safe(Next(w, s))
  {
    match s
    case Standalone(tx) => if IsStandalone(tx) { QuietStepSafe(w, Next(w, s), tx); }
    case ExpireRow(u, _) => QuietStepSafe(w, Next(w, s), TRelease(u, Expired));
    case PinContent(t, cid) => PinContentSafe(w, t, cid);
    case CommitRow(t, reported, f, reply) =>
      if t in w.transfers && w.transfers[t].phase.Holding? { CommitSafe(w, t, reported, f, reply); }
    case DeleteFile(h, f) => if h !in w.jobs && f in w.db.files { DeleteSafe(w, h, f); }
    case CountRefs(h) => if h in w.jobs && w.jobs[h].phase == Counting { CountSafe(w, h); }
    case UnpinCid(h, reply) => if h in w.jobs && w.jobs[h].phase == Unpinning { UnpinSafe(w, h, reply); }
    case CloseJob(h, stored) => if h in w.jobs && w.jobs[h].phase.Closing? { CloseSafe(w, h, stored); }
    case SweepFile(_, _) => QuietStepSafe(w, Next(w, s), TPeer(0, false));
    case SweepOrphan(_, _) => QuietStepSafe(w, Next(w, s), TPeer(0, false));
    case Crash(_) => QuietStepSafe(w, Next(w, s), TPeer(0, false));
    case Begin(_, _, _) => TransferEndSafe(w, s);
    case Reject(_, _) => TransferEndSafe(w, s);
    case PinUnseen(_, _, _) => TransferEndSafe(w, s);
    case Compensate(_, _) => TransferEndSafe(w, s);
    case RecordRow(_, _) => TransferEndSafe(w, s);
    case Lose(_) => TransferEndSafe(w, s);
  }

  lemma {:induction false} RunSafe(w: World, steps: seq<Step>)
    requires WorldInv(w) && Safe(w) && ExclusiveRun(w, steps)
    ensures Safe(Run(w, steps))
    decreases |steps|
  {
    if steps != [] {
      StepKeepsWorld(w, steps[0]);
      StepSafe(w, steps[0]);
      RunSafe(Next(w, steps[0]), steps[1..]);
    }
  }

  /** Pin safety over whole runs: every file that is not on its way out keeps its CID pinned on its node. */
  lemma ActiveFilesStayPinned(steps: seq<Step>, f: FileId)
    requires ExclusiveRun(GENESIS, steps)
    ensures var w := Run(GENESIS, steps);
            f in w.db.files && w.db.files[f].status == Active ==> FileRef(w.db.files[f]) in w.pinned
  {
    GenesisInv();
    RunSafe(GENESIS, steps);
    var w := Run(GENESIS, steps);
    assert f in w.db.files && w.db.files[f].status == Active ==> Needs(w, f, FileRef(w.db.files[f]));
  }
}
