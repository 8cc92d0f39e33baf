/** Outside the guard of pin safety: every step past it can break it. */
module DropPinRaces {
  import opened DropTables
  import opened DropUploads
  import opened DropPins
  import opened DropCoverage
  import opened DropLosses
  import opened DropPinSafety

  // ---- Each guard is needed --------------------------------------------------------------------------

  /** An unpin that goes through is safe exactly when no file needs the pin any more. */
  lemma UnpinSafeIff(w: World, h: nat)
    requires FilesPinned(w) && h in w.jobs && w.jobs[h].phase == Unpinning
    ensures FilesPinned(UnpinNext(w, h, Removed)) <==> NoneNeeds(w, w.jobs[h].ref)
  {
    var next := UnpinNext(w, h, Removed);
    if NoneNeeds(w, w.jobs[h].ref) {
      forall f, ref | Needs(next, f, ref) ensures ref in next.pinned {
        assert Needs(w, f, ref); assert !Needs(w, f, w.jobs[h].ref); }
    } else {
      var f :| Needs(w, f, w.jobs[h].ref);
      assert Needs(next, f, w.jobs[h].ref);
    }
  }

  /** A decided unpin next to a pinned transfer that can still commit: commit, then unpin. */
  lemma RaceBreaks(w: World, h: nat, t: nat, ref: PinRef)
    requires WorldInv(w) && Decided(w, h, ref) && CanCommit(w, t, ref)
    ensures exists a, b :: !FilesPinned(Next(Next(w, a), b))
  {
    var f := FreshId(w.db.files.Keys);
    assert TransferOk(w, t);
    var a, b := CommitRow(t, 0, f, Acked), UnpinCid(h, Removed);
    var committed := Next(w, a);
    assert Needs(committed, f, ref) && Decided(committed, h, ref);
    var unpinned := Next(committed, b);
    assert Needs(unpinned, f, ref) && ref !in unpinned.pinned;
    assert !FilesPinned(Next(Next(w, a), b));
  }

  /** A decided unpin of a CID that a file needs: unpin. */
  lemma DecisionBreaks(w: World, h: nat, f: FileId, ref: PinRef)
    requires Decided(w, h, ref) && Needs(w, f, ref)
    ensures exists a, b :: !FilesPinned(Next(Next(w, a), b))
  {
    var a, b := UnpinCid(h, Removed), Lose(0);
    var next := Next(Next(w, a), b);
    assert Needs(next, f, ref) && ref !in next.pinned;
    assert !FilesPinned(Next(Next(w, a), b));
  }

  /** A step outside the guard can always be continued, in two steps, to an active file without its pin. */
  lemma ExclusionNeeded(w: World, s: Step)
    requires WorldInv(w) && !Exclusive(w, s)
    ensures exists a, b :: !FilesPinned(Next(Next(Next(w, s), a), b))
  {
    var next := Next(w, s);
    StepKeepsWorld(w, s);
    if s.PinContent? && Sends(w, s.t) && ValidCid(s.cid) && IsLive(w.db, w.transfers[s.t].upload) &&
       !NoDecision(w, PinRef(w.transfers[s.t].node, s.cid)) {
      var ref := PinRef(w.transfers[s.t].node, s.cid);
      var h :| Decided(w, h, ref);
      assert Decided(next, h, ref) && CanCommit(next, s.t, ref);
      RaceBreaks(next, h, s.t, ref);
    } else {
      DecisionOutsideGuardBreaks(w, s);
    }
  }

  lemma DecisionOutsideGuardBreaks(w: World, s: Step)
    requires WorldInv(w) && DecidesToUnpin(w, s)
    requires !NoneCommitting(w, DecidedRef(w, s)) || (Repeats(w, s) && !NoneNeeds(w, DecidedRef(w, s)))
    ensures exists a, b :: !FilesPinned(Next(Next(Next(w, s), a), b))
  {
    var next := Next(w, s);
    var ref := DecidedRef(w, s);
    StepKeepsWorld(w, s);
    var h := s.h;
    assert Decided(next, h, ref) by {
      if s.DeleteFile? { assert FileCidOk(w.db, s.file); }
    }
    if !NoneCommitting(w, ref) {
      var t :| CanCommit(w, t, ref);
      assert CanCommit(next, t, ref);
      RaceBreaks(next, h, t, ref);
    } else {
      var f :| Needs(w, f, ref);
      assert Needs(next, f, ref);
      DecisionBreaks(next, h, f, ref);
    }
  }

  /** The other order breaks it as well: no commit falls between the decision and the unpin, yet the file that
      is committed after both has lost the pin its transfer made before them. */
  lemma UnpinBeforeCommitBreaks(w: World, h: nat, t: nat, ref: PinRef, f: FileId)
    requires WorldInv(w) && Decided(w, h, ref) && CanCommit(w, t, ref) && f !in w.db.files
    ensures !FilesPinned(Next(Next(w, UnpinCid(h, Removed)), CommitRow(t, 0, f, Acked)))
  {
    assert TransferOk(w, t);
    var unpinned := Next(w, UnpinCid(h, Removed));
    var committed := Next(unpinned, CommitRow(t, 0, f, Acked));
    assert ref !in committed.pinned && Needs(committed, f, ref);
  }

  // ---- A reachable race ------------------------------------------------------------------------------

  /** File `1` is committed from reservation `1`, and reservation `2` has pinned the same CID on the same node. */
  ghost function SharedCid(a: ReserveInput, b: ReserveInput, cid: Cid): World {
    var committed := Next(PinnedReservation(a, cid), CommitRow(1, 0, 1, Acked));
    var reserved := Next(committed, Standalone(TReserve(b, TierLimit(0, 0), 2, 0)));
    Next(Next(reserved, Begin(2, b.user, 2)), PinContent(2, cid))
  }

  lemma CommittedFirst(a: ReserveInput, cid: Cid)
    requires WellFormed(a) && a.scope == PrivateOrg && ValidCid(cid)
    ensures var w := Next(PinnedReservation(a, cid), CommitRow(1, 0, 1, Acked));
            && ReachableWorld(w) && w.transfers == map[] && w.jobs == map[]
            && w.db.files == map[1 := CommittedFile(1, NewUpload(a, 0), cid, 0)]
            && w.db.uploads == map[1 := NewUpload(a, 0).(status := Committed, cid := cid)]
            && w.db.peers == map[a.node := true]
            && w.db.nodes == map[a.node := NodeRow(true, true, StateActive, 0, 0, 0)]
  {
    PinnedReservationHolds(a, cid);
    ReachableInv(PinnedReservation(a, cid));
    NextReachable(PinnedReservation(a, cid), CommitRow(1, 0, 1, Acked));
    CommitWrites(PinnedReservation(a, cid), 1, PinRef(a.node, cid), 1);
  }

  lemma SharedCidHolds(a: ReserveInput, b: ReserveInput, cid: Cid)
    requires WellFormed(a) && WellFormed(b) && a.scope == PrivateOrg && b.scope == PrivateOrg && ValidCid(cid)
    requires a.node == b.node && (a.user != b.user || a.key != b.key)
    ensures var w := SharedCid(a, b, cid);
            && ReachableWorld(w) && w.jobs == map[]
            && w.db.files == map[1 := CommittedFile(1, NewUpload(a, 0), cid, 0)]
            && CanCommit(w, 2, PinRef(a.node, cid))
  {
    CommittedFirst(a, cid);
    var committed := Next(PinnedReservation(a, cid), CommitRow(1, 0, 1, Acked));
    var s := Standalone(TReserve(b, TierLimit(0, 0), 2, 0));
    assert forall id :: !HasKey(committed.db, id, b.user, b.key);
    var reserved := Next(committed, s);
    assert reserved.db.uploads == committed.db.uploads[2 := NewUpload(b, 0)];
    NextReachable(committed, s);
    BeginAndPin(reserved, b.user, 2, cid);
  }

  /** Starting a transfer of a live reservation and pinning its content. */
  lemma BeginAndPin(w: World, user: UserId, u: UploadId, cid: Cid)
    requires ReachableWorld(w) && u !in w.transfers && u in w.db.uploads && ValidCid(cid)
    requires w.db.uploads[u].owner == user && IsLive(w.db, u)
    ensures var next := Next(Next(w, Begin(u, user, u)), PinContent(u, cid));
            && ReachableWorld(next) && next.jobs == w.jobs && next.db == w.db
            && CanCommit(next, u, PinRef(w.db.uploads[u].node, cid))
  {
    NextReachable(w, Begin(u, user, u));
    NextReachable(Next(w, Begin(u, user, u)), PinContent(u, cid));
  }

  /** Deleting the only file of a CID decides to unpin it, whatever transfer is about to commit it again. */
  lemma DeleteOnlyFileDecides(w: World, h: nat, f: FileId, t: nat, ref: PinRef)
    requires WorldInv(w) && h !in w.jobs && w.db.files.Keys == {f} && Needs(w, f, ref) && CanCommit(w, t, ref)
    ensures var next := Next(w, DeleteFile(h, f));
            Decided(next, h, ref) && CanCommit(next, t, ref) && next.db.files.Keys == {f}
  {
    assert OtherReferences(w.db, f) == {};
    assert FileCidOk(w.db, f);
  }

  /** Deleting the only file of a shared CID while a second upload of it waits for its commit ends, in a
      reachable world, with an active file that is no longer pinned. */
  lemma ConcurrentReuploadLosesPin(a: ReserveInput, b: ReserveInput, cid: Cid)
    requires WellFormed(a) && WellFormed(b) && a.scope == PrivateOrg && b.scope == PrivateOrg && ValidCid(cid)
    requires a.node == b.node && (a.user != b.user || a.key != b.key)
    ensures exists w :: ReachableWorld(w) && !FilesPinned(w)
  {
    SharedCidHolds(a, b, cid);
    UnpinsUnderTransfer(SharedCid(a, b, cid), PinRef(a.node, cid));
  }

  lemma UnpinsUnderTransfer(w: World, ref: PinRef)
    requires ReachableWorld(w) && w.jobs == map[] && w.db.files.Keys == {1} && Needs(w, 1, ref) && CanCommit(w, 2, ref)
    ensures exists w' :: ReachableWorld(w') && !FilesPinned(w')
  {
    ReachableInv(w);
    DeleteOnlyFileDecides(w, 5, 1, 2, ref);
    var next := Next(w, DeleteFile(5, 1));
    NextReachable(w, DeleteFile(5, 1));
    ReachableInv(next);
    UnpinBeforeCommitBreaks(next, 5, 2, ref, 2);
    NextReachable(next, UnpinCid(5, Removed));
    NextReachable(Next(next, UnpinCid(5, Removed)), CommitRow(2, 0, 2, Acked));
  }
}
