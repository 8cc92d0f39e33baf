/** Outside the discipline: exactly when each way out loses a pin. */
module DropLosses {
  import opened DropTables
  import opened DropLedger
  import opened DropUploads
  import opened DropPins
  import opened DropCoverage
  import opened DropDiscipline

  // ---- Breaking the discipline -----------------------------------------------------------------------

  ghost predicate ReachableWorld(w: World) { exists steps :: Run(GENESIS, steps) == w }

  lemma NextReachable(w: World, s: Step)
    requires ReachableWorld(w)
    ensures ReachableWorld(Next(w, s))
  {
    var steps :| Run(GENESIS, steps) == w;
    RunSnoc(GENESIS, steps, s);
  }

  lemma GenesisReachable()
    ensures ReachableWorld(GENESIS)
  {
    assert Run(GENESIS, []) == GENESIS;
  }

  /** A node that is online, active and unbounded. */
  ghost function NodeReady(node: NodeId): World {
    Next(Next(Next(GENESIS, Standalone(TPeer(node, true))), Standalone(TCapability(node, true, true))),
         Standalone(THeartbeat(node, StateActive, 0, 0)))
  }

  lemma NodeReadyHolds(node: NodeId)
    ensures var w := NodeReady(node);
            && ReachableWorld(w)
            && w == GENESIS.(db := EMPTY_TABLES.(peers := map[node := true],
                                                 nodes := map[node := NodeRow(true, true, StateActive, 0, 0, 0)]))
  {
    var s0, s1, s2 := Standalone(TPeer(node, true)), Standalone(TCapability(node, true, true)),
                      Standalone(THeartbeat(node, StateActive, 0, 0));
    GenesisReachable();
    NextReachable(GENESIS, s0);
    NextReachable(Next(GENESIS, s0), s1);
    NextReachable(Next(Next(GENESIS, s0), s1), s2);
  }

  /** A private reservation `1`, whose content `cid` the node has just pinned. */
  ghost function PinnedReservation(input: ReserveInput, cid: Cid): World {
    var reserved := Next(NodeReady(input.node), Standalone(TReserve(input, TierLimit(0, 0), 1, 0)));
    Next(Next(reserved, Begin(1, input.user, 1)), PinContent(1, cid))
  }

  lemma ReservedHolds(input: ReserveInput)
    requires WellFormed(input) && input.scope == PrivateOrg
    ensures var w := Next(NodeReady(input.node), Standalone(TReserve(input, TierLimit(0, 0), 1, 0)));
            && ReachableWorld(w) && w == World(w.db, {}, map[], map[], {})
            && w.db.uploads == map[1 := NewUpload(input, 0)] && w.db.files == map[]
            && w.db.peers == map[input.node := true]
            && w.db.nodes == map[input.node := NodeRow(true, true, StateActive, 0, 0, input.size)]
  {
    var w := NodeReady(input.node);
    NodeReadyHolds(input.node);
    assert forall id :: !HasKey(w.db, id, input.user, input.key);
    NextReachable(w, Standalone(TReserve(input, TierLimit(0, 0), 1, 0)));
  }

  lemma PinnedReservationHolds(input: ReserveInput, cid: Cid)
    requires WellFormed(input) && input.scope == PrivateOrg && ValidCid(cid)
    ensures var w := PinnedReservation(input, cid);
            && ReachableWorld(w)
            && w.db.uploads == map[1 := NewUpload(input, 0)] && w.db.files == map[] && w.jobs == map[]
            && w.db.peers == map[input.node := true]
            && w.db.nodes == map[input.node := NodeRow(true, true, StateActive, 0, 0, input.size)]
            && w.pinned == {PinRef(input.node, cid)}
            && w.transfers == map[1 := Transfer(1, input.user, input.node, Holding(cid))]
  {
    ReservedHolds(input);
    var w1 := Next(NodeReady(input.node), Standalone(TReserve(input, TierLimit(0, 0), 1, 0)));
    NextReachable(w1, Begin(1, input.user, 1));
    NextReachable(Next(w1, Begin(1, input.user, 1)), PinContent(1, cid));
  }

  lemma ReachableInv(w: World)
    requires ReachableWorld(w)
    ensures WorldInv(w)
  {
    var steps :| Run(GENESIS, steps) == w;
    GenesisInv();
    RunKeepsWorld(GENESIS, steps);
  }

  lemma ExpireInFlight(input: ReserveInput, cid: Cid)
    requires WellFormed(input) && input.scope == PrivateOrg && ValidCid(cid)
    ensures var w := Next(PinnedReservation(input, cid), ExpireRow(1, 2000 + Max0(input.ttl)));
            && ReachableWorld(w) && w.db.uploads.Keys == {1} && w.db.uploads[1].status == Expired
            && w.db.uploads[1].owner == input.user && w.db.files == map[] && w.jobs == map[]
            && w.pinned == {PinRef(input.node, cid)}
            && w.transfers == map[1 := Transfer(1, input.user, input.node, Holding(cid))]
  {
    PinnedReservationHolds(input, cid);
    NextReachable(PinnedReservation(input, cid), ExpireRow(1, 2000 + Max0(input.ttl)));
  }

  /** Whatever else happened, a transfer whose row has expired has nowhere to leave its pin. */
  lemma ExpiredCompensationLoses(w: World, t: nat, reported: int, f: FileId, ref: PinRef)
    requires WorldInv(w) && t in w.transfers && w.transfers[t].phase == Holding(ref.cid) &&
        w.transfers[t].node == ref.node
    requires w.transfers[t].upload in w.db.uploads && w.db.uploads[w.transfers[t].upload].status == Expired
    requires !CoveredOtherwise(w, t, ref)
    ensures !Covered(AfterCompensation(Next(w, CommitRow(t, reported, f, Acked)), t), ref)
  {
    var refused := SetPhase(w, t, Compensating(ref.cid, false));
    assert Next(w, CommitRow(t, reported, f, Acked)) == refused by { assert TransferOk(w, t); }
    StepKeepsWorld(w, CommitRow(t, reported, f, Acked));
    assert TransferOk(refused, t);
    forall c | c != ByTransfer(t) ensures !Covers(refused, c, ref) {
      assert !Covers(w, c, ref);
      assert c.ByFile? ==> forall h :: ClosesFile(refused, h, c.f) <==> ClosesFile(w, h, c.f);
      assert c.ByUpload? ==> forall h :: ClosesOrphan(refused, h, c.u, ref.cid) <==> ClosesOrphan(w, h, c.u, ref.cid);
    }
    CompensationCoversIff(refused, t, ref);
  }

  lemma CompensationPinsNothing(w: World, t: nat)
    requires t in w.transfers
    ensures AfterCompensation(w, t).pinned == w.pinned
  {
  }

  lemma AfterCompensationReachable(w: World, t: nat)
    requires ReachableWorld(w)
    ensures ReachableWorld(AfterCompensation(w, t))
  {
    NextReachable(w, Compensate(t, true));
    NextReachable(Next(w, Compensate(t, true)), RecordRow(t, true));
  }

  /** A reservation that expires while its content is in flight leaves a pin that nothing will ever remove:
      the compensation finds the row expired and records nothing. */
  lemma ExpiryDuringTransferLosesPin(input: ReserveInput, cid: Cid)
    requires WellFormed(input) && input.scope == PrivateOrg && ValidCid(cid)
    ensures exists w :: ReachableWorld(w) && PinRef(input.node, cid) in w.pinned && !Covered(w, PinRef(input.node, cid))
  {
    ExpireInFlight(input, cid);
    var w := Next(PinnedReservation(input, cid), ExpireRow(1, 2000 + Max0(input.ttl)));
    var refused := Next(w, CommitRow(1, 0, 1, Acked));
    NextReachable(w, CommitRow(1, 0, 1, Acked));
    AfterCompensationReachable(refused, 1);
    ReachableInv(w);
    ExpiredCompensationLoses(w, 1, 0, 1, PinRef(input.node, cid));
    RefusedCommitKeepsPins(w, 1, 0, 1);
    CompensationPinsNothing(refused, 1);
  }

  lemma RefusedCommitKeepsPins(w: World, t: nat, reported: int, f: FileId)
    requires t in w.transfers && w.transfers[t].phase.Holding?
    requires w.transfers[t].upload in w.db.uploads && w.db.uploads[w.transfers[t].upload].status == Expired
    ensures var next := Next(w, CommitRow(t, reported, f, Acked));
            next.pinned == w.pinned && t in next.transfers
  {
  }

  lemma FreshId(ids: set<nat>) returns (f: nat)
    ensures f !in ids
  {
    f := 0;
    var rest := ids;
    while f in ids
      invariant forall g | g in ids && g !in rest :: g < f
      decreases rest
    {
      assert f in rest;
      rest := rest - {f};
      f := f + 1;
    }
  }

  /** A transfer whose pin is done. */
  predicate Holds(w: World, t: nat, ref: PinRef) {
    t in w.transfers && w.transfers[t].phase == Holding(ref.cid) && w.transfers[t].node == ref.node
  }

  /** What an acknowledged first commit writes. */
  lemma CommitWrites(w: World, t: nat, ref: PinRef, f: FileId)
    requires WorldInv(w) && Holds(w, t, ref) && IsLive(w.db, w.transfers[t].upload) && f !in w.db.files
    ensures var next := Next(w, CommitRow(t, 0, f, Acked));
            var row := w.db.uploads[w.transfers[t].upload];
            && next.transfers == w.transfers - {t} && next.jobs == w.jobs && next.pinned == w.pinned
            && next.db.files == w.db.files[f := CommittedFile(w.transfers[t].upload, row, ref.cid, 0)]
            && next.db.uploads == w.db.uploads[w.transfers[t].upload := row.(status := Committed, cid := ref.cid)]
            && next.db.nodes == ReleaseNode(w.db.nodes, row.node, row.reserved) && next.db.peers == w.db.peers
  {
    assert TransferOk(w, t);
  }

  /** When a transfer ends and nothing else changes, its pin stays covered exactly when something else covers it. */
  lemma EndCoversIff(w: World, next: World, t: nat, ref: PinRef)
    requires next.db == w.db && next.jobs == w.jobs && next.transfers == w.transfers - {t}
    ensures Covered(next, ref) <==> CoveredOtherwise(w, t, ref)
  {
    forall c ensures Covers(next, c, ref) <==> c != ByTransfer(t) && Covers(w, c, ref) {
      assert c.ByFile? ==> forall h :: ClosesFile(next, h, c.f) <==> ClosesFile(w, h, c.f);
      assert c.ByUpload? ==> forall h :: ClosesOrphan(next, h, c.u, ref.cid) <==> ClosesOrphan(w, h, c.u, ref.cid);
    }
    if CoveredOtherwise(w, t, ref) {
      var c :| c != ByTransfer(t) && Covers(w, c, ref);
      assert Covers(next, c, ref);
    }
  }

  /** A gateway that stops during a transfer keeps a pin covered exactly when something else covers it. */
  lemma LoseCoversIff(w: World, t: nat, ref: PinRef)
    requires t in w.transfers
    ensures Covered(Next(w, Lose(t)), ref) <==> CoveredOtherwise(w, t, ref)
  {
    EndCoversIff(w, Next(w, Lose(t)), t, ref);
  }

  /** And so does a compensation either of whose transactions is not stored. */
  lemma UnstoredCoversIff(w: World, t: nat, ref: PinRef)
    requires t in w.transfers && (w.transfers[t].phase.Compensating? || w.transfers[t].phase.Recording?)
    ensures var s := if w.transfers[t].phase.Compensating? then Compensate(t, false) else RecordRow(t, false);
            Covered(Next(w, s), ref) <==> CoveredOtherwise(w, t, ref)
  {
    var s := if w.transfers[t].phase.Compensating? then Compensate(t, false) else RecordRow(t, false);
    EndCoversIff(w, Next(w, s), t, ref);
  }

  /** The commit of an upload that another transfer has committed already is acknowledged as a replay: it keeps its own
      pin covered exactly when something else covers it. */
  lemma ReplayCoversIff(w: World, t: nat, reported: int, f: FileId, ref: PinRef)
    requires WorldInv(w) && Holds(w, t, ref)
    requires w.transfers[t].upload in w.db.uploads && w.db.uploads[w.transfers[t].upload].status == Committed
    ensures var next := Next(w, CommitRow(t, reported, f, Acked));
            && (Covered(next, ref) <==> CoveredOtherwise(w, t, ref))
            && next.pinned == w.pinned && next.db == w.db && next.jobs == w.jobs && next.transfers == w.transfers - {t}
  {
    assert TransferOk(w, t);
    CommitReplay(w.db, w.transfers[t].upload, ref.cid, reported, f);
    EndCoversIff(w, Next(w, CommitRow(t, reported, f, Acked)), t, ref);
  }

  /** A pin whose answer never arrives is covered exactly when it was covered before it was made. */
  lemma UnseenCoversIff(w: World, t: nat, cid: Cid, stored: bool)
    requires WorldInv(w) && Sends(w, t)
    ensures var ref := PinRef(w.transfers[t].node, cid);
            Covered(Next(w, PinUnseen(t, cid, stored)), ref) <==> Covered(w, ref)
  {
    var ref := PinRef(w.transfers[t].node, cid);
    var next := Next(w, PinUnseen(t, cid, stored));
    assert TransferOk(w, t) && UploadOk(w.db.uploads[w.transfers[t].upload]);
    forall c ensures Covers(next, c, ref) <==> Covers(w, c, ref) {
      assert c.ByFile? ==> forall h :: ClosesFile(next, h, c.f) <==> ClosesFile(w, h, c.f);
      assert c.ByUpload? ==> forall h :: ClosesOrphan(next, h, c.u, ref.cid) <==> ClosesOrphan(w, h, c.u, ref.cid);
    }
    if Covered(w, ref) {
      var c :| Covers(w, c, ref);
      assert Covers(next, c, ref);
    }
  }

  /** A stop between the node's answer and the commit forgets the CID for good. */
  lemma LostTransferLosesPin(input: ReserveInput, cid: Cid)
    requires WellFormed(input) && input.scope == PrivateOrg && ValidCid(cid)
    ensures exists w :: ReachableWorld(w) && PinRef(input.node, cid) in w.pinned && !Covered(w, PinRef(input.node, cid))
  {
    PinnedReservationHolds(input, cid);
    var w := PinnedReservation(input, cid);
    NextReachable(w, Lose(1));
    OnlyTransferCovers(w, 1, PinRef(input.node, cid));
    LoseCoversIff(w, 1, PinRef(input.node, cid));
    LoseKeepsPins(w, 1);
  }

  lemma LoseKeepsPins(w: World, t: nat)
    requires t in w.transfers
    ensures Next(w, Lose(t)).pinned == w.pinned
  {
  }

  lemma OnlyTransferCovers(w: World, t: nat, ref: PinRef)
    requires w.transfers.Keys == {t} && w.db.files == map[] && w.jobs == map[]
    requires forall u | u in w.db.uploads :: Live(w.db.uploads[u].status)
    ensures !CoveredOtherwise(w, t, ref)
  {
  }

  // ---- Two transfers for one upload ---------------------------------------------------------------------------

  /** Two requests stream different bytes for one upload, and the first of them has committed. */
  ghost function SecondHolding(input: ReserveInput, cid: Cid, cid2: Cid): World {
    Next(Next(Next(PinnedReservation(input, cid), Begin(2, input.user, 1)), PinContent(2, cid2)),
      CommitRow(1, 0, 1, Acked))
  }

  /** The second request begins and pins its bytes while the first still carries its own. */
  lemma SecondCarries(w: World, input: ReserveInput, cid: Cid, cid2: Cid)
    requires WellFormed(input) && input.scope == PrivateOrg && ValidCid(cid) && ValidCid(cid2)
    requires w == PinnedReservation(input, cid)
    ensures var next := Next(Next(w, Begin(2, input.user, 1)), PinContent(2, cid2));
            && ReachableWorld(next) && next.db == w.db && next.jobs == map[] && next.transfers.Keys == {1, 2}
            && next.transfers[1] == w.transfers[1] && Holds(next, 2, PinRef(input.node, cid2))
            && next.transfers[2].upload == 1 && next.pinned == w.pinned + {PinRef(input.node, cid2)}
  {
    PinnedReservationHolds(input, cid);
    NextReachable(w, Begin(2, input.user, 1));
    NextReachable(Next(w, Begin(2, input.user, 1)), PinContent(2, cid2));
  }

  lemma SecondHoldingHolds(input: ReserveInput, cid: Cid, cid2: Cid)
    requires WellFormed(input) && input.scope == PrivateOrg && ValidCid(cid) && ValidCid(cid2)
    ensures var w := SecondHolding(input, cid, cid2);
            && ReachableWorld(w) && w.jobs == map[] && w.transfers.Keys == {2} && Holds(w, 2, PinRef(input.node, cid2))
            && w.transfers[2].upload == 1 && w.db.uploads.Keys == {1} && w.db.uploads[1].status == Committed
            && w.db.files == map[1 := CommittedFile(1, NewUpload(input, 0), cid, 0)]
            && PinRef(input.node, cid2) in w.pinned
  {
    var w := PinnedReservation(input, cid);
    PinnedReservationHolds(input, cid);
    SecondCarries(w, input, cid, cid2);
    var w2 := Next(Next(w, Begin(2, input.user, 1)), PinContent(2, cid2));
    NextReachable(w2, CommitRow(1, 0, 1, Acked));
    ReachableInv(w2);
    CommitWrites(w2, 1, PinRef(input.node, cid), 1);
  }

  /** No expiry, no stop and no failed call: the bytes of the second request stay pinned and nothing covers them. */
  lemma SecondTransferLosesPin(input: ReserveInput, cid: Cid, cid2: Cid)
    requires WellFormed(input) && input.scope == PrivateOrg && ValidCid(cid) && ValidCid(cid2) && cid != cid2
    ensures var ref := PinRef(input.node, cid2);
            exists w :: ReachableWorld(w) && ref in w.pinned && !Covered(w, ref)
  {
    var w := SecondHolding(input, cid, cid2);
    var ref := PinRef(input.node, cid2);
    SecondHoldingHolds(input, cid, cid2);
    NextReachable(w, CommitRow(2, 0, 2, Acked));
    ReachableInv(w);
    ReplayCoversIff(w, 2, 0, 2, ref);
    assert !CoveredOtherwise(w, 2, ref);
  }
}
