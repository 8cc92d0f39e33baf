/** Every step outside the discipline can be continued, inside it, to a lost pin. */
module DropUndisciplined {
  import opened DropTables
  import opened DropUploads
  import opened DropPins
  import opened DropCoverage
  import opened DropDiscipline
  import opened DropLosses

  // ---- Pins nothing has heard of ----------------------------------------------------------------------------

  predicate TransferKnows(w: World, t: nat, ref: PinRef) {
    t in w.transfers && !w.transfers[t].phase.Sending? && PinRef(w.transfers[t].node, w.transfers[t].phase.cid) == ref
  }

  predicate FileKnows(db: Tables, f: FileId, ref: PinRef) { f in db.files && FileRef(db.files[f]) == ref }

  predicate UploadKnows(db: Tables, u: UploadId, ref: PinRef) { u in db.uploads && UploadRef(db.uploads[u]) == ref }

  predicate JobKnows(w: World, h: nat, ref: PinRef) { h in w.jobs && w.jobs[h].ref == ref }

  /** No transfer, file, upload or job mentions the pin. */
  ghost predicate Unheard(w: World, ref: PinRef) {
    && (forall t :: !TransferKnows(w, t, ref)) && (forall f :: !FileKnows(w.db, f, ref))
    && (forall u :: !UploadKnows(w.db, u, ref)) && (forall h :: !JobKnows(w, h, ref))
  }

  ghost predicate Lost(w: World, ref: PinRef) { ref in w.pinned && !Covered(w, ref) }

  lemma UnheardUncovered(w: World, ref: PinRef)
    requires Unheard(w, ref)
    ensures !Covered(w, ref)
  {
    forall c ensures !Covers(w, c, ref) {
      match c
      case ByTransfer(t) => assert !TransferKnows(w, t, ref);
      case ByFile(f) => assert !FileKnows(w.db, f, ref);
      case ByUpload(u) => assert !UploadKnows(w.db, u, ref);
    }
  }

  /** Only transfer t mentions the pin. */
  ghost predicate UnheardBut(w: World, ref: PinRef, t: nat) {
    && (forall x | x != t :: !TransferKnows(w, x, ref)) && (forall f :: !FileKnows(w.db, f, ref))
    && (forall u :: !UploadKnows(w.db, u, ref)) && (forall h :: !JobKnows(w, h, ref))
  }

  lemma OnlyOneCovers(w: World, ref: PinRef, t: nat)
    requires UnheardBut(w, ref, t)
    ensures !CoveredOtherwise(w, t, ref)
  {
    forall c | c != ByTransfer(t) ensures !Covers(w, c, ref) {
      match c
      case ByTransfer(x) => assert !TransferKnows(w, x, ref);
      case ByFile(f) => assert !FileKnows(w.db, f, ref);
      case ByUpload(u) => assert !UploadKnows(w.db, u, ref);
    }
  }

  /** Pinning it, the sending transfer comes to know a pin nothing has heard of. */
  lemma PinHeardByOne(w: World, t: nat, ref: PinRef)
    requires Unheard(w, ref) && Sends(w, t) && w.transfers[t].node == ref.node && ValidCid(ref.cid)
    ensures var next := Next(w, PinContent(t, ref.cid));
            UnheardBut(next, ref, t) && ref in next.pinned && Holds(next, t, ref)
  {
    var next := Next(w, PinContent(t, ref.cid));
    forall x | x != t ensures !TransferKnows(next, x, ref) { assert !TransferKnows(w, x, ref); }
    forall h ensures !JobKnows(next, h, ref) { assert !JobKnows(w, h, ref); }
  }

  // ---- Steps the discipline always allows ---------------------------------------------------------------------

  predicate Plain(s: Step) {
    || s.PinContent? || s.CommitRow? || s.SweepOrphan? || s.CountRefs? || s.UnpinCid? || s.CloseJob?
    || (s.Compensate? && s.stored) || (s.RecordRow? && s.stored)
  }

  predicate AllPlain(steps: seq<Step>) { forall i | 0 <= i < |steps| :: Plain(steps[i]) }

  lemma {:induction false} PlainDisciplined(w: World, steps: seq<Step>)
    requires AllPlain(steps)
    ensures DisciplinedRun(w, steps)
    decreases |steps|
  {
    if steps != [] {
      assert Plain(steps[0]);
      assert forall i | 0 <= i < |steps[1..]| :: steps[1..][i] == steps[i + 1];
      PlainDisciplined(Next(w, steps[0]), steps[1..]);
    }
  }

  /** The world can be continued, inside the discipline, to one in which the pin is lost. */
  ghost predicate Loses(w: World, ref: PinRef) { exists steps :: DisciplinedRun(w, steps) && Lost(Run(w, steps), ref) }

  lemma LosesAfter(w: World, steps: seq<Step>, ref: PinRef)
    requires AllPlain(steps) && Lost(Run(w, steps), ref)
    ensures Loses(w, ref)
  {
    PlainDisciplined(w, steps);
  }

  /** A plain step first, and then the loss. */
  lemma LosesNext(w: World, a: Step, ref: PinRef)
    requires Plain(a) && Loses(Next(w, a), ref)
    ensures Loses(w, ref)
  {
    var rest :| DisciplinedRun(Next(w, a), rest) && Lost(Run(Next(w, a), rest), ref);
    var steps := [a] + rest;
    assert steps[1..] == rest;
    assert Disciplined(w, a);
    assert DisciplinedRun(w, steps) && Lost(Run(w, steps), ref);
  }

  lemma LosesLater(w: World, a: Step, b: Step, ref: PinRef)
    requires Plain(a) && Plain(b) && Loses(Next(Next(w, a), b), ref)
    ensures Loses(w, ref)
  {
    LosesNext(Next(w, a), b, ref);
    LosesNext(w, a, ref);
  }

  // ---- A reservation that expires under its transfer ------------------------------------------------------------

  predicate RowIs(w: World, t: nat, status: UploadStatus) {
    t in w.transfers && w.transfers[t].upload in w.db.uploads && w.db.uploads[w.transfers[t].upload].status == status
  }

  /** The transfer of an expired row that has begun its compensation ends without covering its pin. */
  lemma ExpiredCompensating(w: World, t: nat, ref: PinRef)
    requires WorldInv(w) && Uncommitted(w, t, ref) && RowIs(w, t, Expired)
    requires ref in w.pinned && !CoveredOtherwise(w, t, ref)
    ensures Loses(w, ref)
  {
    CompensationCoversIff(w, t, ref);
    CompensationPinsNothing(w, t);
    RunTwo(w, Compensate(t, true), RecordRow(t, true));
    LosesAfter(w, [Compensate(t, true), RecordRow(t, true)], ref);
  }

  /** And so does one whose content is pinned. */
  lemma ExpiredHolding(w: World, t: nat, ref: PinRef)
    requires WorldInv(w) && Holds(w, t, ref) && RowIs(w, t, Expired)
    requires ref in w.pinned && !CoveredOtherwise(w, t, ref)
    ensures Loses(w, ref)
  {
    var commit := CommitRow(t, 0, 0, Acked);
    var refused := Next(w, commit);
    assert TransferOk(w, t);
    ExpiredCompensationLoses(w, t, 0, 0, ref);
    RefusedCommitKeepsPins(w, t, 0, 0);
    CompensationPinsNothing(refused, t);
    var rest := [Compensate(t, true), RecordRow(t, true)];
    RunTwo(refused, Compensate(t, true), RecordRow(t, true));
    assert ([commit] + rest)[1..] == rest;
    LosesAfter(w, [commit] + rest, ref);
  }

  /** And one that is still sending, whatever the node then pins. */
  lemma ExpiredSending(w: World, t: nat, ref: PinRef)
    requires WorldInv(w) && Sends(w, t) && RowIs(w, t, Expired) && w.transfers[t].node == ref.node && ValidCid(ref.cid)
    requires Unheard(w, ref)
    ensures Loses(w, ref)
  {
    var a, b := PinContent(t, ref.cid), CommitRow(t, 0, 0, Acked);
    assert TransferOk(w, t);
    var held := Next(w, a);
    StepKeepsWorld(w, a);
    StepKeepsWorld(held, b);
    var refused := Next(held, b);
    assert refused == SetPhase(held, t, Compensating(ref.cid, false));
    PinHeardByOne(w, t, ref);
    assert UnheardBut(refused, ref, t) by {
      forall x | x != t ensures !TransferKnows(refused, x, ref) { assert !TransferKnows(held, x, ref); }
      forall h ensures !JobKnows(refused, h, ref) { assert !JobKnows(held, h, ref); }
    }
    OnlyOneCovers(refused, ref, t);
    assert TransferOk(refused, t);
    ExpiredCompensating(refused, t, ref);
    LosesLater(w, a, b, ref);
  }

  /** The expiry itself leaves every other cover as it was. */
  lemma ExpiryUncovers(w: World, u: UploadId, now: int, t: nat, ref: PinRef)
    requires WorldInv(w) && IsLive(w.db, u) && w.db.uploads[u].expiresAt < now && !CoveredOtherwise(w, t, ref)
    ensures !CoveredOtherwise(Next(w, ExpireRow(u, now)), t, ref)
  {
    var next := Next(w, ExpireRow(u, now));
    forall c | c != ByTransfer(t) ensures !Covers(next, c, ref) {
      assert !Covers(w, c, ref);
      assert c.ByFile? ==> forall h :: ClosesFile(next, h, c.f) <==> ClosesFile(w, h, c.f);
      assert c.ByUpload? ==> forall h :: ClosesOrphan(next, h, c.u, ref.cid) <==> ClosesOrphan(w, h, c.u, ref.cid);
    }
  }

  // ---- Two transfers for one upload -----------------------------------------------------------------------------

  /** Two transfers of one live upload, the second still sending content nothing has heard of. */
  ghost predicate Doubled(w: World, t0: nat, t: nat, ref: PinRef) {
    && WorldInv(w) && t0 != t && t0 in w.transfers && Sends(w, t) && w.transfers[t].upload == w.transfers[t0].upload
    && IsLive(w.db, w.transfers[t].upload) && w.transfers[t].node == ref.node && ValidCid(ref.cid) && Unheard(w, ref)
  }

  /** A first commit of other content lets nobody hear of the pin. */
  lemma CommitUnheard(w: World, t0: nat, ref: PinRef, f: FileId)
    requires WorldInv(w) && Unheard(w, ref) && t0 in w.transfers && w.transfers[t0].phase.Holding?
    requires IsLive(w.db, w.transfers[t0].upload) && f !in w.db.files
    ensures var next := Next(w, CommitRow(t0, 0, f, Acked));
            Unheard(next, ref) && next.transfers == w.transfers - {t0} && RowAt(next, w.transfers[t0].upload, Committed)
  {
    var ref0 := PinRef(w.transfers[t0].node, w.transfers[t0].phase.cid);
    assert !TransferKnows(w, t0, ref) && TransferOk(w, t0);
    CommitWrites(w, t0, ref0, f);
    var next := Next(w, CommitRow(t0, 0, f, Acked));
    forall x ensures !TransferKnows(next, x, ref) { assert !TransferKnows(w, x, ref); }
    forall g ensures !FileKnows(next.db, g, ref) { assert !FileKnows(w.db, g, ref); }
    forall u ensures !UploadKnows(next.db, u, ref) { assert !UploadKnows(w.db, u, ref); }
    forall h ensures !JobKnows(next, h, ref) { assert !JobKnows(w, h, ref); }
  }

  predicate RowAt(w: World, u: UploadId, status: UploadStatus) { u in w.db.uploads && w.db.uploads[u].status == status }

  /** The first transfer's commit goes through; the second one's is then a replay. */
  lemma DoubledHolding(w: World, t0: nat, t: nat, ref: PinRef)
    requires Doubled(w, t0, t, ref) && w.transfers[t0].phase.Holding?
    ensures Loses(w, ref)
  {
    var f := FreshId(w.db.files.Keys);
    CommitUnheard(w, t0, ref, f);
    var a, b := CommitRow(t0, 0, f, Acked), PinContent(t, ref.cid);
    var committed := Next(w, a);
    var held := Next(committed, b);
    StepKeepsWorld(w, a);
    StepKeepsWorld(committed, b);
    PinHeardByOne(committed, t, ref);
    OnlyOneCovers(held, ref, t);
    ReplayCoversIff(held, t, 0, f, ref);
    var c := CommitRow(t, 0, f, Acked);
    assert [c][1..] == [];
    assert Run(held, [c]) == Run(Next(held, c), []);
    LosesAfter(held, [c], ref);
    LosesLater(w, a, b, ref);
  }

  const A_CID := Cid("aaaaaaaaaaaaaaaaaaaa")

  const B_CID := Cid("bbbbbbbbbbbbbbbbbbbb")

  lemma TwoCids()
    ensures ValidCid(A_CID) && ValidCid(B_CID) && A_CID != B_CID
  {
    assert A_CID.text[0] == 'a' && B_CID.text[0] == 'b';
  }

  lemma OtherPinUnheard(w: World, t0: nat, other: Cid, ref: PinRef)
    requires Unheard(w, ref) && Sends(w, t0) && other != ref.cid
    ensures Unheard(Next(w, PinContent(t0, other)), ref)
  {
    var next := Next(w, PinContent(t0, other));
    forall x ensures !TransferKnows(next, x, ref) { assert !TransferKnows(w, x, ref); }
    forall h ensures !JobKnows(next, h, ref) { assert !JobKnows(w, h, ref); }
  }

  /** Both are still sending: let the first one pin something else. */
  lemma DoubledSending(w: World, t0: nat, t: nat, ref: PinRef)
    requires Doubled(w, t0, t, ref) && w.transfers[t0].phase.Sending?
    ensures Loses(w, ref)
  {
    TwoCids();
    var other := if ref.cid == A_CID then B_CID else A_CID;
    var a := PinContent(t0, other);
    var next := Next(w, a);
    StepKeepsWorld(w, a);
    OtherPinUnheard(w, t0, other, ref);
    DoubledHolding(next, t0, t, ref);
    LosesNext(w, a, ref);
  }

  // ---- The first transfer has begun its compensation -------------------------------------------------------------

  /** A sweep of the failed row is about to close while the second transfer is about to record its own CID there. */
  ghost predicate Crossing(w: World, t: nat, h: nat, u: UploadId, ref: PinRef, recording: bool) {
    && WorldInv(w) && t in w.transfers && w.transfers[t].node == ref.node && w.transfers[t].upload == u
    && w.transfers[t].phase == (if recording then Recording(ref.cid, false) else Compensating(ref.cid, false))
    && RowAt(w, u, Failed) && h in w.jobs && w.jobs[h].kind == OrphanSweep && w.jobs[h].target == u
    && (w.jobs[h].phase == Closing(true) || (!recording && w.jobs[h].phase == Unpinning))
    && UnheardBut(w, ref, t) && ref in w.pinned && ValidCid(ref.cid)
  }

  /** The record is written, and the sweep, which clears the row whatever it holds, wipes it out. */
  /** Once the transfer and the job are gone and the row's CID is cleared, nothing has heard of the pin. */
  lemma ForgottenUnheard(w: World, end: World, t: nat, h: nat, u: UploadId, ref: PinRef)
    requires Crossing(w, t, h, u, ref, true)
    requires end.db.uploads == w.db.uploads[u := w.db.uploads[u].(cid := NoCid)] && end.db.files == w.db.files
    requires end.transfers == w.transfers - {t} && end.jobs == w.jobs - {h}
    ensures Unheard(end, ref)
  {
    forall x ensures !TransferKnows(end, x, ref) { assert x != t ==> !TransferKnows(w, x, ref); }
    forall f ensures !FileKnows(end.db, f, ref) { assert !FileKnows(w.db, f, ref); }
    forall v ensures !UploadKnows(end.db, v, ref) { assert !UploadKnows(w.db, v, ref); }
    forall k ensures !JobKnows(end, k, ref) { assert !JobKnows(w, k, ref); }
  }

  lemma RecordThenClose(w: World, t: nat, h: nat, u: UploadId, ref: PinRef)
    requires Crossing(w, t, h, u, ref, true)
    ensures Loses(w, ref)
  {
    var a, b := RecordRow(t, true), CloseJob(h, true);
    var end := Next(Next(w, a), b);
    assert end.db.uploads == w.db.uploads[u := w.db.uploads[u].(cid := NoCid)] && end.db.files == w.db.files;
    assert end.transfers == w.transfers - {t} && end.jobs == w.jobs - {h} && end.pinned == w.pinned;
    ForgottenUnheard(w, end, t, h, u, ref);
    UnheardUncovered(end, ref);
    RunTwo(w, a, b);
    LosesAfter(w, [a, b], ref);
  }

  lemma SameUnheardBut(w: World, next: World, ref: PinRef, t: nat)
    requires UnheardBut(w, ref, t) && next.db.files == w.db.files && next.db.uploads == w.db.uploads
    requires forall x | x != t && x in next.transfers :: x in w.transfers && next.transfers[x] == w.transfers[x]
    requires forall h | h in next.jobs && h in w.jobs :: next.jobs[h].ref == w.jobs[h].ref
    requires forall h | h in next.jobs && h !in w.jobs :: next.jobs[h].ref != ref
    ensures UnheardBut(next, ref, t)
  {
    forall x | x != t ensures !TransferKnows(next, x, ref) { assert !TransferKnows(w, x, ref); }
    forall f ensures !FileKnows(next.db, f, ref) { assert !FileKnows(w.db, f, ref); }
    forall v ensures !UploadKnows(next.db, v, ref) { assert !UploadKnows(w.db, v, ref); }
    forall h ensures !JobKnows(next, h, ref) { assert !JobKnows(w, h, ref); }
  }

  lemma ReleaseThenRecord(w: World, t: nat, h: nat, u: UploadId, ref: PinRef)
    requires Crossing(w, t, h, u, ref, false) && w.jobs[h].phase == Closing(true)
    ensures Loses(w, ref)
  {
    var a := Compensate(t, true);
    StepKeepsWorld(w, a);
    SameUnheardBut(w, Next(w, a), ref, t);
    RecordThenClose(Next(w, a), t, h, u, ref);
    LosesNext(w, a, ref);
  }

  lemma UnpinThenRelease(w: World, t: nat, h: nat, u: UploadId, ref: PinRef)
    requires Crossing(w, t, h, u, ref, false)
    ensures Loses(w, ref)
  {
    if w.jobs[h].phase == Closing(true) {
      ReleaseThenRecord(w, t, h, u, ref);
    } else {
      var a := UnpinCid(h, Removed);
      assert !JobKnows(w, h, ref);
      StepKeepsWorld(w, a);
      SameUnheardBut(w, Next(w, a), ref, t);
      ReleaseThenRecord(Next(w, a), t, h, u, ref);
      LosesNext(w, a, ref);
    }
  }

  lemma CountThenUnpin(w: World, t: nat, h: nat, u: UploadId, ref: PinRef)
    requires WorldInv(w) && Uncommitted(w, t, ref) && w.transfers[t].upload == u && RowAt(w, u, Failed)
    requires h in w.jobs && w.jobs[h].kind == OrphanSweep && w.jobs[h].target == u && w.jobs[h].phase == Counting
    requires UnheardBut(w, ref, t) && ref in w.pinned && ValidCid(ref.cid)
    ensures Loses(w, ref)
  {
    var a := CountRefs(h);
    StepKeepsWorld(w, a);
    SameUnheardBut(w, Next(w, a), ref, t);
    UnpinThenRelease(Next(w, a), t, h, u, ref);
    LosesNext(w, a, ref);
  }

  /** The failed row, with the first transfer's CID, is swept while the second transfer compensates. */
  lemma SweepStarts(w: World, t: nat, u: UploadId, ref: PinRef)
    requires WorldInv(w) && Uncommitted(w, t, ref) && w.transfers[t].upload == u && OrphanListed(w.db, u)
    requires UnheardBut(w, ref, t) && ref in w.pinned && ValidCid(ref.cid)
    ensures Loses(w, ref)
  {
    var h := FreshId(w.jobs.Keys);
    var a := SweepOrphan(h, u);
    StepKeepsWorld(w, a);
    assert !UploadKnows(w.db, u, ref);
    SameUnheardBut(w, Next(w, a), ref, t);
    assert TransferOk(Next(w, a), t);
    CountThenUnpin(Next(w, a), t, h, u, ref);
    LosesNext(w, a, ref);
  }

  /** The second transfer pins its content and is refused by the failed row. */
  lemma RefusedByFailed(w: World, t: nat, u: UploadId, ref: PinRef)
    requires WorldInv(w) && Sends(w, t) && w.transfers[t].upload == u && w.transfers[t].node == ref.node
    requires OrphanListed(w.db, u) && Unheard(w, ref) && ValidCid(ref.cid)
    ensures Loses(w, ref)
  {
    var a, b := PinContent(t, ref.cid), CommitRow(t, 0, 0, Acked);
    assert TransferOk(w, t);
    StepKeepsWorld(w, a);
    StepKeepsWorld(Next(w, a), b);
    PinHeardByOne(w, t, ref);
    var next := Next(Next(w, a), b);
    assert next == SetPhase(Next(w, a), t, Compensating(ref.cid, false));
    SameUnheardBut(Next(w, a), next, ref, t);
    assert TransferOk(next, t);
    SweepStarts(next, t, u, ref);
    LosesLater(w, a, b, ref);
  }

  /** The first transfer completes its compensation: the row fails and takes its CID. */
  lemma DoubledCompensating(w: World, t0: nat, t: nat, ref: PinRef)
    requires Doubled(w, t0, t, ref) && w.transfers[t0].phase.Compensating? && !w.transfers[t0].phase.applied
    ensures Loses(w, ref)
  {
    var a, b := Compensate(t0, true), RecordRow(t0, true);
    var u := w.transfers[t].upload;
    assert TransferOk(w, t0) && TransferOk(w, t) && !TransferKnows(w, t0, ref);
    StepKeepsWorld(w, a);
    StepKeepsWorld(Next(w, a), b);
    var next := Next(Next(w, a), b);
    assert next.db.uploads == w.db.uploads[u := next.db.uploads[u]] &&
      next.db.uploads[u].cid == w.transfers[t0].phase.cid;
    assert Unheard(next, ref) by {
      forall x ensures !TransferKnows(next, x, ref) { assert !TransferKnows(w, x, ref); }
      forall f ensures !FileKnows(next.db, f, ref) { assert !FileKnows(w.db, f, ref); }
      forall v ensures !UploadKnows(next.db, v, ref) { assert !UploadKnows(w.db, v, ref); }
      forall h ensures !JobKnows(next, h, ref) { assert !JobKnows(w, h, ref); }
    }
    RefusedByFailed(next, t, u, ref);
    LosesLater(w, a, b, ref);
  }

  // ---- Every undisciplined step ---------------------------------------------------------------------------------

  predicate OnUpload(w: World, t: nat, u: UploadId) { t in w.transfers && w.transfers[t].upload == u }

  /** The pin that a transfer holds and nothing else covers. */
  ghost predicate AtStake(w: World, t: nat, ref: PinRef) {
    t in w.transfers && ref in Carried(w.transfers[t]) && ref in w.pinned && !CoveredOtherwise(w, t, ref)
  }

  /** What an undisciplined step puts at risk: the pin of the transfer it cuts off, or, where content is still to come,
      any pin nothing has heard of. */
  ghost predicate Risks(w: World, s: Step, ref: PinRef) {
    match s
    case Begin(t, user, u) =>
      && t !in w.transfers && IsLive(w.db, u) && w.db.uploads[u].owner == user && w.db.uploads[u].node == ref.node
      && ValidCid(ref.cid) && Unheard(w, ref)
    case ExpireRow(u, now) =>
      && IsLive(w.db, u) && w.db.uploads[u].expiresAt < now
      && exists t :: OnUpload(w, t, u) &&
           if w.transfers[t].phase.Sending? then w.transfers[t].node == ref.node && ValidCid(ref.cid) && Unheard(w, ref)
           else AtStake(w, t, ref)
    case PinUnseen(t, cid, _) => Sends(w, t) && ref == PinRef(w.transfers[t].node, cid) && !Covered(w, ref)
    case Compensate(t, _) => AtStake(w, t, ref) && w.transfers[t].phase.Compensating?
    case RecordRow(t, _) => AtStake(w, t, ref) && w.transfers[t].phase.Recording?
    case Lose(t) => AtStake(w, t, ref)
    case _ => false
  }

  lemma LosesNow(w: World, ref: PinRef)
    requires Lost(w, ref)
    ensures Loses(w, ref)
  {
    assert Run(w, []) == w;
    LosesAfter(w, [], ref);
  }

  lemma SecondBeginLoses(w: World, t: nat, user: UserId, u: UploadId, ref: PinRef)
    requires WorldInv(w) && DisciplineInv(w) && !NoTransferOn(w, u) && Risks(w, Begin(t, user, u), ref)
    ensures Loses(Next(w, Begin(t, user, u)), ref)
  {
    var t0 :| t0 in w.transfers && w.transfers[t0].upload == u;
    var next := Next(w, Begin(t, user, u));
    StepKeepsWorld(w, Begin(t, user, u));
    assert RowAwaits(w, t0);
    assert Unheard(next, ref) by {
      forall x ensures !TransferKnows(next, x, ref) { assert !TransferKnows(w, x, ref); }
      forall h ensures !JobKnows(next, h, ref) { assert !JobKnows(w, h, ref); }
    }
    match w.transfers[t0].phase
    case Sending => DoubledSending(next, t0, t, ref);
    case Holding(_) => DoubledHolding(next, t0, t, ref);
    case Compensating(_, _) => DoubledCompensating(next, t0, t, ref);
    case Recording(_, _) => assert false;
  }

  lemma ExpiryUnheard(w: World, u: UploadId, now: int, ref: PinRef)
    requires Unheard(w, ref) && IsLive(w.db, u) && w.db.uploads[u].expiresAt < now
    ensures Unheard(Next(w, ExpireRow(u, now)), ref)
  {
    var next := Next(w, ExpireRow(u, now));
    forall x ensures !TransferKnows(next, x, ref) { assert !TransferKnows(w, x, ref); }
    forall f ensures !FileKnows(next.db, f, ref) { assert !FileKnows(w.db, f, ref); }
    forall v ensures !UploadKnows(next.db, v, ref) { assert !UploadKnows(w.db, v, ref); }
    forall h ensures !JobKnows(next, h, ref) { assert !JobKnows(w, h, ref); }
  }

  lemma ExpiryLoses(w: World, u: UploadId, now: int, ref: PinRef)
    requires WorldInv(w) && DisciplineInv(w) && Risks(w, ExpireRow(u, now), ref)
    ensures Loses(Next(w, ExpireRow(u, now)), ref)
  {
    var t :| OnUpload(w, t, u) &&
      if w.transfers[t].phase.Sending? then w.transfers[t].node == ref.node && ValidCid(ref.cid) && Unheard(w, ref)
      else AtStake(w, t, ref);
    var next := Next(w, ExpireRow(u, now));
    StepKeepsWorld(w, ExpireRow(u, now));
    assert RowAwaits(w, t) && TransferOk(next, t);
    if w.transfers[t].phase.Sending? {
      ExpiryUnheard(w, u, now, ref);
      ExpiredSending(next, t, ref);
    } else {
      ExpiryUncovers(w, u, now, t, ref);
      if w.transfers[t].phase.Holding? {
        ExpiredHolding(next, t, ref);
      } else {
        ExpiredCompensating(next, t, ref);
      }
    }
  }

  /** After any disciplined run, a step outside the discipline can be continued, inside it, to a world that holds a pin
      nothing covers: whichever pin the step puts at risk. */
  lemma DisciplineNeeded(w: World, s: Step, ref: PinRef)
    requires WorldInv(w) && DisciplineInv(w) && !Disciplined(w, s) && Risks(w, s, ref)
    ensures Loses(Next(w, s), ref)
  {
    match s
    case Begin(t, user, u) => SecondBeginLoses(w, t, user, u, ref);
    case ExpireRow(u, now) => ExpiryLoses(w, u, now, ref);
    case PinUnseen(t, cid, stored) =>
      UnseenCoversIff(w, t, cid, stored);
      LosesNow(Next(w, s), ref);
    case Compensate(t, _) =>
      UnstoredCoversIff(w, t, ref);
      LosesNow(Next(w, s), ref);
    case RecordRow(t, _) =>
      UnstoredCoversIff(w, t, ref);
      LosesNow(Next(w, s), ref);
    case Lose(t) =>
      LoseCoversIff(w, t, ref);
      LosesNow(Next(w, s), ref);
    case _ =>
  }
}
