/** What the other transactions write. */
module DropRows {
  import opened Texts
  import opened DropTables
  import opened DropLedger
  import opened DropUploads
  import opened DropPins
  import opened DropExpiry

  // ---- Commit -----------------------------------------------------------------------------------------------

  predicate Owns(db: Tables, user: UserId, id: UploadId) { id in db.uploads && db.uploads[id].owner == user }

  /** Every error of a commit has its case, and an error writes nothing. */
  lemma CommitErrors(db: Tables, user: UserId, id: UploadId, cid: Cid, reported: int, f: FileId)
    requires Inv(db)
    ensures var out := Commit(db, user, id, cid, reported, f);
            && (out.result == Err(NotFound) <==> !Owns(db, user, id))
            && (out.result == Err(Conflict) <==>
                  Owns(db, user, id) && db.uploads[id].status in {UploadStatus.Failed, UploadStatus.Expired})
            && (out.result == Err(ConstraintViolation) <==>
                  Owns(db, user, id) && db.uploads[id].status in {Reserved, Uploading} && f in db.files)
            && (out.result.Err? ==> out.db == db && out.result.error in {NotFound, Conflict, ConstraintViolation})
  {
    assert CommitHasFile(db, id);
  }

  /** A commit that goes through shows what was reserved: the file carries the reservation's owner, node, scope and
      attributes, and the node's size when it gives one. */
  lemma CommitShowsReservation(db: Tables, user: UserId, id: UploadId, cid: Cid, reported: int, f: FileId)
    requires Owns(db, user, id) && db.uploads[id].status in {Reserved, Uploading} && f !in db.files
    ensures var out := Commit(db, user, id, cid, reported, f);
            var row := db.uploads[id];
            && out.result == Ok(f) && f in out.db.files && f in out.db.pins && id in out.db.uploads
            && out.db.files[f].upload == id && out.db.files[f].owner == user && out.db.files[f].node == row.node
            && out.db.files[f].scope == row.scope && out.db.files[f].attrs == row.attrs
            && out.db.files[f].cid == cid && out.db.files[f].status == Active
            && out.db.files[f].size == (if reported > 0 then reported else row.declared)
            && out.db.pins[f].node == row.node && out.db.pins[f].cid == cid && out.db.pins[f].status == Pinned
            && out.db.uploads[id] == row.(status := Committed, cid := cid)
  {
  }

  /** And touches no other row. */
  lemma CommitTouchesOnly(db: Tables, user: UserId, id: UploadId, cid: Cid, reported: int, f: FileId)
    ensures var next := Commit(db, user, id, cid, reported, f).db;
            && next.uploads.Keys == db.uploads.Keys && next.peers == db.peers
            && (forall u | u in db.uploads && u != id :: next.uploads[u] == db.uploads[u])
            && (forall g | g in db.files :: g in next.files && next.files[g] == db.files[g])
            && (forall g | g in next.files && g !in db.files :: g == f)
            && next.nodes.Keys == db.nodes.Keys
            && (forall n | n in db.nodes :: next.nodes[n] == db.nodes[n].(reserved := next.nodes[n].reserved))
  {
  }

  // ---- What a file shows, over runs -------------------------------------------------------------------------

  /** In every reachable state a file shows what was reserved for it, visibility apart. */
  lemma FilesShowReservations(txs: seq<Tx>, f: FileId)
    requires f in Exec(EMPTY_TABLES, txs).files
    ensures var db := Exec(EMPTY_TABLES, txs);
            && db.files[f].upload in db.uploads
            && var file, row := db.files[f], db.uploads[db.files[f].upload];
               && file.owner == row.owner && file.node == row.node && file.scope == row.scope && file.cid == row.cid
               && file.attrs == row.attrs.(visibility := file.attrs.visibility)
  {
    EmptyTablesInv();
    ExecKeepsInv(EMPTY_TABLES, txs);
    assert FileOk(Exec(EMPTY_TABLES, txs), f);
  }

  /** The owner sets the visibility of a file that is not being deleted. */
  predicate Shows(db: Tables, tx: Tx, f: FileId) {
    tx.TSetVisibility? && tx.fileId == f && f in db.files && db.files[f].owner == tx.user &&
    db.files[f].status == Active
  }

  /** The visibility that the owner set last. */
  ghost function LastShown(db: Tables, txs: seq<Tx>, f: FileId, shown: string): string
    decreases |txs|
  {
    if txs == [] then shown
    else LastShown(Apply(db, txs[0]), txs[1..], f, if Shows(db, txs[0], f) then txs[0].visibility else shown)
  }

  /** Where a file's row may change: its status, and its visibility when the owner sets it. */
  lemma FileRowEvolves(db: Tables, tx: Tx, f: FileId)
    requires f in db.files
    ensures f in Apply(db, tx).files
    ensures var was, now := db.files[f], Apply(db, tx).files[f];
            var visibility := if Shows(db, tx, f) then tx.visibility else was.attrs.visibility;
            now == was.(status := now.status, attrs := was.attrs.(visibility := visibility))
  {
    match tx
    case TReserve(input, limit, id, now) => assert Apply(db, tx).files == db.files;
    case _ =>
  }

  /** Over every run a file keeps its reservation, owner, place, CID, size and attributes; its visibility is the one
      its owner set last, and otherwise the reserved one. */
  lemma {:induction false} VisibilityIsLastSet(db: Tables, txs: seq<Tx>, f: FileId)
    requires f in db.files
    ensures var end := Exec(db, txs);
            && f in end.files
            && end.files[f] == db.files[f].(
                 status := end.files[f].status,
                 attrs := db.files[f].attrs.(visibility := LastShown(db, txs, f, db.files[f].attrs.visibility)))
    decreases |txs|
  {
    if txs != [] {
      FileRowEvolves(db, txs[0], f);
      VisibilityIsLastSet(Apply(db, txs[0]), txs[1..], f);
    }
  }

  /** Over every run an upload keeps what was reserved. */
  lemma {:induction false} ReservedForGood(db: Tables, txs: seq<Tx>, id: UploadId)
    requires id in db.uploads
    ensures var end := Exec(db, txs);
            && id in end.uploads
            && var was, now := db.uploads[id], end.uploads[id];
               && now.owner == was.owner && now.node == was.node && now.scope == was.scope && now.attrs == was.attrs
               && now.declared == was.declared && now.expiresAt == was.expiresAt
    decreases |txs|
  {
    if txs != [] {
      ApplyEvolves(db, txs[0], id);
      ReservedForGood(Apply(db, txs[0]), txs[1..], id);
    }
  }

  // ---- Release and orphan CIDs ------------------------------------------------------------------------------

  /** A release ends a live upload and leaves any other alone. */
  lemma ReleaseEnds(db: Tables, id: UploadId, status: UploadStatus)
    ensures var out := Release(db, id, status);
            && (out.result == Err(NotFound) <==> id !in db.uploads) && (id in db.uploads ==> out.result == Ok(()))
            && out.db.files == db.files && out.db.pins == db.pins && out.db.peers == db.peers
            && (if id in db.uploads && db.uploads[id].status in {Reserved, Uploading}
                then out.db.uploads == db.uploads[id := db.uploads[id].(status := status, reserved := 0)]
                else out.db == db)
  {
  }

  /** An orphan CID is written on a failed upload and nowhere else, and is all that is written. */
  lemma OrphanWritten(db: Tables, id: UploadId, cid: Cid)
    ensures RecordOrphan(db, id, cid) ==
              if id in db.uploads && db.uploads[id].status == UploadStatus.Failed
              then db.(uploads := db.uploads[id := db.uploads[id].(cid := cid)]) else db
  {
  }

  // ---- Deletion ---------------------------------------------------------------------------------------------

  predicate Shares(db: Tables, f: FileId, g: FileId)
    requires f in db.files
  {
    && g in db.files && g != f && db.files[g].node == db.files[f].node && db.files[g].cid == db.files[f].cid
    && db.files[g].status in {Active, Unavailable}
  }

  /** A first delete marks the file, and its pin as owed or not, by whether another file in use shares its place; a
      repeated one only reads what was marked. */
  lemma MarkAnswers(db: Tables, f: FileId)
    requires Inv(db)
    ensures f in db.files ==> f in db.pins
    ensures var out := Mark(db, f);
            && (out.result == Err(NotFound) <==> f !in db.files) && (f !in db.files ==> out.db == db)
            && (f in db.files && db.files[f].status in {Active, Unavailable} ==>
                  && (out.result == Ok(true) <==> forall g :: !Shares(db, f, g)) && out.result.Ok?
                  && out.db.files == db.files[f := db.files[f].(status := DeletePending)]
                  && out.db.pins == db.pins[f := db.pins[f].(
                                              status := if out.result == Ok(true) then UnpinPending else Unpinned)])
            && (f in db.files && db.files[f].status in {DeletePending, FileStatus.Deleted} ==>
                  && out.db == db && out.result.Ok?
                  && (out.result == Ok(true) <==>
                        db.files[f].status == DeletePending && db.pins[f].status in {UnpinPending, PinError}))
  {
    assert FileOk(db, f);
    if f in db.files {
      assert forall g :: g in OtherReferences(db, f) <==> Shares(db, f, g);
    }
  }

  /** Finalising records the node's answer on the pin, and ends a pending deletion when the pin is gone. */
  lemma FinalizeWrites(db: Tables, f: FileId, unpinned: bool)
    requires Inv(db) && f in db.files
    ensures f in db.pins
    ensures var next := Finalize(db, f, unpinned);
            && next.pins == db.pins[f := db.pins[f].(status := if unpinned then Unpinned else PinError)]
            && next.files == db.files[f := db.files[f].(
                 status := if unpinned && db.files[f].status == DeletePending then FileStatus.Deleted
                           else db.files[f].status)]
            && next.uploads == db.uploads && next.quota == db.quota && next.nodes == db.nodes && next.peers == db.peers
  {
    assert FileOk(db, f);
  }

  // ---- Node states ------------------------------------------------------------------------------------------

  /** The text of every state but disabled. */
  lemma StateWords()
    ensures NormalizeDropState("starting") == StateStarting && NormalizeDropState("active") == StateActive
    ensures NormalizeDropState("degraded") == StateDegraded && NormalizeDropState("full") == StateFull
    ensures NormalizeDropState("unreachable") == StateUnreachable
  {
    LowerWord("starting");
    LowerWord("active");
    LowerWord("degraded");
    LowerWord("full");
    LowerWord("unreachable");
    assert "starting"[0] == 's' && "active"[0] == 'a' && "degraded"[0] == 'd' && "full"[0] == 'f' &&
           "unreachable"[0] == 'u';
  }

  /** A report is read as a state exactly when it is the word for it, in any case and with blanks around; every other
      text, and none, is disabled. */
  lemma ReportsRead(before: string, text: string, after: string)
    requires Blank(before) && Blank(after)
    ensures var state := NormalizeDropState(before + text + after);
            && (SameWord(text, "starting") ==> state == StateStarting)
            && (SameWord(text, "active") ==> state == StateActive)
            && (SameWord(text, "degraded") ==> state == StateDegraded)
            && (SameWord(text, "full") ==> state == StateFull)
            && (SameWord(text, "unreachable") ==> state == StateUnreachable)
  {
    StateWords();
    if SameWord(text, "starting") { ReadAlike(before, text, after, "starting"); }
    if SameWord(text, "active") { ReadAlike(before, text, after, "active"); }
    if SameWord(text, "degraded") { ReadAlike(before, text, after, "degraded"); }
    if SameWord(text, "full") { ReadAlike(before, text, after, "full"); }
    if SameWord(text, "unreachable") { ReadAlike(before, text, after, "unreachable"); }
  }

  lemma OtherReportsDisable(raw: string)
    requires var s := TrimSpace(raw);
             !SameWord(s, "starting") && !SameWord(s, "active") && !SameWord(s, "degraded") && !SameWord(s, "full") &&
             !SameWord(s, "unreachable")
    ensures NormalizeDropState(raw) == StateDisabled
  {
    ReadOther(raw, "starting");
    ReadOther(raw, "active");
    ReadOther(raw, "degraded");
    ReadOther(raw, "full");
    ReadOther(raw, "unreachable");
  }

  // ---- Node reports -----------------------------------------------------------------------------------------

  /** What a heartbeat writes, column by column. */
  lemma HeartbeatColumns(db: Tables, n: NodeId, state: NodeState, repo: int, max: int)
    ensures var beat := Heartbeat(db, n, state, repo, max);
            && n in beat.nodes && beat == db.(nodes := db.nodes[n := beat.nodes[n]])
            && beat.nodes[n].enabled && beat.nodes[n].state == state
            && beat.nodes[n].repoSize == repo && beat.nodes[n].storageMax == max
            && beat.nodes[n].acceptsPublic == (n in db.nodes && db.nodes[n].acceptsPublic)
            && beat.nodes[n].reserved == (if n in db.nodes then db.nodes[n].reserved else 0)
  {
  }

  /** What a hello writes. */
  lemma HelloColumns(db: Tables, n: NodeId, enabled: bool, public: bool)
    ensures var hello := Capability(db, n, enabled, public);
            && n in hello.nodes && hello == db.(nodes := db.nodes[n := hello.nodes[n]])
            && hello.nodes[n].enabled == enabled && hello.nodes[n].acceptsPublic == public
            && hello.nodes[n].state == (if !enabled then StateDisabled
                                        else if n in db.nodes then db.nodes[n].state else StateStarting)
            && hello.nodes[n].repoSize == (if n in db.nodes then db.nodes[n].repoSize else 0)
            && hello.nodes[n].storageMax == (if n in db.nodes then db.nodes[n].storageMax else 0)
            && hello.nodes[n].reserved == (if n in db.nodes then db.nodes[n].reserved else 0)
  {
  }

  /** A hello of an enabled service and a heartbeat give the same row in either order. */
  lemma ReportsCommute(db: Tables, n: NodeId, state: NodeState, repo: int, max: int, public: bool)
    ensures Heartbeat(Capability(db, n, true, public), n, state, repo, max) ==
            Capability(Heartbeat(db, n, state, repo, max), n, true, public)
  {
    var hello, beat := Capability(db, n, true, public), Heartbeat(db, n, state, repo, max);
    HelloColumns(db, n, true, public);
    HeartbeatColumns(db, n, state, repo, max);
    HeartbeatColumns(hello, n, state, repo, max);
    HelloColumns(beat, n, true, public);
    var a, b := Heartbeat(hello, n, state, repo, max).nodes, Capability(beat, n, true, public).nodes;
    assert a[n] == b[n];
    assert a == db.nodes[n := a[n]] && b == db.nodes[n := b[n]];
  }

  /** The reports that runs are made of are those the store's methods write. */
  lemma RunsReport(db: Tables, n: NodeId, state: NodeState, repo: int, max: int, enabled: bool, public: bool,
                   online: bool)
    ensures Apply(db, THeartbeat(n, state, repo, max)) == Heartbeat(db, n, state, repo, max)
    ensures Apply(db, TCapability(n, enabled, public)) == Capability(db, n, enabled, public)
    ensures Apply(db, TPeer(n, online)) == db.(peers := db.peers[n := online])
  {
  }

  /** And so are the reservations and releases. */
  lemma RunsReserve(db: Tables, input: ReserveInput, limit: TierLimit, id: UploadId, now: int)
    ensures Apply(db, TReserve(input, limit, id, now)) == Reserve(db, input, limit, id, now).db
    ensures Apply(db, TRelease(id, UploadStatus.Failed)) == Release(db, id, UploadStatus.Failed).db
    ensures Apply(db, TRelease(id, UploadStatus.Expired)) == Release(db, id, UploadStatus.Expired).db
  {
  }

  /** And the commits and deletions. */
  lemma RunsCommitAndDelete(db: Tables, user: UserId, id: UploadId, cid: Cid, reported: int, f: FileId, unpinned: bool)
    ensures Apply(db, TCommit(user, id, cid, reported, f)) == Commit(db, user, id, cid, reported, f).db
    ensures Apply(db, TRecordOrphan(id, cid)) == RecordOrphan(db, id, cid)
    ensures Apply(db, TMark(f)) == Mark(db, f).db
    ensures Apply(db, TFinalize(f, unpinned)) == Finalize(db, f, unpinned)
  {
  }

  // ---- CIDs -------------------------------------------------------------------------------------------------

  predicate LetterOrDigit(c: char) {
    48 <= c as int <= 57 || 65 <= c as int <= 90 || 97 <= c as int <= 122
  }

  /** A CID is twenty to a hundred and twenty letters and digits; no other text is sent to a node. */
  lemma CidShape(text: string)
    ensures ValidCid(Cid(text)) <==> 20 <= |text| <= 120 && forall c | c in text :: LetterOrDigit(c)
    ensures !ValidCid(NoCid)
  {
    if forall c | c in text :: LetterOrDigit(c) {
      assert forall i | 0 <= i < |text| :: text[i] in text;
    }
  }

  // ---- Expiry as steps of the pin lifecycle -----------------------------------------------------------------

  function ExpirySteps(ids: seq<UploadId>, now: int): seq<Step>
    decreases |ids|
  {
    if ids == [] then [] else ExpirySteps(ids[..|ids| - 1], now) + [ExpireRow(ids[|ids| - 1], now)]
  }

  /** An expiry pass is a run of single expiries, whatever else is going on. */
  lemma {:induction false} ExpiryPassIsRun(w: World, ids: seq<UploadId>, now: int)
    requires Inv(w.db) && Distinct(ids) && forall i | 0 <= i < |ids| :: ids[i] in ExpiredSet(w.db, now)
    ensures Run(w, ExpirySteps(ids, now)) == w.(db := ReleaseAll(w.db, ids))
    decreases |ids|
  {
    if ids != [] {
      var init, last := ids[..|ids| - 1], ids[|ids| - 1];
      ExpiryPassIsRun(w, init, now);
      RunSnoc(w, ExpirySteps(init, now), ExpireRow(last, now));
      ReleaseAllRows(w.db, init);
      assert RowAfter(w.db, ReleaseAll(w.db, init), init, last);
    }
  }

  /** And a single expiry never touches a reservation whose time is not over. */
  lemma UnexpiredStays(w: World, u: UploadId, now: int)
    requires u in w.db.uploads && now <= w.db.uploads[u].expiresAt
    ensures Next(w, ExpireRow(u, now)) == w
  {
  }
}
