/** What every transaction keeps, and so every run. */
module DropLedger {
  import opened Sums
  import opened DropTables

  // ---- Row contributions -----------------------------------------------------------------------

  ghost function PublicHold(user: UserId): Upload -> int {
    (u: Upload) => if Live(u.status) && u.scope == Public && u.owner == user then u.reserved else 0
  }

  ghost function NodeHold(node: NodeId): Upload -> int {
    (u: Upload) => if Live(u.status) && u.node == node then u.reserved else 0
  }

  ghost function PublicSize(user: UserId): File -> int {
    (f: File) => if Referenced(f.status) && f.scope == Public && f.owner == user then f.size else 0
  }

  // ---- The invariant: counters equal rows, keys are unique, commits happen once ---------------------

  predicate UploadOk(u: Upload) {
    u.declared > 0 && u.reserved >= 0 && (Live(u.status) ==> u.reserved == u.declared && u.cid == NoCid)
  }

  ghost predicate RowsOk(db: Tables) {
    && (forall id | id in db.uploads :: UploadOk(db.uploads[id]))
    && (forall f | f in db.files :: db.files[f].size > 0)
  }

  predicate SameKey(db: Tables, a: UploadId, b: UploadId) {
    && a in db.uploads && b in db.uploads
    && db.uploads[a].owner == db.uploads[b].owner && db.uploads[a].key == db.uploads[b].key
  }

  ghost predicate KeysUnique(db: Tables) {
    forall a, b :: SameKey(db, a, b) ==> a == b
  }

  /** A file and its pin agree with the committed reservation they came from, visibility apart. */
  predicate FileOk(db: Tables, f: FileId) {
    (f in db.files <==> f in db.pins) &&
    (f in db.files ==>
       var file := db.files[f];
       && db.pins[f].node == file.node && db.pins[f].cid == file.cid
       && file.upload in db.uploads
       && var row := db.uploads[file.upload];
          row.status == Committed && row.owner == file.owner && row.node == file.node && row.scope == file.scope &&
          row.cid == file.cid && file.attrs == row.attrs.(visibility := file.attrs.visibility))
  }

  predicate SameUpload(db: Tables, f: FileId, g: FileId) {
    f in db.files && g in db.files && db.files[f].upload == db.files[g].upload
  }

  ghost predicate CommitHasFile(db: Tables, id: UploadId) {
    id in db.uploads && db.uploads[id].status == Committed ==> HasFile(db, id)
  }

  /** An upload is committed exactly when one file row, with its pin row, points to it. */
  ghost predicate CommittedOnce(db: Tables) {
    && (forall f :: FileOk(db, f))
    && (forall f, g :: SameUpload(db, f, g) ==> f == g)
    && (forall id :: CommitHasFile(db, id))
  }

  ghost predicate UserBalanced(db: Tables, user: UserId) {
    && QuotaOf(db, user).reserved == SumBy(db.uploads, PublicHold(user))
    && QuotaOf(db, user).used == SumBy(db.files, PublicSize(user))
  }

  ghost predicate NodeBalanced(db: Tables, node: NodeId) {
    NodeReserved(db, node) == SumBy(db.uploads, NodeHold(node))
  }

  ghost predicate Books(db: Tables) {
    (forall user :: UserBalanced(db, user)) && (forall node :: NodeBalanced(db, node))
  }

  ghost predicate Inv(db: Tables) {
    RowsOk(db) && KeysUnique(db) && CommittedOnce(db) && Books(db)
  }

  // ---- The clamps never bite --------------------------------------------------------------------

  /** Releasing a live reservation never takes a counter below zero. */
  lemma HoldWithinCounters(db: Tables, id: UploadId)
    requires RowsOk(db) && Books(db) && id in db.uploads && Live(db.uploads[id].status)
    ensures db.uploads[id].node in db.nodes
    ensures db.uploads[id].reserved <= NodeReserved(db, db.uploads[id].node)
    ensures db.uploads[id].scope == Public ==>
              db.uploads[id].reserved <= QuotaOf(db, db.uploads[id].owner).reserved
  {
    var row := db.uploads[id];
    assert NodeBalanced(db, row.node) && UserBalanced(db, row.owner);
    SumBoundsMember(db.uploads, id, NodeHold(row.node));
    SumBoundsMember(db.uploads, id, PublicHold(row.owner));
  }

  /** Deleting a file never takes the used counter below zero. */
  lemma SizeWithinCounter(db: Tables, f: FileId)
    requires RowsOk(db) && Books(db) && f in db.files && Referenced(db.files[f].status) && db.files[f].scope == Public
    ensures db.files[f].size <= QuotaOf(db, db.files[f].owner).used
  {
    assert UserBalanced(db, db.files[f].owner);
    SumBoundsMember(db.files, f, PublicSize(db.files[f].owner));
  }

  lemma QuotaNonNegative(db: Tables, user: UserId)
    requires RowsOk(db) && UserBalanced(db, user)
    ensures QuotaOf(db, user).used >= 0 && QuotaOf(db, user).reserved >= 0
  {
    SumNonNegative(db.files, PublicSize(user));
    SumNonNegative(db.uploads, PublicHold(user));
  }

  // ---- Keys stay unique -------------------------------------------------------------------------

  lemma UploadWriteKeepsKeys(db: Tables, next: Tables, id: UploadId, row: Upload)
    requires KeysUnique(db) && next.uploads == db.uploads[id := row]
    requires (id in db.uploads && row.owner == db.uploads[id].owner && row.key == db.uploads[id].key) ||
             !KeyTaken(db, row.owner, row.key)
    ensures KeysUnique(next)
  {
    forall a, b | SameKey(next, a, b) ensures a == b {
      if a != id && b != id {
        assert SameKey(db, a, b);
      } else if a != b {
        var other := if a == id then b else a;
        if id in db.uploads && row.owner == db.uploads[id].owner && row.key == db.uploads[id].key {
          assert SameKey(db, id, other);
        } else {
          assert HasKey(db, other, row.owner, row.key);
        }
      }
    }
  }

  lemma SameUploadsKeepKeys(db: Tables, next: Tables)
    requires KeysUnique(db) && next.uploads == db.uploads
    ensures KeysUnique(next)
  {
    forall a, b | SameKey(next, a, b) ensures a == b {
      assert SameKey(db, a, b);
    }
  }

  // ---- Commits stay exactly once ------------------------------------------------------------------

  /** Files, pins and the committed reservations decide `CommittedOnce`. */
  lemma SameCommitsKeepOnce(db: Tables, next: Tables)
    requires CommittedOnce(db)
    requires next.files == db.files && next.pins == db.pins
    requires forall id | id in next.uploads && next.uploads[id].status == Committed ::
               id in db.uploads && next.uploads[id] == db.uploads[id]
    requires forall id | id in db.uploads && db.uploads[id].status == Committed ::
               id in next.uploads && next.uploads[id] == db.uploads[id]
    ensures CommittedOnce(next)
  {
    forall f ensures FileOk(next, f) { assert FileOk(db, f); }
    forall f, g | SameUpload(next, f, g) ensures f == g { assert SameUpload(db, f, g); }
    forall id ensures CommitHasFile(next, id) {
      assert CommitHasFile(db, id);
      if id in next.uploads && next.uploads[id].status == Committed {
        var f :| IsFileOf(db, f, id);
        assert IsFileOf(next, f, id);
      }
    }
  }

  /** Rewriting a file's status or attributes and its pin's status. */
  predicate FileRewrite(db: Tables, next: Tables, f: FileId) {
    && next.uploads == db.uploads && f in db.files && f in db.pins && f in next.files && f in next.pins
    && next.files == db.files[f := next.files[f]] && next.pins == db.pins[f := next.pins[f]]
    && next.files[f] == db.files[f].(status := next.files[f].status,
         attrs := db.files[f].attrs.(visibility := next.files[f].attrs.visibility))
    && next.pins[f] == db.pins[f].(status := next.pins[f].status)
  }

  lemma FileRewriteKeepsOnce(db: Tables, next: Tables, f: FileId)
    requires CommittedOnce(db) && FileRewrite(db, next, f)
    ensures CommittedOnce(next)
  {
    forall g ensures FileOk(next, g) { assert FileOk(db, g); }
    forall g, h | SameUpload(next, g, h) ensures g == h { assert SameUpload(db, g, h); }
    forall id ensures CommitHasFile(next, id) {
      assert CommitHasFile(db, id);
      if id in next.uploads && next.uploads[id].status == Committed {
        var g :| IsFileOf(db, g, id);
        assert IsFileOf(next, g, id);
      }
    }
  }

  lemma CommitKeepsOnce(db: Tables, next: Tables, id: UploadId, f: FileId)
    requires CommittedOnce(db) && id in db.uploads && db.uploads[id].status != Committed && f !in db.files
    requires id in next.uploads && f in next.files && next.uploads == db.uploads[id := next.uploads[id]]
    requires next.files == db.files[f := next.files[f]] && next.files[f].upload == id
    requires next.pins == db.pins[f := Pin(next.files[f].node, next.files[f].cid, Pinned)]
    requires FileOk(next, f)
    ensures CommittedOnce(next)
  {
    forall g ensures FileOk(next, g) { assert FileOk(db, g); }
    forall g, h | SameUpload(next, g, h) ensures g == h {
      assert FileOk(db, g) && FileOk(db, h);
      assert g != f && h != f ==> SameUpload(db, g, h);
    }
    forall u ensures CommitHasFile(next, u) {
      assert CommitHasFile(db, u);
      if u == id {
        assert IsFileOf(next, f, id);
      } else if u in next.uploads && next.uploads[u].status == Committed {
        var g :| IsFileOf(db, g, u);
        assert IsFileOf(next, g, u);
      }
    }
  }

  // ---- The books stay balanced --------------------------------------------------------------------

  /** One upload row is written and the counters move by the change in its holds. */
  lemma UploadWriteKeepsBooks(db: Tables, next: Tables, id: UploadId, row: Upload)
    requires Books(db) && next.uploads == db.uploads[id := row] && next.files == db.files
    requires forall user :: QuotaOf(next, user).used == QuotaOf(db, user).used
    requires forall user :: QuotaOf(next, user).reserved == QuotaOf(db, user).reserved + PublicHold(user)(row)
               - (if id in db.uploads then PublicHold(user)(db.uploads[id]) else 0)
    requires forall node :: NodeReserved(next, node) == NodeReserved(db, node) + NodeHold(node)(row)
               - (if id in db.uploads then NodeHold(node)(db.uploads[id]) else 0)
    ensures Books(next)
  {
    forall user ensures UserBalanced(next, user) {
      assert UserBalanced(db, user);
      SumUpdate(db.uploads, id, row, PublicHold(user));
    }
    forall node ensures NodeBalanced(next, node) {
      assert NodeBalanced(db, node);
      SumUpdate(db.uploads, id, row, NodeHold(node));
    }
  }

  /** One file row is written and the used counters move by the change in its size. */
  lemma FileWriteKeepsBooks(db: Tables, next: Tables, f: FileId, row: File)
    requires Books(db) && next.uploads == db.uploads && next.files == db.files[f := row] && next.nodes == db.nodes
    requires forall user :: QuotaOf(next, user).reserved == QuotaOf(db, user).reserved
    requires forall user :: QuotaOf(next, user).used == QuotaOf(db, user).used + PublicSize(user)(row)
               - (if f in db.files then PublicSize(user)(db.files[f]) else 0)
    ensures Books(next)
  {
    forall user ensures UserBalanced(next, user) {
      assert UserBalanced(db, user);
      SumUpdate(db.files, f, row, PublicSize(user));
    }
    forall node ensures NodeBalanced(next, node) {
      assert NodeBalanced(db, node);
    }
  }

  lemma SameRowsKeepBooks(db: Tables, next: Tables)
    requires Books(db) && next.uploads == db.uploads && next.files == db.files && next.quota == db.quota
    requires forall node :: NodeReserved(next, node) == NodeReserved(db, node)
    ensures Books(next)
  {
    forall user ensures UserBalanced(next, user) { assert UserBalanced(db, user); }
    forall node ensures NodeBalanced(next, node) { assert NodeBalanced(db, node); }
  }

  // ---- Each transaction --------------------------------------------------------------------------

  lemma AdmitBalances(db: Tables, tx: Tables, input: ReserveInput, limit: TierLimit, id: UploadId, now: int)
    requires Books(tx) && Admit(db, tx, input, limit, id, now).result.Ok?
    ensures Books(Admit(db, tx, input, limit, id, now).db)
  {
    UploadWriteKeepsBooks(tx, Admit(db, tx, input, limit, id, now).db, id, NewUpload(input, now));
  }

  lemma AdmitKeepsInv(db: Tables, tx: Tables, input: ReserveInput, limit: TierLimit, id: UploadId, now: int)
    requires Inv(db) && Inv(tx) && input.size > 0
    ensures Inv(Admit(db, tx, input, limit, id, now).db)
  {
    var next := Admit(db, tx, input, limit, id, now);
    if next.result.Ok? {
      UploadWriteKeepsKeys(tx, next.db, id, NewUpload(input, now));
      SameCommitsKeepOnce(tx, next.db);
      AdmitBalances(db, tx, input, limit, id, now);
    }
  }

  ghost function Retired(db: Tables, id: UploadId): Tables
    requires id in db.uploads
  {
    var row := db.uploads[id];
    db.(uploads := db.uploads[id := row.(key := RetiredKey(row.key, id))])
  }

  lemma RetireKeepsInv(db: Tables, id: UploadId)
    requires Inv(db) && id in db.uploads && !Live(db.uploads[id].status) && db.uploads[id].status != Committed
    requires !KeyTaken(db, db.uploads[id].owner, RetiredKey(db.uploads[id].key, id))
    ensures Inv(Retired(db, id))
  {
    var next := Retired(db, id);
    UploadWriteKeepsKeys(db, next, id, next.uploads[id]);
    SameCommitsKeepOnce(db, next);
    UploadWriteKeepsBooks(db, next, id, next.uploads[id]);
  }

  lemma ReserveKeepsInv(db: Tables, input: ReserveInput, limit: TierLimit, id: UploadId, now: int)
    requires Inv(db)
    ensures Inv(Reserve(db, input, limit, id, now).db)
  {
    if input.size > 0 && 1 <= |input.key| <= 128 {
      match FindByKey(db, input.user, input.key)
      case None => AdmitKeepsInv(db, db, input, limit, id, now);
      case Some(existing) =>
        var row := db.uploads[existing];
        if !Live(row.status) && row.status != Committed &&
           !KeyTaken(db, input.user, RetiredKey(row.key, existing)) {
          RetireKeepsInv(db, existing);
          AdmitKeepsInv(db, Retired(db, existing), input, limit, id, now);
        }
    }
  }

  /** A commit that goes through moves the hold to used bytes, with no clamp involved. */
  lemma CommitMovesCounters(db: Tables, user: UserId, id: UploadId, cid: Cid, reported: int, f: FileId)
    requires RowsOk(db) && Books(db) && id in db.uploads && db.uploads[id].owner == user
    requires Live(db.uploads[id].status) && f !in db.files
    ensures var row := db.uploads[id];
            var next := Commit(db, user, id, cid, reported, f).db;
            && next.files[f].size == (if reported <= 0 then row.declared else reported)
            && (forall u :: QuotaOf(next, u) ==
                  if u == user && row.scope == Public
                  then Quota(QuotaOf(db, u).used + next.files[f].size, QuotaOf(db, u).reserved - row.reserved)
                  else QuotaOf(db, u))
            && (forall n :: NodeReserved(next, n) == NodeReserved(db, n) - if n == row.node then row.reserved else 0)
  {
    HoldWithinCounters(db, id);
    assert UserBalanced(db, user);
    QuotaNonNegative(db, user);
  }

  /** The reservation `id` turns into the file `f`, and the counters move with it. */
  lemma CommitKeepsBooks(db: Tables, next: Tables, id: UploadId, f: FileId)
    requires Books(db) && id in db.uploads && Live(db.uploads[id].status) && f !in db.files
    requires id in next.uploads && !Live(next.uploads[id].status) && next.uploads == db.uploads[id := next.uploads[id]]
    requires f in next.files && next.files == db.files[f := next.files[f]]
    requires forall u :: QuotaOf(next, u).reserved == QuotaOf(db, u).reserved - PublicHold(u)(db.uploads[id])
    requires forall u :: QuotaOf(next, u).used == QuotaOf(db, u).used + PublicSize(u)(next.files[f])
    requires forall n :: NodeReserved(next, n) == NodeReserved(db, n) - NodeHold(n)(db.uploads[id])
    ensures Books(next)
  {
    forall u ensures UserBalanced(next, u) {
      assert UserBalanced(db, u);
      SumUpdate(db.uploads, id, next.uploads[id], PublicHold(u));
      SumUpdate(db.files, f, next.files[f], PublicSize(u));
    }
    forall n ensures NodeBalanced(next, n) {
      assert NodeBalanced(db, n);
      SumUpdate(db.uploads, id, next.uploads[id], NodeHold(n));
    }
  }

  lemma CommitBalances(db: Tables, user: UserId, id: UploadId, cid: Cid, reported: int, f: FileId)
    requires RowsOk(db) && Books(db) && id in db.uploads && db.uploads[id].owner == user
    requires Live(db.uploads[id].status) && f !in db.files
    ensures Books(Commit(db, user, id, cid, reported, f).db)
  {
    CommitMovesCounters(db, user, id, cid, reported, f);
    CommitKeepsBooks(db, Commit(db, user, id, cid, reported, f).db, id, f);
  }

  lemma CommitKeepsRows(db: Tables, user: UserId, id: UploadId, cid: Cid, reported: int, f: FileId)
    requires RowsOk(db) && KeysUnique(db) && CommittedOnce(db)
    requires id in db.uploads && db.uploads[id].owner == user && Live(db.uploads[id].status) && f !in db.files
    ensures var next := Commit(db, user, id, cid, reported, f).db;
            RowsOk(next) && KeysUnique(next) && CommittedOnce(next)
  {
    var next := Commit(db, user, id, cid, reported, f).db;
    UploadWriteKeepsKeys(db, next, id, next.uploads[id]);
    CommitKeepsOnce(db, next, id, f);
  }

  lemma CommitKeepsInv(db: Tables, user: UserId, id: UploadId, cid: Cid, reported: int, f: FileId)
    requires Inv(db)
    ensures Inv(Commit(db, user, id, cid, reported, f).db)
  {
    if id in db.uploads && db.uploads[id].owner == user && Live(db.uploads[id].status) && f !in db.files {
      CommitKeepsRows(db, user, id, cid, reported, f);
      CommitBalances(db, user, id, cid, reported, f);
    }
  }

  /** A release that goes through gives back exactly the hold, with no clamp involved. */
  lemma ReleaseMovesCounters(db: Tables, id: UploadId, status: UploadStatus)
    requires RowsOk(db) && Books(db) && id in db.uploads && Live(db.uploads[id].status)
    ensures var row := db.uploads[id];
            var next := Release(db, id, status).db;
            && (forall u :: QuotaOf(next, u) ==
                  if u == row.owner && row.scope == Public
                  then Quota(QuotaOf(db, u).used, QuotaOf(db, u).reserved - row.reserved) else QuotaOf(db, u))
            && (forall n :: NodeReserved(next, n) == NodeReserved(db, n) - if n == row.node then row.reserved else 0)
  {
    HoldWithinCounters(db, id);
    assert UserBalanced(db, db.uploads[id].owner);
    QuotaNonNegative(db, db.uploads[id].owner);
  }

  lemma ReleaseBalances(db: Tables, id: UploadId, status: UploadStatus)
    requires RowsOk(db) && Books(db) && id in db.uploads && Live(db.uploads[id].status) && !Live(status)
    ensures Books(Release(db, id, status).db)
  {
    var next := Release(db, id, status).db;
    ReleaseMovesCounters(db, id, status);
    UploadWriteKeepsBooks(db, next, id, next.uploads[id]);
  }

  lemma ReleaseKeepsInv(db: Tables, id: UploadId, status: UploadStatus)
    requires Inv(db) && (status == Failed || status == Expired)
    ensures Inv(Release(db, id, status).db)
  {
    if id in db.uploads && Live(db.uploads[id].status) {
      var next := Release(db, id, status).db;
      UploadWriteKeepsKeys(db, next, id, next.uploads[id]);
      SameCommitsKeepOnce(db, next);
      ReleaseBalances(db, id, status);
    }
  }

  lemma RecordOrphanKeepsInv(db: Tables, id: UploadId, cid: Cid)
    requires Inv(db)
    ensures Inv(RecordOrphan(db, id, cid))
  {
    if id in db.uploads && db.uploads[id].status == Failed {
      var next := RecordOrphan(db, id, cid);
      UploadWriteKeepsKeys(db, next, id, next.uploads[id]);
      SameCommitsKeepOnce(db, next);
      UploadWriteKeepsBooks(db, next, id, next.uploads[id]);
    }
  }

  /** The first delete of a file gives back exactly its size, with no clamp involved. */
  lemma MarkMovesCounters(db: Tables, f: FileId)
    requires RowsOk(db) && Books(db) && f in db.files && Referenced(db.files[f].status)
    ensures var row := db.files[f];
            var next := Mark(db, f).db;
            forall u :: QuotaOf(next, u) ==
              if u == row.owner && row.scope == Public
              then Quota(QuotaOf(db, u).used - row.size, QuotaOf(db, u).reserved) else QuotaOf(db, u)
  {
    assert UserBalanced(db, db.files[f].owner);
    QuotaNonNegative(db, db.files[f].owner);
    if db.files[f].scope == Public {
      SizeWithinCounter(db, f);
    }
  }

  lemma MarkKeepsInv(db: Tables, f: FileId)
    requires Inv(db)
    ensures Inv(Mark(db, f).db)
  {
    if f in db.files && Referenced(db.files[f].status) {
      var next := Mark(db, f).db;
      assert FileOk(db, f);
      MarkMovesCounters(db, f);
      SameUploadsKeepKeys(db, next);
      FileRewriteKeepsOnce(db, next, f);
      FileWriteKeepsBooks(db, next, f, next.files[f]);
    }
  }

  lemma FinalizeKeepsInv(db: Tables, f: FileId, unpinned: bool)
    requires Inv(db)
    ensures Inv(Finalize(db, f, unpinned))
  {
    assert FileOk(db, f);
    if f in db.files {
      var next := Finalize(db, f, unpinned);
      SameUploadsKeepKeys(db, next);
      FileRewriteKeepsOnce(db, next, f);
      FileWriteKeepsBooks(db, next, f, next.files[f]);
    }
  }

  lemma SetVisibilityKeepsInv(db: Tables, f: FileId, user: UserId, visibility: string)
    requires Inv(db)
    ensures Inv(SetVisibility(db, f, user, visibility))
  {
    var next := SetVisibility(db, f, user, visibility);
    if next != db {
      assert FileOk(db, f);
      SameUploadsKeepKeys(db, next);
      FileRewriteKeepsOnce(db, next, f);
      FileWriteKeepsBooks(db, next, f, next.files[f]);
    }
  }

  /** A hello and a heartbeat leave every user's and every node's reservation counter where it was; a node seen for
      the first time holds nothing. */
  lemma NodeReportsMoveNoCounter(db: Tables, n: NodeId, state: NodeState, repo: int, max: int, enabled: bool,
      public: bool)
    ensures var beat, hello := Heartbeat(db, n, state, repo, max), Capability(db, n, enabled, public);
            && (forall user :: QuotaOf(beat, user) == QuotaOf(db, user) == QuotaOf(hello, user))
            && (forall node :: NodeReserved(beat, node) == NodeReserved(db, node) == NodeReserved(hello, node))
            && (Inv(db) ==> Inv(beat) && Inv(hello))
  {
    if Inv(db) {
      NodeReportKeepsInv(db, Heartbeat(db, n, state, repo, max));
      NodeReportKeepsInv(db, Capability(db, n, enabled, public));
    }
  }

  /** A change of node rows that moves no reservation counter keeps the invariant. */
  lemma NodeReportKeepsInv(db: Tables, next: Tables)
    requires Inv(db)
    requires next.uploads == db.uploads && next.files == db.files && next.pins == db.pins && next.quota == db.quota
    requires forall node :: NodeReserved(next, node) == NodeReserved(db, node)
    ensures Inv(next)
  {
    SameUploadsKeepKeys(db, next);
    SameCommitsKeepOnce(db, next);
    SameRowsKeepBooks(db, next);
  }

  lemma ApplyKeepsInv(db: Tables, tx: Tx)
    requires Inv(db)
    ensures Inv(Apply(db, tx))
  {
    match tx
    case TReserve(input, limit, id, now) => ReserveKeepsInv(db, input, limit, id, now);
    case TCommit(user, id, cid, reported, f) => CommitKeepsInv(db, user, id, cid, reported, f);
    case TRelease(id, status) => if status == Failed || status == Expired { ReleaseKeepsInv(db, id, status); }
    case TRecordOrphan(id, cid) => RecordOrphanKeepsInv(db, id, cid);
    case TMark(f) => MarkKeepsInv(db, f);
    case TFinalize(f, unpinned) => FinalizeKeepsInv(db, f, unpinned);
    case TSetVisibility(f, user, v) => SetVisibilityKeepsInv(db, f, user, v);
    case THeartbeat(n, state, repo, max) => NodeReportKeepsInv(db, Heartbeat(db, n, state, repo, max));
    case TCapability(n, enabled, public) => NodeReportKeepsInv(db, Capability(db, n, enabled, public));
    case TPeer(n, online) => NodeReportKeepsInv(db, db.(peers := db.peers[n := online]));
  }

  lemma EmptyTablesInv()
    ensures Inv(EMPTY_TABLES)
  {
  }

  lemma {:induction false} ExecKeepsInv(db: Tables, txs: seq<Tx>)
    requires Inv(db)
    ensures Inv(Exec(db, txs))
    decreases |txs|
  {
    if txs != [] {
      ApplyKeepsInv(db, txs[0]);
      ExecKeepsInv(Apply(db, txs[0]), txs[1..]);
    }
  }

  /** Three-ledger conservation in every reachable state, whatever the interleaving. */
  lemma LedgersConserved(txs: seq<Tx>, user: UserId, node: NodeId)
    ensures var db := Exec(EMPTY_TABLES, txs);
            && QuotaOf(db, user).reserved == SumBy(db.uploads, PublicHold(user))
            && QuotaOf(db, user).used == SumBy(db.files, PublicSize(user))
            && NodeReserved(db, node) == SumBy(db.uploads, NodeHold(node))
  {
    EmptyTablesInv();
    ExecKeepsInv(EMPTY_TABLES, txs);
    assert UserBalanced(Exec(EMPTY_TABLES, txs), user) && NodeBalanced(Exec(EMPTY_TABLES, txs), node);
  }
}
