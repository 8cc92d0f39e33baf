/** One reservation over every run: committed and released at most once. */
module DropUploads {
  import opened DropTables
  import opened DropLedger

  // ---- Exactly-once commit ------------------------------------------------------------------------

  /** In every reachable state an upload is committed exactly when one file, with its pin, points to it. */
  lemma CommittedIffOneFile(txs: seq<Tx>, id: UploadId)
    ensures var db := Exec(EMPTY_TABLES, txs);
            && (id in db.uploads && db.uploads[id].status == Committed <==> HasFile(db, id))
            && (forall f, g | IsFileOf(db, f, id) && IsFileOf(db, g, id) :: f == g)
            && (forall f | IsFileOf(db, f, id) ::
                  f in db.pins && db.pins[f].node == db.files[f].node && db.pins[f].cid == db.uploads[id].cid)
  {
    var db := Exec(EMPTY_TABLES, txs);
    EmptyTablesInv();
    ExecKeepsInv(EMPTY_TABLES, txs);
    assert CommitHasFile(db, id);
    forall f | IsFileOf(db, f, id)
      ensures f in db.pins && db.pins[f].node == db.files[f].node
      ensures id in db.uploads && db.uploads[id].status == Committed && db.pins[f].cid == db.uploads[id].cid
    {
      assert FileOk(db, f);
    }
    forall f, g | IsFileOf(db, f, id) && IsFileOf(db, g, id) ensures f == g {
      assert SameUpload(db, f, g);
    }
  }

  /** Committing again, with whatever CID and size, answers with the one existing file and writes nothing. */
  lemma CommitReplay(db: Tables, id: UploadId, cid: Cid, reported: int, newFile: FileId)
    requires Inv(db) && id in db.uploads && db.uploads[id].status == Committed
    ensures var again := Commit(db, db.uploads[id].owner, id, cid, reported, newFile);
            && again.db == db && again.result.Ok?
            && IsFileOf(db, again.result.value, id)
            && forall f | IsFileOf(db, f, id) :: f == again.result.value
  {
    assert CommitHasFile(db, id);
    var again := Commit(db, db.uploads[id].owner, id, cid, reported, newFile);
    forall f | IsFileOf(db, f, id) ensures f == again.result.value {
      assert SameUpload(db, f, again.result.value);
    }
  }

  /** A first commit and its replay, in either the same or a later state of the file, give the same answer. */
  lemma CommitThenReplay(db: Tables, id: UploadId, cid: Cid, reported: int, f: FileId,
                         cid': Cid, reported': int, f': FileId)
    requires Inv(db) && id in db.uploads && Live(db.uploads[id].status) && f !in db.files
    ensures var user := db.uploads[id].owner;
            var once := Commit(db, user, id, cid, reported, f);
            Commit(once.db, user, id, cid', reported', f') == Outcome(once.db, Ok(f))
  {
    var user := db.uploads[id].owner;
    var once := Commit(db, user, id, cid, reported, f);
    CommitKeepsInv(db, user, id, cid, reported, f);
    CommitReplay(once.db, id, cid', reported', f');
    assert IsFileOf(once.db, f, id);
  }

  /** A reservation that was released can no longer be committed. */
  lemma CommitAfterReleaseRefused(db: Tables, id: UploadId, status: UploadStatus, user: UserId, cid: Cid,
                                  reported: int, f: FileId)
    requires id in db.uploads && Live(db.uploads[id].status) && (status == Failed || status == Expired)
    ensures var released := Release(db, id, status).db;
            Commit(released, user, id, cid, reported, f) ==
              Outcome(released, Err(if user == db.uploads[id].owner then Conflict else NotFound))
  {
  }

  // ---- Terminal statuses are absorbing ------------------------------------------------------------

  /** A row never disappears, never changes hands, and leaves the live statuses for good. */
  ghost predicate RowEvolves(db: Tables, next: Tables, id: UploadId) {
    id in db.uploads ==>
      && id in next.uploads
      && var a := db.uploads[id]; var b := next.uploads[id];
         && b.owner == a.owner && b.node == a.node && b.scope == a.scope && b.declared == a.declared
         && b.attrs == a.attrs && b.expiresAt == a.expiresAt
         && (!Live(a.status) ==> b.status == a.status && b.reserved == a.reserved)
         && (Live(b.status) ==> b == a)
         && (b.key == a.key || b.key == RetiredKey(a.key, id))
  }

  lemma ReserveEvolves(db: Tables, input: ReserveInput, limit: TierLimit, newId: UploadId, now: int, id: UploadId)
    ensures var next := Reserve(db, input, limit, newId, now);
            && RowEvolves(db, next.db, id)
            && (next.result.Err? ==> next.db == db)
            && (id in db.uploads ==>
                  next.db.uploads[id] == db.uploads[id] ||
                  (!Live(db.uploads[id].status) && db.uploads[id].status != Committed &&
                   HasKey(db, id, input.user, input.key) &&
                   next.db.uploads[id] == db.uploads[id].(key := RetiredKey(db.uploads[id].key, id))))
  {
  }

  lemma CommitEvolves(db: Tables, user: UserId, u: UploadId, cid: Cid, reported: int, f: FileId, id: UploadId)
    ensures RowEvolves(db, Commit(db, user, u, cid, reported, f).db, id)
  {
  }

  lemma ReleaseEvolves(db: Tables, u: UploadId, status: UploadStatus, id: UploadId)
    requires !Live(status)
    ensures RowEvolves(db, Release(db, u, status).db, id)
  {
  }

  lemma ApplyEvolves(db: Tables, tx: Tx, id: UploadId)
    ensures RowEvolves(db, Apply(db, tx), id)
  {
    match tx
    case TReserve(input, limit, newId, now) => ReserveEvolves(db, input, limit, newId, now, id);
    case TCommit(user, u, cid, reported, f) => CommitEvolves(db, user, u, cid, reported, f, id);
    case TRelease(u, status) => if status == Failed || status == Expired { ReleaseEvolves(db, u, status, id); }
    case TRecordOrphan(_, _) =>
    case TMark(f) => assert Mark(db, f).db.uploads == db.uploads;
    case _ => assert Apply(db, tx).uploads == db.uploads;
  }

  lemma {:induction false} TerminalForever(db: Tables, txs: seq<Tx>, id: UploadId)
    requires id in db.uploads && !Live(db.uploads[id].status)
    ensures var end := Exec(db, txs);
            && id in end.uploads && end.uploads[id].status == db.uploads[id].status
            && end.uploads[id].reserved == db.uploads[id].reserved
    decreases |txs|
  {
    if txs != [] {
      ApplyEvolves(db, txs[0], id);
      TerminalForever(Apply(db, txs[0]), txs[1..], id);
    }
  }

  predicate IsLive(db: Tables, id: UploadId) { id in db.uploads && Live(db.uploads[id].status) }

  /** How often in a run the reservation `id` stops holding bytes. */
  ghost function HoldReturns(db: Tables, txs: seq<Tx>, id: UploadId): nat
    decreases |txs|
  {
    if txs == [] then 0
    else
      var next := Apply(db, txs[0]);
      (if IsLive(db, id) && !IsLive(next, id) then 1 else 0) + HoldReturns(next, txs[1..], id)
  }

  /** A hold is returned at most once, and it is returned exactly when the row ends up terminal. */
  lemma {:induction false} HoldReturnedOnce(db: Tables, txs: seq<Tx>, id: UploadId)
    ensures var end := Exec(db, txs);
            HoldReturns(db, txs, id) ==
              if (id in db.uploads ==> IsLive(db, id)) && id in end.uploads && !IsLive(end, id) then 1 else 0
    decreases |txs|
  {
    if txs != [] {
      var next := Apply(db, txs[0]);
      ApplyEvolves(db, txs[0], id);
      if id !in db.uploads && id in next.uploads {
        NewRowsAreLive(db, txs[0], id);
      }
      HoldReturnedOnce(next, txs[1..], id);
      if id in next.uploads && !IsLive(next, id) {
        TerminalForever(next, txs[1..], id);
      }
    }
  }

  lemma NewRowsAreLive(db: Tables, tx: Tx, id: UploadId)
    requires id !in db.uploads && id in Apply(db, tx).uploads
    ensures IsLive(Apply(db, tx), id)
  {
  }

  // ---- Idempotent reservation ---------------------------------------------------------------------

  /** Per owner and key there is at most one upload that is live or committed. */
  lemma OneUploadPerKey(txs: seq<Tx>, a: UploadId, b: UploadId)
    ensures SameKey(Exec(EMPTY_TABLES, txs), a, b) ==> a == b
  {
    EmptyTablesInv();
    ExecKeepsInv(EMPTY_TABLES, txs);
  }

  predicate WellFormed(input: ReserveInput) { input.size > 0 && 1 <= |input.key| <= 128 }

  /** Replaying the key of a live or committed upload returns that upload and leaves every ledger unchanged. */
  lemma ReserveReplay(db: Tables, id: UploadId, input: ReserveInput, limit: TierLimit, newId: UploadId, now: int)
    requires Inv(db) && WellFormed(input) && HasKey(db, id, input.user, input.key)
    requires Live(db.uploads[id].status) || db.uploads[id].status == Committed
    ensures Reserve(db, input, limit, newId, now) == Outcome(db, Ok(id))
  {
    var found := FindByKey(db, input.user, input.key);
    assert SameKey(db, found.value, id);
  }

  /** Retrying the key of a terminal upload opens a new reservation under that key and keeps the old
      row, with its status and its orphan CID, under a retired key. */
  lemma ReserveRetry(db: Tables, id: UploadId, input: ReserveInput, limit: TierLimit, newId: UploadId, now: int)
    requires Inv(db) && WellFormed(input) && HasKey(db, id, input.user, input.key)
    requires !Live(db.uploads[id].status) && db.uploads[id].status != Committed
    ensures var next := Reserve(db, input, limit, newId, now);
            next.result.Ok? ==>
              && next.result.value == newId && newId !in db.uploads && newId != id
              && next.db.uploads == db.uploads[id := db.uploads[id].(key := RetiredKey(input.key, id))]
                                              [newId := Upload(input.user, input.node, input.scope, input.attrs,
                                                  input.size, input.size, Reserved, input.key, NoCid,
                                                  now + if input.ttl <= 0 then 1800 else input.ttl)]
  {
    var found := FindByKey(db, input.user, input.key);
    assert SameKey(db, found.value, id);
  }

  /** A reservation that succeeds twice in a row under one key holds its bytes once. */
  lemma ReserveTwiceHoldsOnce(db: Tables, input: ReserveInput, limit: TierLimit, first: UploadId, now: int,
                              second: UploadId, later: int)
    requires Inv(db) && WellFormed(input) && Reserve(db, input, limit, first, now).result.Ok?
    ensures var once := Reserve(db, input, limit, first, now);
            Reserve(once.db, input, limit, second, later) == Outcome(once.db, once.result)
  {
    var once := Reserve(db, input, limit, first, now);
    ReserveKeepsInv(db, input, limit, first, now);
    ReserveReplay(once.db, once.result.value, input, limit, second, later);
  }
}
