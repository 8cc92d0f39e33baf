/** The Drop store: each transaction updates the tables in place and is proved against its specification.
    Between transactions the whole ledger invariant holds. */
module DropStoreModel {
  import opened Wrappers
  import opened DropTables
  import opened DropLedger
  import opened DropUploads
  import opened DropPins
  import opened DropExpiry

  class DropStore {
    var uploads: map<UploadId, Upload>
    var files: map<FileId, File>
    var pins: map<FileId, Pin>
    var quota: map<UserId, Quota>
    var nodes: map<NodeId, NodeRow>
    var peers: map<NodeId, bool>

    function Snapshot(): Tables
      reads this
    {
      Tables(uploads, files, pins, quota, nodes, peers)
    }

    ghost predicate Valid()
      reads this
    {
      Inv(Snapshot())
    }

    constructor ()
      ensures Valid() && Snapshot() == EMPTY_TABLES
    {
      uploads, files, pins, quota, nodes, peers := map[], map[], map[], map[], map[], map[];
      new;
      EmptyTablesInv();
    }

    // ---- Queries -----------------------------------------------------------------------------------

    method UploadByKey(owner: UserId, key: string) returns (r: Option<UploadId>)
      requires Valid()
      ensures r == FindByKey(Snapshot(), owner, key)
    {
      var hits := set id | id in uploads && uploads[id].owner == owner && uploads[id].key == key;
      if hits == {} {
        assert forall id :: HasKey(Snapshot(), id, owner, key) ==> id in hits;
        return None;
      }
      var id :| id in hits;
      assert HasKey(Snapshot(), id, owner, key);
      var found := FindByKey(Snapshot(), owner, key);
      assert SameKey(Snapshot(), id, found.value);
      return Some(id);
    }

    method FileByUpload(upload: UploadId) returns (r: Option<FileId>)
      requires Valid()
      ensures r == FileOf(Snapshot(), upload)
    {
      var hits := set f | f in files && files[f].upload == upload;
      if hits == {} {
        assert forall f :: IsFileOf(Snapshot(), f, upload) ==> f in hits;
        return None;
      }
      var f :| f in hits;
      assert IsFileOf(Snapshot(), f, upload);
      var found := FileOf(Snapshot(), upload);
      assert SameUpload(Snapshot(), f, found.value);
      return Some(f);
    }

    method CountActivePinRefs(ref: PinRef, excluded: Option<FileId>) returns (n: nat)
      ensures n == |ActiveRefs(Snapshot(), ref, excluded)|
    {
      var refs := set f | f in files && files[f].status == Active && FileRef(files[f]) == ref && Some(f) != excluded;
      assert refs == ActiveRefs(Snapshot(), ref, excluded);
      n := |refs|;
    }

    // ---- Shared statements --------------------------------------------------------------------------

    method AdjustQuotaTx(user: UserId, usedDelta: int, reservedDelta: int)
      modifies this`quota
      ensures quota == AdjustQuota(old(quota), user, usedDelta, reservedDelta)
    {
      if user !in quota {
        quota := quota[user := Quota(Max0(usedDelta), Max0(reservedDelta))];
      } else {
        var q := quota[user];
        quota := quota[user := Quota(Max0(q.used + usedDelta), Max0(q.reserved + reservedDelta))];
      }
    }

    method ReleaseNodeTx(node: NodeId, bytes: int)
      modifies this`nodes
      ensures nodes == ReleaseNode(old(nodes), node, bytes)
    {
      if node in nodes {
        nodes := nodes[node := nodes[node].(reserved := Max0(nodes[node].reserved - bytes))];
      }
    }

    /** The capacity row is locked, tested and charged; on an error nothing is written. */
    method ReserveNodeCapacityTx(node: NodeId, scope: Scope, size: int) returns (r: Result<()>)
      modifies this`nodes
      ensures r == NodeVerdict(old(Snapshot()), node, scope, size)
      ensures r.Ok? ==> node in old(nodes) &&
                        nodes == old(nodes)[node := old(nodes)[node].(reserved := old(nodes)[node].reserved + size)]
      ensures r.Err? ==> nodes == old(nodes)
    {
      if node !in nodes || node !in peers {
        return Err(NodeUnavailable);
      }
      var row := nodes[node];
      if !row.enabled || row.state != StateActive || !peers[node] {
        return Err(NodeUnavailable);
      }
      if scope == Public && !row.acceptsPublic {
        return Err(NodeUnavailable);
      }
      if row.storageMax > 0 && Wrap64(row.repoSize + row.reserved + size) > row.storageMax {
        return Err(NodeCapacity);
      }
      nodes := nodes[node := row.(reserved := row.reserved + size)];
      return Ok(());
    }

    // ---- Reservations -------------------------------------------------------------------------------

    /** Holds bytes against the public quota, when the test passes. */
    method ReserveQuotaTx(input: ReserveInput, limit: TierLimit) returns (r: Result<()>)
      modifies this`quota
      ensures r == if input.scope == Public then QuotaVerdict(old(Snapshot()), input.user, limit, input.size)
          else Ok(())
      ensures quota == if r.Ok? && input.scope == Public
                       then var q := QuotaOf(old(Snapshot()), input.user);
                            old(quota)[input.user := q.(reserved := q.reserved + input.size)]
                       else old(quota)
    {
      if input.scope != Public {
        return Ok(());
      }
      if input.size > limit.maxFileBytes {
        return Err(QuotaExceeded);
      }
      var q := if input.user in quota then quota[input.user] else Quota(0, 0);
      if Wrap64(q.used + q.reserved + input.size) > limit.publicBytes {
        return Err(QuotaExceeded);
      }
      quota := quota[input.user := q.(reserved := q.reserved + input.size)];
      return Ok(());
    }

    /** Quota, node capacity and the insert. After an error the caller rolls back. */
    method AdmitTx(input: ReserveInput, limit: TierLimit, newId: UploadId, now: int, keyTaken: bool)
      returns (r: Result<UploadId>)
      requires keyTaken <==> KeyTaken(Snapshot(), input.user, input.key)
      modifies this`uploads, this`quota, this`nodes
      ensures r == Admit(old(Snapshot()), old(Snapshot()), input, limit, newId, now).result
      ensures r.Ok? ==> Snapshot() == Admit(old(Snapshot()), old(Snapshot()), input, limit, newId, now).db
    {
      var allowed := ReserveQuotaTx(input, limit);
      if allowed.Err? {
        return Err(allowed.error);
      }
      var verdict := ReserveNodeCapacityTx(input.node, input.scope, input.size);
      if verdict.Err? {
        return Err(verdict.error);
      }
      if newId in uploads || keyTaken {
        return Err(ConstraintViolation);
      }
      uploads := uploads[newId := NewUpload(input, now)];
      return Ok(newId);
    }

    /** Moves the key of a terminal attempt out of the way. */
    method RetireKeyTx(id: UploadId) returns (r: Result<()>)
      requires Valid() && id in uploads && !Live(uploads[id].status) && uploads[id].status != Committed
      modifies this`uploads
      ensures Valid()
      ensures r.Err? <==> KeyTaken(old(Snapshot()), old(uploads)[id].owner, RetiredKey(old(uploads)[id].key, id))
      ensures r.Err? ==> r.error == ConstraintViolation && Snapshot() == old(Snapshot())
      ensures r.Ok? ==> Snapshot() == Retired(old(Snapshot()), id)
    {
      var row := uploads[id];
      var clash := UploadByKey(row.owner, RetiredKey(row.key, id));
      if clash.Some? {
        return Err(ConstraintViolation);
      }
      RetireKeepsInv(Snapshot(), id);
      uploads := uploads[id := row.(key := RetiredKey(row.key, id))];
      return Ok(());
    }

    /** Finds the key's row, retires a terminal one, and admits the new upload. */
    method ReserveTx(input: ReserveInput, limit: TierLimit, newId: UploadId, now: int) returns (r: Result<UploadId>)
      requires Valid() && WellFormed(input)
      modifies this`uploads, this`quota, this`nodes
      ensures r == Reserve(old(Snapshot()), input, limit, newId, now).result
      ensures r.Ok? ==> Snapshot() == Reserve(old(Snapshot()), input, limit, newId, now).db
    {
      var existing := UploadByKey(input.user, input.key);
      if existing.Some? {
        var row := uploads[existing.value];
        if Live(row.status) || row.status == Committed {
          return Ok(existing.value);
        }
        var retired := RetireKeyTx(existing.value);
        if retired.Err? {
          return Err(ConstraintViolation);
        }
      }
      var taken := UploadByKey(input.user, input.key);
      r := AdmitTx(input, limit, newId, now, taken.Some?);
    }

    /** Opens a reservation, or returns the one its key already has. Any error rolls the transaction back. */
    method ReserveDropUpload(input: ReserveInput, limit: TierLimit, newId: UploadId, now: int)
      returns (r: Result<UploadId>)
      requires Valid()
      modifies this
      ensures Valid()
      ensures Outcome(Snapshot(), r) == Reserve(old(Snapshot()), input, limit, newId, now)
    {
      ReserveKeepsInv(Snapshot(), input, limit, newId, now);
      ReserveEvolves(Snapshot(), input, limit, newId, now, newId);
      if input.size <= 0 || !(1 <= |input.key| <= 128) {
        return Err(BadRequest);
      }
      var savedUploads, savedQuota, savedNodes := uploads, quota, nodes;
      r := ReserveTx(input, limit, newId, now);
      if r.Err? {
        uploads, quota, nodes := savedUploads, savedQuota, savedNodes;
      }
    }

    /** The writes of a commit that goes through. */
    method RecordCommitTx(id: UploadId, cid: Cid, size: int, newFile: FileId)
      requires id in uploads
      modifies this
      ensures var row := old(uploads)[id];
              Snapshot() == old(Snapshot()).(
                files := old(files)[newFile := File(id, row.owner, row.node, row.scope, cid, row.attrs, size, Active)],
                pins := old(pins)[newFile := Pin(row.node, cid, Pinned)],
                uploads := old(uploads)[id := row.(status := Committed, cid := cid)],
                quota := if row.scope == Public
                         then AdjustQuota(old(quota), row.owner, size, -row.reserved) else old(quota),
                nodes := ReleaseNode(old(nodes), row.node, row.reserved))
    {
      var row := uploads[id];
      files := files[newFile := File(id, row.owner, row.node, row.scope, cid, row.attrs, size, Active)];
      pins := pins[newFile := Pin(row.node, cid, Pinned)];
      uploads := uploads[id := row.(status := Committed, cid := cid)];
      if row.scope == Public {
        AdjustQuotaTx(row.owner, size, -row.reserved);
      }
      ReleaseNodeTx(row.node, row.reserved);
    }

    /** Finalises a reservation: file, pin, upload status, and the hold turned into used bytes. */
    method CommitDropUpload(user: UserId, id: UploadId, cid: Cid, reported: int, newFile: FileId)
      returns (r: Result<FileId>)
      requires Valid()
      modifies this
      ensures Valid()
      ensures Outcome(Snapshot(), r) == Commit(old(Snapshot()), user, id, cid, reported, newFile)
    {
      CommitKeepsInv(Snapshot(), user, id, cid, reported, newFile);
      r := CommitTx(user, id, cid, reported, newFile);
    }

    method CommitTx(user: UserId, id: UploadId, cid: Cid, reported: int, newFile: FileId)
      returns (r: Result<FileId>)
      requires Valid()
      modifies this
      ensures Outcome(Snapshot(), r) == Commit(old(Snapshot()), user, id, cid, reported, newFile)
    {
      if id !in uploads || uploads[id].owner != user {
        return Err(NotFound);
      }
      var row := uploads[id];
      if row.status == Committed {
        var f := FileByUpload(id);
        return if f.None? then Err(NotFound) else Ok(f.value);
      }
      if !Live(row.status) {
        return Err(Conflict);
      }
      if newFile in files {
        return Err(ConstraintViolation);
      }
      RecordCommitTx(id, cid, if reported <= 0 then row.declared else reported, newFile);
      return Ok(newFile);
    }

    /** Rolls back the holds of an upload that will not commit; a terminal upload is left alone. An empty status
        means expired. */
    method ReleaseDropReservation(id: UploadId, terminal: Option<UploadStatus>) returns (r: Result<()>)
      requires Valid() && (terminal.Some? ==> terminal.value == Failed || terminal.value == Expired)
      modifies this
      ensures Valid()
      ensures Outcome(Snapshot(), r) == Release(old(Snapshot()), id, if terminal.Some? then terminal.value else Expired)
    {
      var status := if terminal.Some? then terminal.value else Expired;
      ReleaseKeepsInv(Snapshot(), id, status);
      if id !in uploads {
        return Err(NotFound);
      }
      var row := uploads[id];
      if !Live(row.status) {
        return Ok(());
      }
      if row.scope == Public {
        AdjustQuotaTx(row.owner, 0, -row.reserved);
      }
      ReleaseNodeTx(row.node, row.reserved);
      uploads := uploads[id := row.(status := status, reserved := 0)];
      return Ok(());
    }

    /** Two transactions, either of which may fail: the release, and then the CID on a failed row. With both stored,
        the CID is on the orphan list exactly when the row was live or failed. */
    method FailDropUploadWithOrphanPin(id: UploadId, cid: Cid, releases: bool, records: bool) returns (ok: bool)
      requires Valid()
      modifies this
      ensures Valid()
      ensures ok <==> releases && records
      ensures Snapshot() == OrphanRecorded(old(Snapshot()), id, cid, releases, records)
      ensures ok && id in old(uploads) && cid != NoCid ==>
                (OrphanListed(Snapshot(), id) && uploads[id].cid == cid <==>
                   Live(old(uploads)[id].status) || old(uploads)[id].status == Failed)
    {
      if !releases { return false; }
      var released := ReleaseDropReservation(id, Some(Failed));
      if !records { return false; }
      RecordOrphanKeepsInv(Snapshot(), id, cid);
      if id in uploads && uploads[id].status == Failed {
        uploads := uploads[id := uploads[id].(cid := cid)];
      }
      return true;
    }

    method ClearDropUploadOrphanPin(id: UploadId)
      requires Valid()
      modifies this
      ensures Valid()
      ensures Snapshot() == ClearOrphan(old(Snapshot()), id) && !OrphanListed(Snapshot(), id)
    {
      RecordOrphanKeepsInv(Snapshot(), id, NoCid);
      if id in uploads && uploads[id].status == Failed {
        uploads := uploads[id := uploads[id].(cid := NoCid)];
      }
    }

    // ---- Expiry -------------------------------------------------------------------------------------

    method SelectExpired(now: int, limit: int) returns (ids: seq<UploadId>)
      ensures IsBatch(Snapshot(), now, limit, ids)
      ensures |ids| == Min(if limit <= 0 then 100 else limit, |ExpiredSet(Snapshot(), now)|)
    {
      var all := set id | id in uploads && Live(uploads[id].status) && uploads[id].expiresAt < now;
      assert all == ExpiredSet(Snapshot(), now);
      ids := OldestFirst(all, ExpiryKey(uploads), Limit(limit));
    }

    /** Releases the oldest expired reservations, up to the limit, and reports how many. */
    method ExpireDropReservations(now: int, limit: int) returns (n: nat, ids: seq<UploadId>)
      requires Valid()
      modifies this
      ensures Valid()
      ensures IsBatch(old(Snapshot()), now, limit, ids)
      ensures n == |ids| == Min(if limit <= 0 then 100 else limit, |ExpiredSet(old(Snapshot()), now)|)
      ensures ExactlyReleased(old(Snapshot()), Snapshot(), ids)
      ensures Snapshot() == ReleaseAll(old(Snapshot()), ids)
    {
      ids := SelectExpired(now, limit);
      assert forall i | 0 <= i < |ids| :: ids[i] in ExpiredSet(Snapshot(), now);
      n := 0;
      for i := 0 to |ids|
        invariant Valid() && n == i
        invariant Snapshot() == ReleaseAll(old(Snapshot()), ids[..i])
      {
        assert ids[..i + 1][..i] == ids[..i];
        ReleaseAllRows(old(Snapshot()), ids[..i]);
        assert RowAfter(old(Snapshot()), Snapshot(), ids[..i], ids[i]);
        var released := ReleaseDropReservation(ids[i], Some(Expired));
        if released.Ok? {
          n := n + 1;
        }
      }
      assert ids[..|ids|] == ids;
      ReleaseAllExact(old(Snapshot()), ids);
    }

    // ---- Deletion -----------------------------------------------------------------------------------

    /** Flags a file for deletion and returns its quota once; the answer asks the caller to unpin. */
    method MarkDropFileDeletePending(file: FileId) returns (r: Result<bool>)
      requires Valid()
      modifies this
      ensures Valid()
      ensures Outcome(Snapshot(), r) == Mark(old(Snapshot()), file)
    {
      MarkKeepsInv(Snapshot(), file);
      r := MarkTx(file);
    }

    method MarkTx(file: FileId) returns (r: Result<bool>)
      modifies this
      ensures Outcome(Snapshot(), r) == Mark(old(Snapshot()), file)
    {
      if file !in files {
        return Err(NotFound);
      }
      var row := files[file];
      if row.status == Deleted {
        return Ok(false);
      }
      if row.status == DeletePending {
        var status := if file in pins then pins[file].status else Unpinned;
        return Ok(UnpinOwed(status));
      }
      if row.scope == Public {
        AdjustQuotaTx(row.owner, -row.size, 0);
      }
      var others := set f | f in files && f != file && files[f].node == row.node && files[f].cid == row.cid &&
                            Referenced(files[f].status);
      assert others == OtherReferences(old(Snapshot()), file);
      files := files[file := row.(status := DeletePending)];
      var status := if |others| > 0 then Unpinned else UnpinPending;
      pins := SetPin(pins, file, status);
      return Ok(|others| == 0);
    }

    method FinalizeDropFileDeletion(file: FileId, unpinned: bool)
      requires Valid()
      modifies this
      ensures Valid()
      ensures Snapshot() == Finalize(old(Snapshot()), file, unpinned)
    {
      FinalizeKeepsInv(Snapshot(), file, unpinned);
      pins := SetPin(pins, file, if unpinned then Unpinned else PinError);
      if unpinned && file in files && files[file].status == DeletePending {
        files := files[file := files[file].(status := Deleted)];
      }
    }

    // ---- Job lists ----------------------------------------------------------------------------------

    /** The delete jobs whose pins were written longest ago; updatedAt is the column of the pin rows. */
    method ListPendingDropUnpins(limit: int, updatedAt: FileId -> int) returns (jobs: seq<FileId>)
      ensures IsPage(UnpinJobs(Snapshot()), updatedAt, if limit <= 0 then 50 else limit, jobs)
    {
      var all := set f | f in files && UnpinListed(Snapshot(), f);
      jobs := OldestFirst(all, updatedAt, if limit <= 0 then 50 else limit);
    }

    /** The orphan jobs whose uploads were written longest ago; updatedAt is the column of the upload rows. */
    method ListPendingDropOrphanPins(limit: int, updatedAt: UploadId -> int) returns (jobs: seq<UploadId>)
      ensures IsPage(OrphanJobs(Snapshot()), updatedAt, if limit <= 0 then 50 else limit, jobs)
    {
      var all := set u | u in uploads && OrphanListed(Snapshot(), u);
      jobs := OldestFirst(all, updatedAt, if limit <= 0 then 50 else limit);
    }

    // ---- Node reports -------------------------------------------------------------------------------

    method ApplyDropStatus(node: NodeId, reported: string, repoSize: int, storageMax: int)
      requires Valid()
      modifies this
      ensures Valid()
      ensures Snapshot() == Heartbeat(old(Snapshot()), node, NormalizeDropState(reported), repoSize, storageMax)
    {
      var state := NormalizeDropState(reported);
      NodeReportKeepsInv(Snapshot(), Heartbeat(Snapshot(), node, state, repoSize, storageMax));
      if node in nodes {
        nodes := nodes[node := nodes[node].(enabled := true, state := state, repoSize := repoSize,
                                            storageMax := storageMax)];
      } else {
        nodes := nodes[node := NodeRow(true, false, state, storageMax, repoSize, 0)];
      }
    }

    method ApplyDropCapability(node: NodeId, enabled: bool, acceptsPublic: bool)
      requires Valid()
      modifies this
      ensures Valid()
      ensures Snapshot() == Capability(old(Snapshot()), node, enabled, acceptsPublic)
    {
      NodeReportKeepsInv(Snapshot(), Capability(Snapshot(), node, enabled, acceptsPublic));
      if node in nodes {
        var state := if enabled then nodes[node].state else StateDisabled;
        nodes := nodes[node := nodes[node].(enabled := enabled, acceptsPublic := acceptsPublic, state := state)];
      } else {
        var state := if enabled then StateStarting else StateDisabled;
        nodes := nodes[node := NodeRow(enabled, acceptsPublic, state, 0, 0, 0)];
      }
    }
  }

  /** The first rows of a query ordered by a column. */
  method OldestFirst(all: set<nat>, key: nat -> int, limit: nat) returns (page: seq<nat>)
    ensures IsPage(all, key, limit, page)
  {
    page := [];
    var rest := all;
    while |page| < limit && rest != {}
      invariant rest <= all && |page| + |rest| == |all| && |page| <= limit && Distinct(page)
      invariant forall i | 0 <= i < |page| :: page[i] in all && page[i] !in rest
      invariant forall x | x in all && x !in rest :: x in page
      invariant forall i, j | 0 <= i < j < |page| :: key(page[i]) <= key(page[j])
      invariant forall i, x | 0 <= i < |page| && x in rest :: key(page[i]) <= key(x)
      decreases rest
    {
      var x := Oldest(rest, key);
      page, rest := page + [x], rest - {x};
    }
  }

  method Oldest(rows: set<nat>, key: nat -> int) returns (oldest: nat)
    requires rows != {}
    ensures oldest in rows && forall x | x in rows :: key(oldest) <= key(x)
  {
    oldest :| oldest in rows;
    var rest := rows - {oldest};
    while rest != {}
      invariant rest <= rows && oldest in rows
      invariant forall x | x in rows && x !in rest :: key(oldest) <= key(x)
      decreases rest
    {
      var x :| x in rest;
      if key(x) < key(oldest) { oldest := x; }
      rest := rest - {x};
    }
  }
}
