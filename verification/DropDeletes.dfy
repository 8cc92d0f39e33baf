/** Files that share a CID: the last reference decides, once. */
module DropDeletes {
  import opened Wrappers
  import opened DropTables
  import opened DropLedger
  import opened DropPins
  import opened DropCoverage

  ghost function Referencing(db: Tables, ref: PinRef): set<FileId> {
    set f | f in db.files && Referenced(db.files[f].status) && FileRef(db.files[f]) == ref
  }

  /** A first delete of a file with this reference, as opposed to a repeated one. */
  predicate FirstMark(db: Tables, tx: Tx, ref: PinRef) {
    tx.TMark? && tx.fileId in db.files && Referenced(db.files[tx.fileId].status) && FileRef(db.files[tx.fileId]) == ref
  }

  ghost predicate Decisive(db: Tables, tx: Tx, ref: PinRef) {
    FirstMark(db, tx, ref) && Mark(db, tx.fileId).result == Ok(true)
  }

  /** How many first deletes in a run ask for the CID to be unpinned. */
  ghost function DecisiveMarks(db: Tables, txs: seq<Tx>, ref: PinRef): nat
    decreases |txs|
  {
    if txs == [] then 0
    else (if Decisive(db, txs[0], ref) then 1 else 0) + DecisiveMarks(Apply(db, txs[0]), txs[1..], ref)
  }

  /** A commit of this CID by an upload to this node. */
  predicate Reuploads(db: Tables, tx: Tx, ref: PinRef) {
    tx.TCommit? && tx.cid == ref.cid && tx.uploadId in db.uploads && db.uploads[tx.uploadId].node == ref.node
  }

  ghost predicate NoReupload(db: Tables, txs: seq<Tx>, ref: PinRef)
    decreases |txs|
  {
    txs == [] || (!Reuploads(db, txs[0], ref) && NoReupload(Apply(db, txs[0]), txs[1..], ref))
  }

  /** Without a re-upload, the referencing files change only by first deletes, one at a time. */
  lemma ReferencingShrinks(db: Tables, tx: Tx, ref: PinRef)
    requires !Reuploads(db, tx, ref)
    ensures Referencing(Apply(db, tx), ref) ==
              Referencing(db, ref) - if FirstMark(db, tx, ref) then {tx.fileId} else {}
  {
    var next := Apply(db, tx);
    forall f ensures f in Referencing(next, ref) <==>
                     f in Referencing(db, ref) - (if FirstMark(db, tx, ref) then {tx.fileId} else {})
    {
      ApplyEvolvesFile(db, tx, f);
    }
  }

  /** A first delete asks for the unpin exactly when no referencing file is left afterwards. */
  lemma DecisiveIffLast(db: Tables, tx: Tx, ref: PinRef)
    requires FirstMark(db, tx, ref)
    ensures Decisive(db, tx, ref) <==> Referencing(Apply(db, tx), ref) == {}
  {
    ReferencingShrinks(db, tx, ref);
    assert OtherReferences(db, tx.fileId) == Referencing(db, ref) - {tx.fileId};
  }

  /** For any number of files sharing a CID on a node, deleted in any order and amid any other transactions
      that do not upload it again, exactly one first delete asks for the unpin once all are gone, none before. */
  lemma {:induction false} LastReferenceDecides(db: Tables, txs: seq<Tx>, ref: PinRef)
    requires NoReupload(db, txs, ref)
    ensures DecisiveMarks(db, txs, ref) ==
              if Referencing(db, ref) != {} && Referencing(Exec(db, txs), ref) == {} then 1 else 0
    decreases |txs|
  {
    if txs != [] {
      var next := Apply(db, txs[0]);
      LastReferenceDecides(next, txs[1..], ref);
      ReferencingShrinks(db, txs[0], ref);
      if FirstMark(db, txs[0], ref) {
        DecisiveIffLast(db, txs[0], ref);
      }
      ReferencingNeverReturns(next, txs[1..], ref);
    }
  }

  lemma {:induction false} ReferencingNeverReturns(db: Tables, txs: seq<Tx>, ref: PinRef)
    requires NoReupload(db, txs, ref)
    ensures Referencing(Exec(db, txs), ref) <= Referencing(db, ref)
    decreases |txs|
  {
    if txs != [] {
      ReferencingShrinks(db, txs[0], ref);
      ReferencingNeverReturns(Apply(db, txs[0]), txs[1..], ref);
    }
  }

  /** The delete's count and the sweep's count of other references agree in every reachable state. */
  lemma ReferenceCountsAgree(txs: seq<Tx>, f: FileId)
    requires f in Exec(EMPTY_TABLES, txs).files
    ensures var db := Exec(EMPTY_TABLES, txs);
            ActiveRefs(db, FileRef(db.files[f]), Some(f)) == OtherReferences(db, f)
  {
    NeverUnavailable(EMPTY_TABLES, txs);
  }

  lemma {:induction false} NeverUnavailable(db: Tables, txs: seq<Tx>)
    requires forall f | f in db.files :: db.files[f].status != Unavailable
    ensures forall f | f in Exec(db, txs).files :: Exec(db, txs).files[f].status != Unavailable
    decreases |txs|
  {
    if txs != [] {
      var next := Apply(db, txs[0]);
      forall f | f in next.files ensures next.files[f].status != Unavailable {
        ApplyEvolvesFile(db, txs[0], f);
      }
      NeverUnavailable(next, txs[1..]);
    }
  }

  /** Deleting again changes nothing and repeats the first answer, until the deletion is finalised. */
  lemma MarkIdempotent(db: Tables, f: FileId)
    requires Inv(db) && f in db.files
    ensures var once := Mark(db, f);
            Mark(once.db, f) == once
  {
    assert FileOk(db, f);
    var once := Mark(db, f);
    if Referenced(db.files[f].status) {
      assert Mark(once.db, f).db == once.db;
    }
  }

  /** Once finalised as unpinned, a deletion is over: marking and finalising again change nothing. */
  lemma DeletionCompletes(db: Tables, f: FileId)
    requires Inv(db) && f in db.files
    ensures var done := Finalize(Mark(db, f).db, f, true);
            && f in done.files && done.files[f].status == Deleted && f in done.pins && done.pins[f].status == Unpinned
            && Mark(done, f) == Outcome(done, Ok(false))
            && Finalize(done, f, true) == done
  {
    assert FileOk(db, f);
  }

  /** A failed unpin keeps the deletion on the job list, with the quota already returned. */
  lemma FailedUnpinStaysListed(db: Tables, f: FileId)
    requires Inv(db) && f in db.files && Mark(db, f).result == Ok(true)
    ensures var failed := Finalize(Mark(db, f).db, f, false);
            UnpinListed(failed, f) && failed.quota == Mark(db, f).db.quota && Mark(failed, f).result == Ok(true)
  {
    assert FileOk(db, f);
  }
}
