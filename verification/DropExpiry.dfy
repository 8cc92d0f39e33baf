/** The expiry pass releases exactly the oldest expired holds. */
module DropExpiry {
  import opened DropTables
  import opened DropLedger
  import opened DropUploads

  predicate ExpiredLive(db: Tables, id: UploadId, now: int) {
    IsLive(db, id) && db.uploads[id].expiresAt < now
  }

  ghost function ExpiredSet(db: Tables, now: int): set<UploadId> {
    set id | id in db.uploads && ExpiredLive(db, id, now)
  }

  predicate Distinct(ids: seq<UploadId>) { forall i, j | 0 <= i < j < |ids| :: ids[i] != ids[j] }

  function Limit(limit: int): nat { if limit <= 0 then 100 else limit }

  function Min(a: nat, b: nat): (r: nat)
    ensures r <= a && r <= b && (r == a || r == b)
  {
    if a < b then a else b
  }

  ghost function IdSet(ids: seq<UploadId>): set<UploadId> { set i | 0 <= i < |ids| :: ids[i] }

  /** An answer of an ordered query: distinct rows, oldest first, nothing older left out, as many as allowed. */
  ghost predicate IsPage(all: set<nat>, key: nat -> int, limit: nat, page: seq<nat>) {
    && Distinct(page) && |page| == Min(limit, |all|)
    && (forall i | 0 <= i < |page| :: page[i] in all)
    && (forall i, j | 0 <= i < j < |page| :: key(page[i]) <= key(page[j]))
    && (forall i, x | 0 <= i < |page| && x in all && x !in page :: key(page[i]) <= key(x))
  }

  function ExpiryKey(uploads: map<UploadId, Upload>): UploadId -> int {
    (id: UploadId) => if id in uploads then uploads[id].expiresAt else 0
  }

  /** An answer of the selecting query: the expired live reservations, oldest first. */
  ghost predicate IsBatch(db: Tables, now: int, limit: int, ids: seq<UploadId>) {
    IsPage(ExpiredSet(db, now), ExpiryKey(db.uploads), Limit(limit), ids)
  }

  lemma BatchLive(db: Tables, now: int, limit: int, ids: seq<UploadId>)
    requires IsBatch(db, now, limit, ids)
    ensures Distinct(ids) && |ids| == Min(Limit(limit), |ExpiredSet(db, now)|)
    ensures IdSet(ids) <= ExpiredSet(db, now) && forall i | 0 <= i < |ids| :: IsLive(db, ids[i])
  {
    assert forall i | 0 <= i < |ids| :: ids[i] in ExpiredSet(db, now);
  }

  /** One release per selected row, in order. */
  ghost function ReleaseAll(db: Tables, ids: seq<UploadId>): Tables
    decreases |ids|
  {
    if ids == [] then db
    else Release(ReleaseAll(db, ids[..|ids| - 1]), ids[|ids| - 1], Expired).db
  }

  ghost function Held(db: Tables, ids: seq<UploadId>, hold: Upload -> int): int
    decreases |ids|
  {
    if ids == [] then 0
    else
      var last := ids[|ids| - 1];
      Held(db, ids[..|ids| - 1], hold) + if last in db.uploads then hold(db.uploads[last]) else 0
  }

  predicate RowAfter(db: Tables, next: Tables, ids: seq<UploadId>, id: UploadId) {
    id in db.uploads ==>
      id in next.uploads &&
      next.uploads[id] ==
        if id in ids then db.uploads[id].(status := Expired, reserved := 0) else db.uploads[id]
  }

  ghost predicate RowsReleased(db: Tables, next: Tables, ids: seq<UploadId>) {
    && next.uploads.Keys == db.uploads.Keys && (forall id :: RowAfter(db, next, ids, id))
    && next.files == db.files && next.pins == db.pins && next.peers == db.peers
  }

  predicate SameNodeReport(a: NodeRow, b: NodeRow) { a == b.(reserved := a.reserved) }

  ghost predicate UserReleased(db: Tables, next: Tables, ids: seq<UploadId>, user: UserId) {
    QuotaOf(next, user) == Quota(QuotaOf(db, user).used, QuotaOf(db, user).reserved - Held(db, ids, PublicHold(user)))
  }

  ghost predicate NodeReleased(db: Tables, next: Tables, ids: seq<UploadId>, n: NodeId) {
    && (n in next.nodes <==> n in db.nodes)
    && (n in db.nodes ==> SameNodeReport(next.nodes[n], db.nodes[n]))
    && NodeReserved(next, n) == NodeReserved(db, n) - Held(db, ids, NodeHold(n))
  }

  /** Exactly the selected reservations become terminal, every counter falls by exactly their sum, and
      nothing else is touched. */
  ghost predicate ExactlyReleased(db: Tables, next: Tables, ids: seq<UploadId>) {
    && RowsReleased(db, next, ids)
    && (forall user :: UserReleased(db, next, ids, user))
    && (forall n :: NodeReleased(db, next, ids, n))
  }

  lemma {:induction false} ReleaseAllRows(db: Tables, ids: seq<UploadId>)
    requires Inv(db) && Distinct(ids) && forall i | 0 <= i < |ids| :: IsLive(db, ids[i])
    ensures Inv(ReleaseAll(db, ids)) && RowsReleased(db, ReleaseAll(db, ids), ids)
    decreases |ids|
  {
    if ids == [] {
      assert forall id :: RowAfter(db, db, [], id);
    } else {
      var init, last := ids[..|ids| - 1], ids[|ids| - 1];
      var mid := ReleaseAll(db, init);
      ReleaseAllRows(db, init);
      ReleaseKeepsInv(mid, last, Expired);
      var next := ReleaseAll(db, ids);
      assert RowAfter(db, mid, init, last);
      forall id ensures RowAfter(db, next, ids, id) {
        assert RowAfter(db, mid, init, id);
        assert id in ids <==> id in init || id == last;
      }
    }
  }

  lemma {:induction false} ReleaseAllCounters(db: Tables, ids: seq<UploadId>, user: UserId, n: NodeId)
    requires Inv(db) && Distinct(ids) && forall i | 0 <= i < |ids| :: IsLive(db, ids[i])
    ensures UserReleased(db, ReleaseAll(db, ids), ids, user) && NodeReleased(db, ReleaseAll(db, ids), ids, n)
    decreases |ids|
  {
    if ids != [] {
      var init, last := ids[..|ids| - 1], ids[|ids| - 1];
      ReleaseAllRows(db, init);
      ReleaseAllCounters(db, init, user, n);
      assert RowAfter(db, ReleaseAll(db, init), init, last);
      ReleaseCounters(ReleaseAll(db, init), last, user, n);
    }
  }

  lemma ReleaseCounters(db: Tables, id: UploadId, user: UserId, n: NodeId)
    requires Inv(db) && IsLive(db, id)
    ensures var next := Release(db, id, Expired).db;
            && QuotaOf(next, user).used == QuotaOf(db, user).used
            && QuotaOf(next, user).reserved == QuotaOf(db, user).reserved - PublicHold(user)(db.uploads[id])
            && NodeReserved(next, n) == NodeReserved(db, n) - NodeHold(n)(db.uploads[id])
            && (n in next.nodes <==> n in db.nodes)
            && (n in db.nodes ==> SameNodeReport(next.nodes[n], db.nodes[n]))
  {
    ReleaseMovesCounters(db, id, Expired);
  }

  lemma ReleaseAllExact(db: Tables, ids: seq<UploadId>)
    requires Inv(db) && Distinct(ids) && forall i | 0 <= i < |ids| :: IsLive(db, ids[i])
    ensures Inv(ReleaseAll(db, ids)) && ExactlyReleased(db, ReleaseAll(db, ids), ids)
  {
    ReleaseAllRows(db, ids);
    forall user ensures UserReleased(db, ReleaseAll(db, ids), ids, user) { ReleaseAllCounters(db, ids, user, 0); }
    forall n ensures NodeReleased(db, ReleaseAll(db, ids), ids, n) { ReleaseAllCounters(db, ids, 0, n); }
  }

  /** The pass over a list of live reservations takes exactly those off the expired ones. */
  lemma ReleasedNotExpired(db: Tables, now: int, ids: seq<UploadId>)
    requires Inv(db) && Distinct(ids) && forall i | 0 <= i < |ids| :: IsLive(db, ids[i])
    ensures ExpiredSet(ReleaseAll(db, ids), now) == ExpiredSet(db, now) - IdSet(ids)
  {
    ReleaseAllRows(db, ids);
    var next := ReleaseAll(db, ids);
    forall id ensures id in ExpiredSet(next, now) <==> id in ExpiredSet(db, now) - IdSet(ids) {
      assert RowAfter(db, next, ids, id);
    }
  }

  /** The pass over any batch is exact. */
  lemma ExpiryPassExact(db: Tables, now: int, limit: int, ids: seq<UploadId>)
    requires Inv(db) && IsBatch(db, now, limit, ids)
    ensures ExactlyReleased(db, ReleaseAll(db, ids), ids)
    ensures ExpiredSet(ReleaseAll(db, ids), now) == ExpiredSet(db, now) - IdSet(ids)
    ensures |ExpiredSet(ReleaseAll(db, ids), now)| ==
              |ExpiredSet(db, now)| - Min(if limit <= 0 then 100 else limit, |ExpiredSet(db, now)|)
  {
    BatchLive(db, now, limit, ids);
    ReleaseAllExact(db, ids);
    ReleasedNotExpired(db, now, ids);
    IdSetSize(ids);
  }

  lemma {:induction false} IdSetSize(ids: seq<UploadId>)
    requires Distinct(ids)
    ensures |IdSet(ids)| == |ids|
    decreases |ids|
  {
    if ids != [] {
      var init := ids[..|ids| - 1];
      IdSetSize(init);
      assert IdSet(ids) == IdSet(init) + {ids[|ids| - 1]};
      assert ids[|ids| - 1] !in IdSet(init);
    }
  }

  ghost predicate IsBatchRun(db: Tables, now: int, limit: int, passes: seq<seq<UploadId>>)
    decreases |passes|
  {
    passes == [] ||
    (IsBatch(db, now, limit, passes[0]) && IsBatchRun(ReleaseAll(db, passes[0]), now, limit, passes[1..]))
  }

  ghost function AfterPasses(db: Tables, passes: seq<seq<UploadId>>): Tables
    decreases |passes|
  {
    if passes == [] then db else AfterPasses(ReleaseAll(db, passes[0]), passes[1..])
  }

  /** What is left of `k` after `passes` rounds that each take up to `limit`. */
  function Left(k: nat, limit: nat, passes: nat): nat {
    if passes * limit >= k then 0 else k - passes * limit
  }

  lemma LeftStep(k: nat, limit: nat, passes: nat)
    requires passes > 0
    ensures Left(k - Min(limit, k), limit, passes - 1) == Left(k, limit, passes)
  {
    assert passes * limit == (passes - 1) * limit + limit;
    assert (passes - 1) * limit >= 0;
  }

  /** How many a pass takes: all expired live reservations, or as many as it may, a hundred when no limit is given. */
  lemma BatchSize(db: Tables, now: int, limit: int, ids: seq<UploadId>)
    requires IsBatch(db, now, limit, ids)
    ensures |ids| == Min(if limit <= 0 then 100 else limit, |ExpiredSet(db, now)|)
  {
  }

  /** Which ones: those that expired first; whatever is left behind expired no earlier. */
  lemma BatchOldest(db: Tables, now: int, limit: int, ids: seq<UploadId>, left: UploadId)
    requires IsBatch(db, now, limit, ids)
    ensures forall i | 0 <= i < |ids| ::
              ids[i] in db.uploads && IsLive(db, ids[i]) && db.uploads[ids[i]].expiresAt < now
    ensures forall i, j | 0 <= i < j < |ids| :: db.uploads[ids[i]].expiresAt <= db.uploads[ids[j]].expiresAt
    ensures IsLive(db, left) && db.uploads[left].expiresAt < now && left !in ids ==>
              forall i | 0 <= i < |ids| :: db.uploads[ids[i]].expiresAt <= db.uploads[left].expiresAt
  {
    forall i | 0 <= i < |ids|
      ensures ids[i] in ExpiredSet(db, now) && ExpiryKey(db.uploads)(ids[i]) == db.uploads[ids[i]].expiresAt
    {}
  }

  /** Repeated passes drain all expired reservations: `m` passes release the first `m * limit` of them. */
  lemma {:induction false} PassesDrain(db: Tables, now: int, limit: int, passes: seq<seq<UploadId>>)
    requires Inv(db) && IsBatchRun(db, now, limit, passes)
    ensures |ExpiredSet(AfterPasses(db, passes), now)| ==
              Left(|ExpiredSet(db, now)|, if limit <= 0 then 100 else limit, |passes|)
    decreases |passes|
  {
    if passes != [] {
      ExpiryPassExact(db, now, limit, passes[0]);
      BatchLive(db, now, limit, passes[0]);
      ReleaseAllRows(db, passes[0]);
      PassesDrain(ReleaseAll(db, passes[0]), now, limit, passes[1..]);
      LeftStep(|ExpiredSet(db, now)|, Limit(limit), |passes|);
    }
  }

  /** Passes that may together take as many as there are drain them all. */
  lemma EnoughPassesDrain(db: Tables, now: int, limit: int, passes: seq<seq<UploadId>>)
    requires Inv(db) && IsBatchRun(db, now, limit, passes)
    ensures var each := if limit <= 0 then 100 else limit;
            ExpiredSet(AfterPasses(db, passes), now) == {} <==> |passes| * each >= |ExpiredSet(db, now)|
  {
    PassesDrain(db, now, limit, passes);
  }
}
