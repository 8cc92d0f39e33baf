/** What a reservation request does. */
module DropReservations {
  import opened Wrappers
  import opened DropTables
  import opened DropLedger
  import opened DropUploads
  import opened DropExpiry

  // ---- Which answer when ------------------------------------------------------------------------------------

  /** The key's upload is still open or went through: the request is answered with it. */
  predicate Replays(db: Tables, u: UploadId, input: ReserveInput) {
    && u in db.uploads && db.uploads[u].owner == input.user && db.uploads[u].key == input.key
    && db.uploads[u].status in {Reserved, Uploading, Committed}
  }

  /** The key's upload ended, and the key it would be moved to is taken. */
  predicate RetiresInto(db: Tables, u: UploadId, v: UploadId, input: ReserveInput) {
    && u in db.uploads && db.uploads[u].owner == input.user && db.uploads[u].key == input.key
    && db.uploads[u].status in {Failed, Expired}
    && v in db.uploads && db.uploads[v].owner == input.user && db.uploads[v].key == RetiredKey(input.key, u)
  }

  /** The request opens a new upload, if quota and node allow. */
  ghost predicate Opens(db: Tables, input: ReserveInput) {
    && input.size > 0 && 0 < |input.key| <= 128
    && (forall u :: !Replays(db, u, input)) && (forall u, v :: !RetiresInto(db, u, v, input))
  }

  predicate OverQuota(db: Tables, input: ReserveInput, limit: TierLimit) {
    var used := if input.user in db.quota then db.quota[input.user].used else 0;
    var reserved := if input.user in db.quota then db.quota[input.user].reserved else 0;
    input.scope == Public &&
    (input.size > limit.maxFileBytes || Wrap64(used + reserved + input.size) > limit.publicBytes)
  }

  /** The node is registered and online, its Drop service enabled and active, and it takes public uploads if this is
      one. */
  predicate TakesUploads(db: Tables, input: ReserveInput) {
    && input.node in db.nodes && input.node in db.peers && db.peers[input.node]
    && db.nodes[input.node].enabled && db.nodes[input.node].state == StateActive
    && (input.scope == Public ==> db.nodes[input.node].acceptsPublic)
  }

  predicate NodeFull(db: Tables, input: ReserveInput)
    requires input.node in db.nodes
  {
    var row := db.nodes[input.node];
    row.storageMax > 0 && Wrap64(row.repoSize + row.reserved + input.size) > row.storageMax
  }

  lemma KeyCases(db: Tables, input: ReserveInput)
    requires Inv(db)
    ensures match FindByKey(db, input.user, input.key)
            case None => (forall u :: !Replays(db, u, input)) && (forall u, v :: !RetiresInto(db, u, v, input))
            case Some(e) =>
              && (Replays(db, e, input) <==> exists u :: Replays(db, u, input))
              && (Replays(db, e, input) <==> Live(db.uploads[e].status) || db.uploads[e].status == Committed)
              && ((exists u, v :: RetiresInto(db, u, v, input)) <==>
                    !Replays(db, e, input) && KeyTaken(db, input.user, RetiredKey(input.key, e)))
  {
    var found := FindByKey(db, input.user, input.key);
    forall u: UploadId | HasKey(db, u, input.user, input.key) ensures found == Some(u) {
      assert SameKey(db, found.value, u);
    }
    forall u: UploadId | Replays(db, u, input) ensures found == Some(u) { assert HasKey(db, u, input.user, input.key); }
    forall u: UploadId, v: UploadId | RetiresInto(db, u, v, input)
      ensures found == Some(u) && HasKey(db, v, input.user, RetiredKey(input.key, u))
    {
      assert HasKey(db, u, input.user, input.key);
    }
    if found.Some? && KeyTaken(db, input.user, RetiredKey(input.key, found.value)) {
      var v :| HasKey(db, v, input.user, RetiredKey(input.key, found.value));
      assert !Replays(db, found.value, input) ==> RetiresInto(db, found.value, v, input);
    }
  }

  /** Every error has its case, the earlier test first. */
  lemma ReserveErrors(db: Tables, input: ReserveInput, limit: TierLimit, id: UploadId, now: int)
    requires Inv(db)
    ensures var r := Reserve(db, input, limit, id, now).result;
            && (r == Err(BadRequest) <==> input.size <= 0 || |input.key| == 0 || |input.key| > 128)
            && (r == Err(QuotaExceeded) <==> Opens(db, input) && OverQuota(db, input, limit))
            && (r == Err(NodeUnavailable) <==>
                  Opens(db, input) && !OverQuota(db, input, limit) && !TakesUploads(db, input))
            && (r == Err(NodeCapacity) <==>
                  Opens(db, input) && !OverQuota(db, input, limit) && TakesUploads(db, input) && NodeFull(db, input))
            && r != Err(NotFound) && r != Err(Conflict)
  {
    KeyCases(db, input);
  }

  /** And a request goes through exactly when it replays, or opens an upload that quota and node have room for. */
  lemma ReserveSucceedsIff(db: Tables, input: ReserveInput, limit: TierLimit, id: UploadId, now: int)
    requires Inv(db) && id !in db.uploads
    ensures Reserve(db, input, limit, id, now).result.Ok? <==>
              input.size > 0 && 0 < |input.key| <= 128 &&
              ((exists u :: Replays(db, u, input)) ||
               (Opens(db, input) && !OverQuota(db, input, limit) && TakesUploads(db, input) && !NodeFull(db, input)))
  {
    KeyCases(db, input);
    ReserveRetires(db, input, limit, id, now);
  }

  /** A constraint of the tables fails exactly when the key cannot be retired or the new id is not new. */
  lemma ReserveRetires(db: Tables, input: ReserveInput, limit: TierLimit, id: UploadId, now: int)
    requires Inv(db)
    ensures Reserve(db, input, limit, id, now).result == Err(ConstraintViolation) <==>
              input.size > 0 && 0 < |input.key| <= 128 && (forall u :: !Replays(db, u, input)) &&
              ((exists u, v :: RetiresInto(db, u, v, input)) ||
               (!OverQuota(db, input, limit) && TakesUploads(db, input) && !NodeFull(db, input) && id in db.uploads))
  {
    KeyCases(db, input);
    match FindByKey(db, input.user, input.key)
    case None =>
    case Some(e) =>
      if !Replays(db, e, input) && !KeyTaken(db, input.user, RetiredKey(input.key, e)) { KeyFreed(db, e); }
  }

  lemma KeyFreed(db: Tables, e: UploadId)
    requires Inv(db) && e in db.uploads
    ensures !KeyTaken(Retired(db, e), db.uploads[e].owner, db.uploads[e].key)
  {
    var row := db.uploads[e];
    RetiredDiffers(row.key, e);
    forall u: UploadId ensures !HasKey(Retired(db, e), u, row.owner, row.key) {
      assert HasKey(db, u, row.owner, row.key) ==> SameKey(db, u, e);
    }
  }

  // ---- Retired keys -----------------------------------------------------------------------------------------

  function DigitValue(c: char): nat { if '0' <= c <= '9' then c as int - '0' as int else 0 }

  function Decimal(s: string): nat { if s == "" then 0 else Decimal(s[..|s| - 1]) * 10 + DigitValue(s[|s| - 1]) }

  lemma {:induction false} DecimalOfId(id: UploadId)
    ensures Decimal(IdText(id)) == id && |IdText(id)| > 0
  {
    var text := IdText(id);
    if id < 10 {
      assert text[..0] == "";
      OneDigit(id);
    } else {
      DecimalOfId(id / 10);
      OneDigit(id % 10);
      assert text[..|text| - 1] == IdText(id / 10);
    }
  }

  lemma OneDigit(d: nat)
    requires d < 10
    ensures DigitValue("0123456789"[d]) == d
  {
  }

  lemma RetiredDiffers(key: string, id: UploadId)
    ensures RetiredKey(key, id) != key
  {
    assert |RetiredKey(key, id)| > |key|;
  }

  /** A retired key shows the key and the upload it belonged to: the key, a marker, and the upload's number. */
  lemma RetiredKeyReads(key: string, id: UploadId)
    ensures var retired := RetiredKey(key, id);
            && |retired| > |key| + 10 && retired[..|key|] == key && retired[|key|..|key| + 10] == ":terminal:"
            && Decimal(retired[|key| + 10..]) == id
  {
    DecimalOfId(id);
    var retired := RetiredKey(key, id);
    assert retired == key + (":terminal:" + IdText(id));
    assert retired[|key| + 10..] == IdText(id);
  }

  // ---- What is written --------------------------------------------------------------------------------------

  /** The request opened upload id. */
  ghost predicate Opened(db: Tables, input: ReserveInput, limit: TierLimit, id: UploadId, now: int) {
    Reserve(db, input, limit, id, now).result == Ok(id) && forall u :: !Replays(db, u, input)
  }

  /** The new row carries the input, unchanged, and holds what was declared. */
  lemma OpenedRow(db: Tables, input: ReserveInput, limit: TierLimit, id: UploadId, now: int)
    requires Inv(db) && Opened(db, input, limit, id, now)
    ensures id !in db.uploads
    ensures var next := Reserve(db, input, limit, id, now).db;
            && id in next.uploads
            && var row := next.uploads[id];
               && row.owner == input.user && row.node == input.node && row.scope == input.scope
               && row.attrs == input.attrs && row.key == input.key
               && row.declared == row.reserved == input.size && row.status == Reserved && row.cid == NoCid
  {
    KeyCases(db, input);
  }

  /** An expiry pass takes it exactly when its time is over, half an hour if the request gave none. */
  lemma OpenedExpires(db: Tables, input: ReserveInput, limit: TierLimit, id: UploadId, now: int, later: int)
    requires Inv(db) && Opened(db, input, limit, id, now)
    ensures id in ExpiredSet(Reserve(db, input, limit, id, now).db, later) <==>
              later > now + if input.ttl <= 0 then 1800 else input.ttl
  {
    KeyCases(db, input);
  }

  /** The hold is counted once against the owner's quota, if the upload is public, and against nobody else's. */
  lemma OpenedQuota(db: Tables, input: ReserveInput, limit: TierLimit, id: UploadId, now: int, u: UserId)
    requires Inv(db) && Opened(db, input, limit, id, now)
    ensures var next := Reserve(db, input, limit, id, now).db;
            && QuotaOf(next, u).used == QuotaOf(db, u).used
            && QuotaOf(next, u).reserved ==
                 QuotaOf(db, u).reserved + if u == input.user && input.scope == Public then input.size else 0
  {
    KeyCases(db, input);
  }

  /** And once at the node; every other node and node column, file and pin stays. */
  lemma OpenedNodes(db: Tables, input: ReserveInput, limit: TierLimit, id: UploadId, now: int)
    requires Inv(db) && Opened(db, input, limit, id, now)
    ensures var next := Reserve(db, input, limit, id, now).db;
            && input.node in db.nodes
            && next.nodes == db.nodes[input.node := db.nodes[input.node].(
                                        reserved := db.nodes[input.node].reserved + input.size)]
            && next.files == db.files && next.pins == db.pins && next.peers == db.peers
  {
    KeyCases(db, input);
  }

  /** Over any run that leaves the reservation live, a later pass takes it if its time is over and the pass has room,
      and never before. */
  lemma OpenedExpiresInTime(db: Tables, input: ReserveInput, limit: TierLimit, id: UploadId, now: int, txs: seq<Tx>,
                            later: int, room: int, ids: seq<UploadId>)
    requires Inv(db) && Opened(db, input, limit, id, now)
    requires var end := Exec(Reserve(db, input, limit, id, now).db, txs);
             IsLive(end, id) && IsBatch(end, later, room, ids)
    ensures var end := Exec(Reserve(db, input, limit, id, now).db, txs);
            var deadline := now + if input.ttl <= 0 then 1800 else input.ttl;
            && (id in ids ==> later > deadline)
            && (later > deadline && |ExpiredSet(end, later)| <= (if room <= 0 then 100 else room) ==> id in ids)
  {
    var next := Reserve(db, input, limit, id, now).db;
    var end := Exec(next, txs);
    KeyCases(db, input);
    LiveRowStays(next, txs, id);
    BatchLive(end, later, room, ids);
    BatchOldest(end, later, room, ids, id);
    IdSetSize(ids);
    if |ExpiredSet(end, later)| <= (if room <= 0 then 100 else room) && id in ExpiredSet(end, later) {
      WholeSet(IdSet(ids), ExpiredSet(end, later), id);
    }
  }

  lemma WholeSet(a: set<nat>, b: set<nat>, x: nat)
    requires a <= b && |a| >= |b| && x in b
    ensures x in a
  {
    assert b == a + (b - a);
    assert |b - a| == 0;
  }

  lemma {:induction false} LiveRowStays(db: Tables, txs: seq<Tx>, id: UploadId)
    requires id in db.uploads && IsLive(Exec(db, txs), id)
    ensures Exec(db, txs).uploads[id] == db.uploads[id]
    decreases |txs|
  {
    if txs != [] {
      ApplyEvolves(db, txs[0], id);
      LiveRowStays(Apply(db, txs[0]), txs[1..], id);
    }
  }
}
