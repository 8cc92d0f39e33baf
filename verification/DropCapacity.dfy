/** Quota and node capacity over runs, and what discovery reports. */
module DropCapacity {
  import opened DropTables
  import opened DropLedger

  // ---- Quota over runs ----------------------------------------------------------------------------

  predicate UserWithin(db: Tables, user: UserId, limit: TierLimit) {
    QuotaOf(db, user).used + QuotaOf(db, user).reserved <= limit.publicBytes
  }

  ghost predicate QuotaRespected(db: Tables, limits: UserId -> TierLimit) {
    forall user :: UserWithin(db, user, limits(user))
  }

  predicate LimitInRange(limit: TierLimit) {
    0 <= limit.publicBytes && limit.publicBytes + limit.maxFileBytes <= MAX_INT64
  }

  /** The tier limit is fixed and a node never reports more bytes than were reserved. */
  predicate Honest(db: Tables, tx: Tx, limits: UserId -> TierLimit) {
    match tx
    case TReserve(input, limit, _, _) => limit == limits(input.user) && LimitInRange(limit)
    case TCommit(_, id, _, reported, _) => id in db.uploads ==> reported <= db.uploads[id].reserved
    case _ => true
  }

  ghost predicate HonestRun(db: Tables, txs: seq<Tx>, limits: UserId -> TierLimit)
    decreases |txs|
  {
    txs == [] || (Honest(db, txs[0], limits) && HonestRun(Apply(db, txs[0]), txs[1..], limits))
  }

  lemma QuotasNonNegative(db: Tables, user: UserId)
    requires Inv(db)
    ensures QuotaOf(db, user).used >= 0 && QuotaOf(db, user).reserved >= 0
  {
    assert UserBalanced(db, user);
    QuotaNonNegative(db, user);
  }

  lemma AdmitKeepsQuota(db: Tables, tx: Tables, input: ReserveInput, limit: TierLimit, id: UploadId, now: int)
    requires LimitInRange(limit) && UserWithin(db, input.user, limit) && tx.quota == db.quota && input.size > 0
    requires QuotaOf(db, input.user).used >= 0 && QuotaOf(db, input.user).reserved >= 0
    ensures UserWithin(Admit(db, tx, input, limit, id, now).db, input.user, limit)
  {
    var q := QuotaOf(tx, input.user);
    if input.size <= limit.maxFileBytes {
      assert Wrap64(q.used + q.reserved + input.size) == q.used + q.reserved + input.size;
    }
  }

  lemma ReserveKeepsQuota(db: Tables, input: ReserveInput, limit: TierLimit, id: UploadId, now: int)
    requires Inv(db) && LimitInRange(limit) && UserWithin(db, input.user, limit)
    ensures UserWithin(Reserve(db, input, limit, id, now).db, input.user, limit)
  {
    QuotasNonNegative(db, input.user);
    if input.size > 0 {
      match FindByKey(db, input.user, input.key)
      case None => AdmitKeepsQuota(db, db, input, limit, id, now);
      case Some(existing) => AdmitKeepsQuota(db, Retired(db, existing), input, limit, id, now);
    }
  }

  lemma ApplyKeepsQuota(db: Tables, tx: Tx, limits: UserId -> TierLimit, user: UserId)
    requires Inv(db) && Honest(db, tx, limits) && UserWithin(db, user, limits(user))
    ensures UserWithin(Apply(db, tx), user, limits(user))
  {
    match tx
    case TReserve(input, limit, id, now) =>
      if user == input.user {
        ReserveKeepsQuota(db, input, limit, id, now);
      }
    case TCommit(owner, id, cid, reported, f) =>
      if id in db.uploads && db.uploads[id].owner == owner && Live(db.uploads[id].status) && f !in db.files {
        CommitMovesCounters(db, owner, id, cid, reported, f);
      }
    case TRelease(id, status) =>
      if id in db.uploads && Live(db.uploads[id].status) {
        ReleaseMovesCounters(db, id, status);
      }
    case TMark(f) =>
      if f in db.files && Referenced(db.files[f].status) {
        MarkMovesCounters(db, f);
      }
    case _ =>
  }

  /** used + reserved stays within the public limit over every honest run. */
  lemma {:induction false} QuotaNeverOversubscribed(db: Tables, txs: seq<Tx>, limits: UserId -> TierLimit)
    requires Inv(db) && QuotaRespected(db, limits) && HonestRun(db, txs, limits)
    ensures QuotaRespected(Exec(db, txs), limits)
    decreases |txs|
  {
    if txs != [] {
      ApplyKeepsInv(db, txs[0]);
      forall user ensures UserWithin(Apply(db, txs[0]), user, limits(user)) {
        assert UserWithin(db, user, limits(user));
        ApplyKeepsQuota(db, txs[0], limits, user);
      }
      QuotaNeverOversubscribed(Apply(db, txs[0]), txs[1..], limits);
    }
  }

  /** The commit does not compare the reported size with the reserved one: the owner's total stays
      within what was reserved for it exactly when the node reports no more than that. */
  lemma CommitGrowsTotalIffOverReported(db: Tables, id: UploadId, cid: Cid, reported: int, f: FileId)
    requires Inv(db) && id in db.uploads && Live(db.uploads[id].status) && db.uploads[id].scope == Public
    requires f !in db.files
    ensures var user := db.uploads[id].owner;
            var before := QuotaOf(db, user);
            var after := QuotaOf(Commit(db, user, id, cid, reported, f).db, user);
            after.used + after.reserved <= before.used + before.reserved <==> reported <= db.uploads[id].reserved
  {
    CommitMovesCounters(db, db.uploads[id].owner, id, cid, reported, f);
  }

  function CommittedSize(row: Upload, reported: int): int { if reported <= 0 then row.declared else reported }

  /** A commit keeps its owner within the quota if and only if what it adds beyond the hold fits the slack. */
  lemma CommitKeepsQuotaIff(db: Tables, id: UploadId, cid: Cid, reported: int, f: FileId, limit: TierLimit)
    requires Inv(db) && id in db.uploads && Live(db.uploads[id].status) && db.uploads[id].scope == Public
    requires f !in db.files
    ensures var row := db.uploads[id];
            var before := QuotaOf(db, row.owner);
            UserWithin(Commit(db, row.owner, id, cid, reported, f).db, row.owner, limit) <==>
              CommittedSize(row, reported) - row.reserved <= limit.publicBytes - before.used - before.reserved
  {
    CommitMovesCounters(db, db.uploads[id].owner, id, cid, reported, f);
  }

  /** With the quota used up, that is exactly when the node reports no more than was reserved. */
  lemma FullQuotaKeptIff(db: Tables, id: UploadId, cid: Cid, reported: int, f: FileId, limit: TierLimit)
    requires Inv(db) && id in db.uploads && Live(db.uploads[id].status) && db.uploads[id].scope == Public
    requires f !in db.files
    requires var q := QuotaOf(db, db.uploads[id].owner); q.used + q.reserved == limit.publicBytes
    ensures var user := db.uploads[id].owner;
            UserWithin(Commit(db, user, id, cid, reported, f).db, user, limit) <==> reported <= db.uploads[id].reserved
  {
    CommitKeepsQuotaIff(db, id, cid, reported, f, limit);
  }

  /** So any report above the whole quota breaks it. */
  lemma OverReportBreaksQuota(db: Tables, id: UploadId, cid: Cid, reported: int, f: FileId, limit: TierLimit)
    requires Inv(db) && id in db.uploads && Live(db.uploads[id].status) && db.uploads[id].scope == Public
    requires f !in db.files && reported > limit.publicBytes >= 0
    ensures !UserWithin(Commit(db, db.uploads[id].owner, id, cid, reported, f).db, db.uploads[id].owner, limit)
  {
    CommitMovesCounters(db, db.uploads[id].owner, id, cid, reported, f);
    QuotasNonNegative(db, db.uploads[id].owner);
    HoldWithinCounters(db, id);
  }

  // ---- Node capacity between heartbeats -----------------------------------------------------------

  predicate NodeWithin(db: Tables, node: NodeId) {
    node in db.nodes && db.nodes[node].storageMax > 0 ==>
      0 <= db.nodes[node].repoSize && db.nodes[node].repoSize + db.nodes[node].reserved <= db.nodes[node].storageMax
  }

  /** The int64 sum of the capacity test wraps to a value below the bound. */
  predicate WrapsBelow(row: NodeRow, size: int) {
    var sum := row.repoSize + row.reserved + size;
    row.storageMax > 0 && sum > MAX_INT64 && Wrap64(sum) <= row.storageMax
  }

  /** No heartbeat of this node, and no reservation on it whose capacity test wraps below the bound. */
  predicate CapacityStep(db: Tables, tx: Tx, node: NodeId) {
    match tx
    case TReserve(input, _, _, _) => input.node == node && node in db.nodes ==> !WrapsBelow(db.nodes[node], input.size)
    case THeartbeat(n, _, _, _) => n != node
    case _ => true
  }

  lemma NodeReservedNonNegative(db: Tables, node: NodeId)
    requires Inv(db)
    ensures NodeReserved(db, node) >= 0
  {
    assert NodeBalanced(db, node);
    Sums.SumNonNegative(db.uploads, NodeHold(node));
  }

  ghost predicate CapacityRun(db: Tables, txs: seq<Tx>, node: NodeId)
    decreases |txs|
  {
    txs == [] || (CapacityStep(db, txs[0], node) && CapacityRun(Apply(db, txs[0]), txs[1..], node))
  }

  lemma ReserveKeepsCapacity(db: Tables, input: ReserveInput, limit: TierLimit, id: UploadId, now: int, node: NodeId)
    requires NodeWithin(db, node) && NodeReserved(db, node) >= 0
    requires CapacityStep(db, TReserve(input, limit, id, now), node)
    ensures NodeWithin(Reserve(db, input, limit, id, now).db, node)
  {
  }

  lemma ApplyKeepsCapacity(db: Tables, tx: Tx, node: NodeId)
    requires Inv(db) && CapacityStep(db, tx, node) && NodeWithin(db, node)
    ensures NodeWithin(Apply(db, tx), node)
  {
    NodeReservedNonNegative(db, node);
    match tx
    case TReserve(input, limit, id, now) => ReserveKeepsCapacity(db, input, limit, id, now, node);
    case TCommit(owner, id, cid, reported, f) =>
      if id in db.uploads && db.uploads[id].owner == owner && Live(db.uploads[id].status) && f !in db.files {
        CommitMovesCounters(db, owner, id, cid, reported, f);
        HoldWithinCounters(db, id);
      }
    case TRelease(id, status) =>
      if id in db.uploads && Live(db.uploads[id].status) {
        ReleaseMovesCounters(db, id, status);
        HoldWithinCounters(db, id);
      }
    case _ =>
  }

  /** Recorded repository size plus reservations stays within the advertised bound between heartbeats. */
  lemma {:induction false} NodeNeverOversubscribed(db: Tables, txs: seq<Tx>, node: NodeId)
    requires Inv(db) && NodeWithin(db, node) && CapacityRun(db, txs, node)
    ensures NodeWithin(Exec(db, txs), node)
    decreases |txs|
  {
    if txs != [] {
      ApplyKeepsInv(db, txs[0]);
      ApplyKeepsCapacity(db, txs[0], node);
      NodeNeverOversubscribed(Apply(db, txs[0]), txs[1..], node);
    }
  }

  /** The exact test that Go's wrap-around approximates. */
  predicate FitsExactly(row: NodeRow, size: int) {
    row.storageMax <= 0 || row.repoSize + row.reserved + size <= row.storageMax
  }

  /** The columns are int64; only the reservation column is kept non-negative by the table. */
  predicate RowInRange(row: NodeRow) {
    -MAX_INT64 - 1 <= row.repoSize <= MAX_INT64 && 0 <= row.reserved <= MAX_INT64 && row.storageMax <= MAX_INT64
  }

  predicate Reachable(db: Tables, node: NodeId, scope: Scope) {
    && node in db.nodes && node in db.peers && db.peers[node]
    && db.nodes[node].enabled && db.nodes[node].state == StateActive
    && (scope == Public ==> db.nodes[node].acceptsPublic)
  }

  /** Admission is the exact capacity test except where the int64 sum wraps below the bound. */
  lemma AdmissionExactIff(db: Tables, node: NodeId, scope: Scope, size: int)
    requires Reachable(db, node, scope) && RowInRange(db.nodes[node]) && 0 < size <= MAX_INT64
    ensures var row := db.nodes[node];
            (NodeVerdict(db, node, scope, size).Ok? <==> FitsExactly(row, size)) <==> !WrapsBelow(row, size)
  {
  }

  /** A private upload has no size ceiling, so a request near the int64 bound is let in on a small node. */
  lemma WrapAdmitsOversizedPrivateUpload()
    ensures var row := NodeRow(true, true, StateActive, 1000, 1, 0);
            var db := EMPTY_TABLES.(nodes := map[7 := row], peers := map[7 := true]);
            NodeVerdict(db, 7, PrivateOrg, MAX_INT64).Ok? && !FitsExactly(row, MAX_INT64)
  {
  }

  // ---- Discovery agrees with admission ------------------------------------------------------------

  datatype Capacity = CapacityUnknown | CapacityAvailable | CapacityLimited | CapacityFull

  function CoarseCapacity(row: NodeRow): Capacity {
    if row.storageMax <= 0 then CapacityUnknown
    else
      var avail := Wrap64(row.storageMax - row.repoSize - row.reserved);
      if avail <= 0 then CapacityFull
      else if Wrap64(avail * 10) < row.storageMax then CapacityLimited
      else CapacityAvailable
  }

  /** A runtime node joined with its Drop row. */
  datatype Peer = Peer(node: NodeId, orgId: nat, accessPublic: bool)

  datatype NodeInfo = NodeInfo(node: NodeId, online: bool, state: NodeState, acceptsPublic: bool, capacity: Capacity,
                               acceptingUploads: bool)

  predicate Listed(db: Tables, p: Peer, scope: Scope, orgId: nat) {
    && p.node in db.nodes && p.node in db.peers && db.nodes[p.node].enabled
    && db.nodes[p.node].state in {StateActive, StateDegraded, StateFull}
    && match scope
       case PrivateOrg => p.orgId == orgId
       case Public => p.accessPublic && db.peers[p.node] && db.nodes[p.node].acceptsPublic
  }

  function Info(db: Tables, node: NodeId, scope: Scope): NodeInfo
    requires node in db.nodes && node in db.peers
  {
    var row := db.nodes[node];
    var capacity := CoarseCapacity(row);
    NodeInfo(node, db.peers[node], row.state, row.acceptsPublic, capacity,
             db.peers[node] && row.state == StateActive && capacity != CapacityFull &&
             (scope == PrivateOrg || row.acceptsPublic))
  }

  /** Where the admission test and the difference that discovery and the usage view take part ways: the sum stays
      below the bound but the difference wraps, or the sum wraps below the bound and the difference does not. */
  predicate Misjudged(max: int, sum: int, size: int) {
    || (sum + size <= max && max - sum > MAX_INT64)
    || (sum + size > MAX_INT64 && max - sum >= -MAX_INT64 - 1 && Wrap64(sum + size) <= max)
  }

  /** A listed node is shown as accepting exactly when a one-byte reservation would be admitted, and this fails
      exactly for a reachable, bounded node whose columns make the two int64 computations part ways. */
  lemma AcceptingIffAdmitsOneByte(db: Tables, p: Peer, scope: Scope, orgId: nat)
    requires Listed(db, p, scope, orgId) && RowInRange(db.nodes[p.node])
    ensures var row := db.nodes[p.node];
            (Info(db, p.node, scope).acceptingUploads <==> NodeVerdict(db, p.node, scope, 1).Ok?) <==>
              !(Reachable(db, p.node, scope) && row.storageMax > 0 &&
                Misjudged(row.storageMax, row.repoSize + row.reserved, 1))
  {
  }

  function Listing(db: Tables, peers: seq<Peer>, scope: Scope, orgId: nat): seq<NodeInfo> {
    if peers == [] then []
    else
      var init := peers[..|peers| - 1];
      var last := peers[|peers| - 1];
      Listing(db, init, scope, orgId) + if Listed(db, last, scope, orgId) then [Info(db, last.node, scope)] else []
  }

  /** The columns that put a node on the list: its service enabled and active, degraded or full; for an organization
      its own nodes, for the public those that are public, online and take public uploads. */
  predicate OnList(db: Tables, p: Peer, scope: Scope, orgId: nat) {
    && p.node in db.nodes && p.node in db.peers && db.nodes[p.node].enabled
    && (db.nodes[p.node].state == StateActive || db.nodes[p.node].state == StateDegraded ||
        db.nodes[p.node].state == StateFull)
    && (scope == PrivateOrg ==> p.orgId == orgId)
    && (scope == Public ==> p.accessPublic && db.peers[p.node] && db.nodes[p.node].acceptsPublic)
  }

  /** What is shown of it. */
  predicate ShowsNode(db: Tables, info: NodeInfo, scope: Scope) {
    && info.node in db.nodes && info.node in db.peers
    && info.online == db.peers[info.node] && info.state == db.nodes[info.node].state
    && info.acceptsPublic == db.nodes[info.node].acceptsPublic
    && info.capacity == CoarseCapacity(db.nodes[info.node])
    && (info.acceptingUploads <==> info.online && info.state == StateActive && info.capacity != CapacityFull &&
                                   (scope == Public ==> info.acceptsPublic))
  }

  predicate Names(list: seq<NodeInfo>, n: NodeId) { exists i | 0 <= i < |list| :: list[i].node == n }

  lemma NamesSnoc(list: seq<NodeInfo>, info: NodeInfo, n: NodeId)
    ensures Names(list + [info], n) <==> Names(list, n) || info.node == n
  {
    var all := list + [info];
    if Names(list, n) {
      var i :| 0 <= i < |list| && list[i].node == n;
      assert all[i].node == n;
    }
    if info.node == n { assert all[|list|].node == n; }
  }

  ghost predicate SomeOnList(db: Tables, peers: seq<Peer>, scope: Scope, orgId: nat, n: NodeId) {
    exists p | p in peers :: p.node == n && OnList(db, p, scope, orgId)
  }

  lemma SomeOnListSnoc(db: Tables, init: seq<Peer>, last: Peer, scope: Scope, orgId: nat, n: NodeId)
    ensures SomeOnList(db, init + [last], scope, orgId, n) <==>
              SomeOnList(db, init, scope, orgId, n) || (last.node == n && OnList(db, last, scope, orgId))
  {
    var peers := init + [last];
    forall p ensures p in peers <==> p in init || p == last {}
    if last.node == n && OnList(db, last, scope, orgId) { assert last in peers; }
    if SomeOnList(db, init, scope, orgId, n) {
      var p :| p in init && p.node == n && OnList(db, p, scope, orgId);
      assert p in peers;
    }
  }

  /** The list names exactly the nodes whose columns put them there. */
  lemma {:induction false} ListingNames(db: Tables, peers: seq<Peer>, scope: Scope, orgId: nat, n: NodeId)
    ensures Names(Listing(db, peers, scope, orgId), n) <==> SomeOnList(db, peers, scope, orgId, n)
  {
    if peers != [] {
      var init, last := peers[..|peers| - 1], peers[|peers| - 1];
      assert peers == init + [last];
      ListingNames(db, init, scope, orgId, n);
      SomeOnListSnoc(db, init, last, scope, orgId, n);
      assert OnList(db, last, scope, orgId) <==> Listed(db, last, scope, orgId);
      if Listed(db, last, scope, orgId) {
        NamesSnoc(Listing(db, init, scope, orgId), Info(db, last.node, scope), n);
      } else {
        assert Listing(db, peers, scope, orgId) == Listing(db, init, scope, orgId);
      }
    }
  }

  /** Shows their columns. */
  lemma {:induction false} ListingShows(db: Tables, peers: seq<Peer>, scope: Scope, orgId: nat, i: nat)
    requires i < |Listing(db, peers, scope, orgId)|
    ensures ShowsNode(db, Listing(db, peers, scope, orgId)[i], scope)
  {
    var init := peers[..|peers| - 1];
    if i < |Listing(db, init, scope, orgId)| { ListingShows(db, init, scope, orgId, i); }
  }

  /** And keeps their order. */
  lemma {:induction false} ListingOrder(db: Tables, peers: seq<Peer>, scope: Scope, orgId: nat, i: nat, j: nat)
      returns (a: nat, b: nat)
    requires i < j < |Listing(db, peers, scope, orgId)|
    ensures a < b < |peers|
    ensures var out := Listing(db, peers, scope, orgId); out[i].node == peers[a].node && out[j].node == peers[b].node
  {
    var init := peers[..|peers| - 1];
    var before := Listing(db, init, scope, orgId);
    if j < |before| {
      a, b := ListingOrder(db, init, scope, orgId, i, j);
    } else {
      b := |peers| - 1;
      ListingNames(db, init, scope, orgId, before[i].node);
      assert Names(before, before[i].node);
      var p :| p in init && p.node == before[i].node && OnList(db, p, scope, orgId);
      a :| 0 <= a < |init| && init[a] == p;
    }
  }

  predicate Judged(db: Tables, node: NodeId) {
    node in db.nodes ==>
      var row := db.nodes[node];
      row.storageMax <= 0 || !Misjudged(row.storageMax, row.repoSize + row.reserved, 1)
  }

  /** The list holds the listed nodes in order, and each flag tells what admission would do, save for the columns
      on which the int64 computations part ways. */
  method ListDropNodes(db: Tables, peers: seq<Peer>, scope: Scope, orgId: nat) returns (out: seq<NodeInfo>)
    requires forall n | n in db.nodes :: RowInRange(db.nodes[n])
    ensures out == Listing(db, peers, scope, orgId)
    ensures forall i | 0 <= i < |out| && Judged(db, out[i].node) ::
              out[i].acceptingUploads <==> NodeVerdict(db, out[i].node, scope, 1).Ok?
  {
    out := [];
    for k := 0 to |peers|
      invariant out == Listing(db, peers[..k], scope, orgId)
      invariant forall i | 0 <= i < |out| && Judged(db, out[i].node) ::
                  out[i].acceptingUploads <==> NodeVerdict(db, out[i].node, scope, 1).Ok?
    {
      assert peers[..k + 1][..k] == peers[..k];
      if Listed(db, peers[k], scope, orgId) {
        AcceptingIffAdmitsOneByte(db, peers[k], scope, orgId);
        out := out + [Info(db, peers[k].node, scope)];
      }
    }
    assert peers[..|peers|] == peers;
  }

  /** Without a bound the bucket is unknown; with one it is full exactly when nothing is left, unless the rest wraps. */
  lemma OuterBucketsExact(row: NodeRow)
    requires RowInRange(row)
    ensures CoarseCapacity(row) == CapacityUnknown <==> row.storageMax <= 0
    ensures row.storageMax > 0 && row.storageMax - row.repoSize - row.reserved <= MAX_INT64 ==>
              var rest := row.storageMax - row.repoSize - row.reserved;
              (CoarseCapacity(row) == CapacityFull <==> rest <= 0) <==> rest >= -MAX_INT64 - 1
  {
  }

  /** The "limited" bucket means less than a tenth left, except where ten times the rest wraps. */
  lemma LimitedBucketExactIff(row: NodeRow)
    requires RowInRange(row) && row.storageMax > 0
    requires 0 < row.storageMax - row.repoSize - row.reserved <= MAX_INT64
    ensures var avail := row.storageMax - row.repoSize - row.reserved;
            (CoarseCapacity(row) == CapacityLimited <==> avail * 10 < row.storageMax) <==>
              !(avail * 10 > MAX_INT64 && Wrap64(avail * 10) < row.storageMax)
  {
  }

  /** An empty node that advertises the largest bound is reported as nearly full. */
  lemma HugeEmptyNodeLooksLimited()
    ensures CoarseCapacity(NodeRow(true, true, StateActive, MAX_INT64, 0, 0)) == CapacityLimited
  {
  }

  function AvailableBytes(db: Tables, user: UserId, limit: TierLimit): int {
    Max0(Wrap64(limit.publicBytes - QuotaOf(db, user).used - QuotaOf(db, user).reserved))
  }

  predicate QuotaInRange(q: Quota) { 0 <= q.used <= MAX_INT64 && 0 <= q.reserved <= MAX_INT64 }

  /** A size within the file ceiling passes the quota check exactly when it is at most the available bytes that the
      usage view reports, and this fails exactly where the int64 computations part ways. */
  lemma QuotaAdmitsIffAvailable(db: Tables, user: UserId, limit: TierLimit, size: int)
    requires QuotaInRange(QuotaOf(db, user)) && 0 <= limit.publicBytes <= MAX_INT64
    requires 0 < size <= limit.maxFileBytes <= MAX_INT64
    ensures var q := QuotaOf(db, user);
            (QuotaVerdict(db, user, limit, size).Ok? <==> size <= AvailableBytes(db, user, limit)) <==>
              !Misjudged(limit.publicBytes, q.used + q.reserved, size)
  {
  }

  /** -1 stands for a node that advertised no bound. */
  function AvailableDropCapacityBytes(row: NodeRow): int {
    if row.storageMax <= 0 then -1 else Max0(Wrap64(row.storageMax - row.repoSize - row.reserved))
  }

  /** Both are what is left, and zero when nothing is, as long as the difference is an int64. */
  lemma AvailableIsRest(db: Tables, user: UserId, limit: TierLimit, row: NodeRow)
    ensures var rest := limit.publicBytes - QuotaOf(db, user).used - QuotaOf(db, user).reserved;
            -MAX_INT64 - 1 <= rest <= MAX_INT64 ==> AvailableBytes(db, user, limit) == if rest > 0 then rest else 0
    ensures var rest := row.storageMax - row.repoSize - row.reserved;
            row.storageMax > 0 && -MAX_INT64 - 1 <= rest <= MAX_INT64 ==>
              AvailableDropCapacityBytes(row) == if rest > 0 then rest else 0
    ensures row.storageMax <= 0 ==> AvailableDropCapacityBytes(row) == -1
  {
  }

  /** The node's remaining capacity is the largest reservation it admits, save where the computations part ways. */
  lemma NodeAdmitsIffAvailable(db: Tables, node: NodeId, scope: Scope, size: int)
    requires Reachable(db, node, scope) && RowInRange(db.nodes[node]) && 0 < size <= MAX_INT64
    ensures var row := db.nodes[node];
            var available := AvailableDropCapacityBytes(row);
            (NodeVerdict(db, node, scope, size).Ok? <==> available == -1 || size <= available) <==>
              !(row.storageMax > 0 && Misjudged(row.storageMax, row.repoSize + row.reserved, size))
  {
  }
}
