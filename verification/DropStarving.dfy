/** Reachable job lists that starve some of their jobs for good, though the nodes would confirm. */
module DropStarving {
  import opened DropTables
  import opened DropLedger
  import opened DropPins
  import opened DropLosses
  import opened DropPinSafety
  import opened DropDeletes
  import opened DropExpiry
  import opened JobQueue
  import opened DropHandlers
  import opened DropReconcile
  import opened DropQueue

  function TinyUpload(user: UserId, node: NodeId): ReserveInput {
    ReserveInput(user, node, PrivateOrg, Attrs("", "", "", "", "", false, ""), 1, "k", 0)
  }

  function ReserveStep(n: nat, node: NodeId): Step { Standalone(TReserve(TinyUpload(n, node), TierLimit(0, 0), n, 0)) }

  const STORED := ContentStore(true, Acked, true, true)

  const MARKED := DeleteStore(true, Acked, Acked)

  predicate NodeOpen(db: Tables, n: NodeId) {
    && n in db.nodes && n in db.peers && db.peers[n]
    && db.nodes[n].enabled && db.nodes[n].state == StateActive && db.nodes[n].storageMax == 0
  }

  /** Two nodes, and the CID of all files; files go to node a, from number split on to node b. */
  datatype Setup = Setup(a: NodeId, b: NodeId, split: nat, cid: Cid)

  function NodeFor(x: Setup, f: nat): NodeId { if f < x.split then x.a else x.b }

  /** File f came from upload f, and is waiting for its unpin. */
  predicate Waits(db: Tables, f: nat, x: Setup) {
    && f in db.uploads && db.uploads[f].owner == f && db.uploads[f].status == Committed
    && UnpinListed(db, f) && FileRef(db.files[f]) == PinRef(NodeFor(x, f), x.cid)
  }

  /** The first n files wait; there is no other file or upload. */
  ghost predicate AllWait(w: World, n: nat, x: Setup) {
    && ReachableWorld(w) && IsQuiet(w) && NodeOpen(w.db, x.a) && NodeOpen(w.db, x.b)
    && (forall f :: f in w.db.files ==> f < n) && (forall u :: u in w.db.uploads ==> u < n)
    && (forall f | 0 <= f < n :: Waits(w.db, f, x))
  }

  lemma {:induction false} RunReachable(w: World, steps: seq<Step>)
    requires ReachableWorld(w)
    ensures ReachableWorld(Run(w, steps))
    decreases |steps|
  {
    if steps != [] {
      NextReachable(w, steps[0]);
      RunReachable(Next(w, steps[0]), steps[1..]);
    }
  }

  /** Two nodes that are online, active and unbounded. */
  ghost function NodesReady(a: NodeId, b: NodeId): World {
    Next(Next(Next(NodeReady(a), Standalone(TPeer(b, true))), Standalone(TCapability(b, true, true))),
         Standalone(THeartbeat(b, StateActive, 0, 0)))
  }

  lemma NodesReadyHolds(x: Setup)
    requires x.a != x.b
    ensures AllWait(NodesReady(x.a, x.b), 0, x)
  {
    var a, b := x.a, x.b;
    NodeReadyHolds(a);
    var s0, s1, s2 := Standalone(TPeer(b, true)), Standalone(TCapability(b, true, true)),
                      Standalone(THeartbeat(b, StateActive, 0, 0));
    NextReachable(NodeReady(a), s0);
    NextReachable(Next(NodeReady(a), s0), s1);
    NextReachable(Next(Next(NodeReady(a), s0), s1), s2);
  }

  /** One more reservation. */
  lemma Reserves(db: Tables, n: nat, node: NodeId)
    requires NodeOpen(db, node) && n !in db.uploads && forall u | u in db.uploads :: db.uploads[u].owner != n
    ensures var next := Apply(db, TReserve(TinyUpload(n, node), TierLimit(0, 0), n, 0));
            && next.uploads == db.uploads[n := NewUpload(TinyUpload(n, node), 0)]
            && next.files == db.files && next.pins == db.pins && next.peers == db.peers
            && next.nodes == db.nodes[node := db.nodes[node].(reserved := db.nodes[node].reserved + 1)]
  {
    assert forall id :: !HasKey(db, id, n, "k");
  }

  lemma Commits(db: Tables, n: nat, node: NodeId, cid: Cid)
    requires n in db.uploads && db.uploads[n] == NewUpload(TinyUpload(n, node), 0) && n !in db.files
    ensures var next := Commit(db, n, n, cid, 1, n).db;
            && next.uploads == db.uploads[n := db.uploads[n].(status := Committed, cid := cid)]
            && next.files == db.files[n := next.files[n]] && next.files[n].status == Active
            && FileRef(next.files[n]) == PinRef(node, cid)
            && next.pins == db.pins[n := next.pins[n]] && next.peers == db.peers
            && next.nodes == ReleaseNode(db.nodes, node, 1)
  {
  }

  /** A delete whose unpin is refused, with no other file in use. */
  lemma DeleteRefused(db: Tables, n: nat)
    requires Inv(db) && n in db.files && db.files[n].status == Active
    requires forall f | f in db.files && f != n :: !Referenced(db.files[f].status)
    ensures Mark(db, n).result == Ok(true)
    ensures var next := Finalize(Mark(db, n).db, n, false);
            && UnpinListed(next, n) && FileRef(next.files[n]) == FileRef(db.files[n])
            && next.uploads == db.uploads && next.peers == db.peers && next.nodes == db.nodes
            && next.files == db.files[n := next.files[n]] && next.pins == db.pins[n := next.pins[n]]
  {
    assert OtherReferences(db, n) == {};
    assert FileOk(db, n);
    FailedUnpinStaysListed(db, n);
  }

  lemma Reserved(w: World, n: nat, node: NodeId, x: Setup)
    requires AllWait(w, n, x) && NodeOpen(w.db, node)
    ensures var next := Next(w, ReserveStep(n, node));
            && ReachableWorld(next) && IsQuiet(next) && NodeOpen(next.db, x.a) && NodeOpen(next.db, x.b)
            && next.db.uploads == w.db.uploads[n := NewUpload(TinyUpload(n, node), 0)]
            && next.db.files == w.db.files && next.db.pins == w.db.pins
  {
    NextReachable(w, ReserveStep(n, node));
    forall u | u in w.db.uploads ensures w.db.uploads[u].owner != n { assert Waits(w.db, u, x); }
    Reserves(w.db, n, node);
  }

  /** The rows of upload and file n were written, the file waits, and nothing else changed but the node's counter. */
  predicate OnlyFileAdded(db: Tables, next: Tables, n: nat, node: NodeId, cid: Cid) {
    && n in next.uploads && n in next.files && n in next.pins
    && next.uploads == db.uploads[n := next.uploads[n]] && next.files == db.files[n := next.files[n]]
    && next.pins == db.pins[n := next.pins[n]] && next.peers == db.peers
    && next.nodes == ReleaseNode(db.nodes, node, 1)
    && next.uploads[n].owner == n && next.uploads[n].status == Committed
    && UnpinListed(next, n) && FileRef(next.files[n]) == PinRef(node, cid)
  }

  lemma OthersWait(db: Tables, next: Tables, f: nat, n: nat, x: Setup)
    requires f != n && Waits(db, f, x) && OnlyFileAdded(db, next, n, NodeFor(x, n), x.cid)
    ensures Waits(next, f, x)
  {
  }

  lemma AddedRows(db: Tables, n: nat, node: NodeId, cid: Cid)
    requires Inv(Commit(db, n, n, cid, 1, n).db) && n !in db.files
    requires n in db.uploads && db.uploads[n] == NewUpload(TinyUpload(n, node), 0)
    requires forall f | f in db.files :: !Referenced(db.files[f].status)
    ensures var committed := Commit(db, n, n, cid, 1, n).db;
            && Mark(committed, n).result == Ok(true)
            && OnlyFileAdded(db, Finalize(Mark(committed, n).db, n, false), n, node, cid)
  {
    Commits(db, n, node, cid);
    DeleteRefused(Commit(db, n, n, cid, 1, n).db, n);
  }

  /** The file that is uploaded and then deleted, its unpin refused. */
  lemma UploadedAndDeleted(w: World, n: nat, node: NodeId, cid: Cid)
    requires ReachableWorld(w) && IsQuiet(w) && ValidCid(cid)
    requires n in w.db.uploads && w.db.uploads[n] == NewUpload(TinyUpload(n, node), 0) && n !in w.db.files
    requires forall f | f in w.db.files :: !Referenced(w.db.files[f].status)
    ensures var mid := Run(w, ContentSteps(n, n, PutPinned(cid, 1), n, STORED));
            var next := Run(mid, DeleteSteps(n, Refused, MARKED));
            && ReachableWorld(next) && IsQuiet(next)
            && OnlyFileAdded(w.db, next.db, n, node, cid)
  {
    ReachableInv(w);
    ContentEffect(w.db, w.pinned, n, n, cid, 1, n, STORED);
    var mid := Run(w, ContentSteps(n, n, PutPinned(cid, 1), n, STORED));
    CommitKeepsInv(w.db, n, n, cid, 1, n);
    Commits(w.db, n, node, cid);
    AddedRows(w.db, n, node, cid);
    DeleteEffect(mid.db, mid.pinned, n, Refused, MARKED);
    RunReachable(w, ContentSteps(n, n, PutPinned(cid, 1), n, STORED));
    RunReachable(mid, DeleteSteps(n, Refused, MARKED));
  }

  lemma OneMore(w: World, n: nat, x: Setup) returns (next: World)
    requires AllWait(w, n, x) && ValidCid(x.cid)
    ensures AllWait(next, n + 1, x)
  {
    var node := NodeFor(x, n);
    Reserved(w, n, node, x);
    var reserved := Next(w, ReserveStep(n, node));
    forall f | f in reserved.db.files ensures !Referenced(reserved.db.files[f].status) {
      assert Waits(w.db, f, x);
    }
    UploadedAndDeleted(reserved, n, node, x.cid);
    next := Run(Run(reserved, ContentSteps(n, n, PutPinned(x.cid, 1), n, STORED)), DeleteSteps(n, Refused, MARKED));
    AddedWaits(w, reserved, next, n, x);
  }

  lemma AddedWaits(w: World, reserved: World, next: World, n: nat, x: Setup)
    requires AllWait(w, n, x) && ReachableWorld(next) && IsQuiet(next)
    requires NodeOpen(reserved.db, x.a) && NodeOpen(reserved.db, x.b) && n in reserved.db.uploads
    requires reserved.db.uploads == w.db.uploads[n := reserved.db.uploads[n]]
    requires reserved.db.files == w.db.files && reserved.db.pins == w.db.pins
    requires OnlyFileAdded(reserved.db, next.db, n, NodeFor(x, n), x.cid)
    ensures AllWait(next, n + 1, x)
  {
    forall f | 0 <= f < n + 1 ensures Waits(next.db, f, x) {
      if f < n {
        assert Waits(w.db, f, x);
        OthersWait(reserved.db, next.db, f, n, x);
      }
    }
  }

  lemma {:induction false} ManyWait(n: nat, x: Setup) returns (w: World)
    requires x.a != x.b && ValidCid(x.cid)
    ensures AllWait(w, n, x)
  {
    if n == 0 {
      NodesReadyHolds(x);
      w := NodesReady(x.a, x.b);
    } else {
      var before := ManyWait(n - 1, x);
      w := OneMore(before, n - 1, x);
    }
  }

  /** Nothing is active, so no job's CID is still used. */
  lemma NothingActive(w: World, n: nat, x: Setup, f: FileId)
    requires AllWait(w, n, x) && f in w.db.files
    ensures !FileShared(w.db, f)
  {
    forall g | g in w.db.files ensures w.db.files[g].status != Active { assert Waits(w.db, g, x); }
  }

  lemma WaitingSettled(w: World, n: nat, x: Setup)
    requires AllWait(w, n, x)
    ensures Settled(w)
  {
    ReachableInv(w);
    forall f, ref ensures !Needs(w, f, ref) {
      if f in w.db.files { assert Waits(w.db, f, x); }
    }
  }

  /** The delete job stays on the list through every sequence of passes, and no pass counts its references. */
  ghost predicate Starved(w: World, f: FileId, pass: PassInput) {
    forall passes: seq<Lists> | IsPassRun(w, passes, pass) ::
      f in UnpinJobs(AfterAll(w, passes, pass).db) &&
      forall i | 0 <= i < |passes| :: !CountedIn(passes[i].files, pass.files, pass.budget, f)
  }

  lemma UnservedStarved(w: World, f: FileId, pass: PassInput)
    requires Settled(w) && UnpinListed(w.db, f) && !Served(UnpinJobs(w.db), FileQueue(w.db, pass), f)
    ensures Starved(w, f, pass)
  {
    forall passes: seq<Lists> | IsPassRun(w, passes, pass)
      ensures f in UnpinJobs(AfterAll(w, passes, pass).db) &&
              forall i | 0 <= i < |passes| :: !CountedIn(passes[i].files, pass.files, pass.budget, f)
    {
      UnservedFile(w, passes, pass, f);
    }
  }

  // ---- Twenty refusals --------------------------------------------------------------------------------------

  function Swift(answer: UnpinReply): Handling { Handling(Counted(answer, true), 0, Refused) }

  /** Node a refuses, node b confirms, every store call works, and nothing takes time; jobs are as old as their numbers
      tell. */
  function Refusing(): PassInput {
    PassInput(f => f, u => u, true, true, 1, f => if f < 20 then Swift(Refused) else Swift(Removed),
              u => Swift(Removed))
  }

  lemma Twenty(stuck: set<nat>)
    requires forall f: nat | f < 20 :: f in stuck
    ensures |stuck| >= 20
  {
    var ids: seq<nat> := seq(20, i => i);
    IdSetSize(ids);
    assert IdSet(ids) <= stuck;
    SubsetSize(IdSet(ids), stuck);
  }

  lemma TwentyOlder(w: World, x: Setup)
    requires AllWait(w, 21, x)
    ensures |OlderStuck(UnpinJobs(w.db), FileQueue(w.db, Refusing()), 20)| >= 20
  {
    forall f: nat | f < 20 ensures f in OlderStuck(UnpinJobs(w.db), FileQueue(w.db, Refusing()), 20) {
      assert Waits(w.db, f, x);
      NothingActive(w, 21, x, f);
      assert Refusing().files(f) == Swift(Refused);
      assert Unhurried(Refusing().files)(f) == Refusing().files(f).sweep;
      assert f in StuckFiles(w.db, Unhurried(Refusing().files));
    }
    Twenty(OlderStuck(UnpinJobs(w.db), FileQueue(w.db, Refusing()), 20));
  }

  /** Twenty deletes whose node keeps refusing keep the next one off every pass, although its own node would confirm:
      it stays on the list for good. */
  lemma TwentyRefusalsStarve(a: NodeId, b: NodeId, cid: Cid)
    requires a != b && ValidCid(cid)
    ensures exists w :: ReachableWorld(w) && Settled(w) && Waits(w.db, 20, Setup(a, b, 20, cid)) &&
                        Starved(w, 20, Refusing())
  {
    var x := Setup(a, b, 20, cid);
    var w := ManyWait(21, x);
    WaitingSettled(w, 21, x);
    assert Waits(w.db, 20, x);
    TwentyOlder(w, x);
    UnservedStarved(w, 20, Refusing());
  }

  // ---- One node that never answers ----------------------------------------------------------------------------

  const ROLLED_BACK := ContentStore(true, RolledBack, true, true)

  /** Beside n waiting deletes, upload n left its CID on the orphan list. */
  ghost predicate WaitWithOrphan(w: World, n: nat, x: Setup) {
    && ReachableWorld(w) && Settled(w) && (forall f :: f in w.db.files ==> f < n)
    && (forall f | 0 <= f < n :: UnpinListed(w.db, f) && FileRef(w.db.files[f]) == PinRef(NodeFor(x, f), x.cid))
    && OrphanListed(w.db, n) && UploadRef(w.db.uploads[n]) == PinRef(x.b, x.cid)
  }

  /** A pinned upload whose commit is rolled back. */
  lemma OrphanAdded(w: World, n: nat, x: Setup) returns (next: World)
    requires AllWait(w, n, x) && ValidCid(x.cid)
    ensures WaitWithOrphan(next, n, x)
  {
    Reserved(w, n, x.b, x);
    var reserved := Next(w, ReserveStep(n, x.b));
    var steps := ContentSteps(n, n, PutPinned(x.cid, 1), n, ROLLED_BACK);
    ReachableInv(reserved);
    ContentEffect(reserved.db, reserved.pinned, n, n, x.cid, 1, n, ROLLED_BACK);
    RunReachable(reserved, steps);
    next := Run(reserved, steps);
    ReachableInv(next);
    OrphanLeft(reserved.db, n, x);
    forall f | 0 <= f < n
      ensures UnpinListed(next.db, f) && FileRef(next.db.files[f]) == PinRef(NodeFor(x, f), x.cid)
    {
      assert Waits(w.db, f, x);
    }
    forall f, ref ensures !Needs(next, f, ref) {
      if f in w.db.files { assert Waits(w.db, f, x); }
    }
  }

  lemma OrphanLeft(db: Tables, n: nat, x: Setup)
    requires n in db.uploads && db.uploads[n] == NewUpload(TinyUpload(n, x.b), 0) && ValidCid(x.cid)
    ensures var next := OrphanRecorded(db, n, x.cid, true, true);
            && next.files == db.files && next.pins == db.pins
            && OrphanListed(next, n) && UploadRef(next.uploads[n]) == PinRef(x.b, x.cid)
  {
  }

  /** The node of job 0 never answers; every other job would be done in no time. */
  function Hanging(budget: nat): PassInput {
    PassInput(f => f, u => u, true, true, budget,
              f => if f == 0 then Handling(Counted(Removed, true), budget, Refused) else Swift(Removed),
              u => Swift(Removed))
  }

  /** The orphan job stays on the list through every sequence of passes, and no pass even reads the list. */
  ghost predicate OrphanStarved(w: World, u: UploadId, pass: PassInput) {
    forall passes: seq<Lists> | IsPassRun(w, passes, pass) ::
      u in OrphanJobs(AfterAll(w, passes, pass).db) && forall i | 0 <= i < |passes| :: passes[i].orphans == []
  }

  lemma HangingBlocks(w: World, x: Setup, budget: nat)
    requires WaitWithOrphan(w, 2, x)
    ensures !Served(UnpinJobs(w.db), FileQueue(w.db, Hanging(budget)), 1)
  {
    var all, q := UnpinJobs(w.db), FileQueue(w.db, Hanging(budget));
    assert UnpinListed(w.db, 0);
    assert q.time(0) == Hanging(budget).files(0).time == budget;
  }

  lemma TwoJobs(w: World, x: Setup)
    requires WaitWithOrphan(w, 2, x)
    ensures UnpinJobs(w.db) == {0, 1}
  {
    assert UnpinListed(w.db, 0) && UnpinListed(w.db, 1);
    forall f ensures f in UnpinJobs(w.db) <==> f in {0, 1} {}
  }

  /** The page of a pass: both delete jobs, the hanging one first, and it takes all the time. */
  lemma HangingTakesAll(q: Queue)
    requires q.limit == 20 && q.budget > 0 && q.time(0) == q.budget && q.stamp(0) == 0 && q.stamp(1) == 1
    ensures AtRest({0, 1}, q, [0, 1]) && TimeOf([0, 1], q.time) >= q.budget
  {
    var page: seq<nat> := [0, 1];
    StartAt(page, q.time, 0);
    StartAt(page, q.time, 1);
    NextTime(page, q.time, 0);
    NextTime(page, q.time, 1);
    assert page[..0] == [] && page[..2] == page;
    assert page[0] == 0 && page[1] == 1;
    assert !InTime(q, page, 0) && !InTime(q, page, 1);
  }

  lemma HangingRests(w: World, x: Setup, budget: nat)
    requires WaitWithOrphan(w, 2, x) && budget > 0
    ensures DeletesAtRest(w.db, [0, 1], Hanging(budget)) && Rest(budget, [0, 1], Hanging(budget).files) == 0
  {
    var q := FileQueue(w.db, Hanging(budget));
    assert q.time(0) == Hanging(budget).files(0).time == budget;
    TwoJobs(w, x);
    HangingTakesAll(q);
  }

  /** One delete whose node never answers stops every younger delete and every orphan job, for good, although their own
      node would confirm at once. */
  lemma OneHangingNodeStarves(a: NodeId, b: NodeId, cid: Cid, budget: nat)
    requires a != b && ValidCid(cid) && budget > 0
    ensures exists w :: WaitWithOrphan(w, 2, Setup(a, b, 1, cid)) && Starved(w, 1, Hanging(budget)) &&
                        OrphanStarved(w, 2, Hanging(budget))
  {
    var x := Setup(a, b, 1, cid);
    var two := ManyWait(2, x);
    var w := OrphanAdded(two, 2, x);
    HangingBlocks(w, x, budget);
    UnservedStarved(w, 1, Hanging(budget));
    HangingRests(w, x, budget);
    NoTimeStarves(w, [0, 1], Hanging(budget), 2);
  }

  lemma NoTimeStarves(w: World, page: seq<FileId>, pass: PassInput, u: UploadId)
    requires Settled(w) && OrphanListed(w.db, u) && DeletesAtRest(w.db, page, pass)
    requires DistinctStamps(UnpinJobs(w.db), pass.pinStamp) && Rest(pass.budget, page, pass.files) == 0
    ensures OrphanStarved(w, u, pass)
  {
    forall passes: seq<Lists> | IsPassRun(w, passes, pass)
      ensures u in OrphanJobs(AfterAll(w, passes, pass).db) && forall i | 0 <= i < |passes| :: passes[i].orphans == []
    {
      UnservedOrphan(w, page, passes, pass, u);
      PassesSettle(w, passes, pass);
      OrphansArePages(w, page, passes, pass);
      NoTimeNoOrphans(w, page, passes, pass);
    }
  }

  lemma {:induction false} NoTimeNoOrphans(w: World, page: seq<FileId>, passes: seq<Lists>, pass: PassInput)
    requires AllPassed(w, passes, pass) && forall i | 0 <= i < |passes| :: passes[i].files == page
    requires Rest(pass.budget, page, pass.files) == 0
    ensures forall i | 0 <= i < |passes| :: passes[i].orphans == []
    decreases |passes|
  {
    if passes != [] {
      forall i | 0 <= i < |passes[1..]| ensures passes[1..][i] == passes[i + 1] {}
      NoTimeNoOrphans(Pass(w, passes[0], pass), page, passes[1..], pass);
      forall i | 0 < i < |passes| ensures passes[i] == passes[1..][i - 1] {}
    }
  }
}
