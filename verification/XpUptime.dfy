/** The daily uptime pass: which nodes it pays, and how often. */
module XpUptime {
  import opened Wrappers
  import opened XpKeys
  import opened XpLedger

  // ---- The healthy nodes ----------------------------------------------------------------------------------

  /** A node joined with its organization's owner; heartbeats in seconds. */
  datatype NodeRow = NodeRow(owner: Id, hasOrg: bool, online: bool, heartbeat: Option<int>)

  const CAP := 5

  predicate Healthy(row: NodeRow, now: int) {
    row.hasOrg && row.online && row.heartbeat.Some? && row.heartbeat.value > now - 3600
  }

  predicate HealthyNode(nodes: map<Id, NodeRow>, now: int, n: Id) { n in nodes && Healthy(nodes[n], now) }

  function Beat(nodes: map<Id, NodeRow>, n: Id): int {
    if n in nodes && nodes[n].heartbeat.Some? then nodes[n].heartbeat.value else 0
  }

  /** How many nodes of an owner are listed. */
  function Count(listed: seq<(Id, Id)>, owner: Id): nat {
    if listed == [] then 0
    else Count(listed[..|listed| - 1], owner) + if listed[|listed| - 1].1 == owner then 1 else 0
  }

  predicate Lists(listed: seq<(Id, Id)>, n: Id) { exists i | 0 <= i < |listed| :: listed[i].0 == n }

  /** A healthy node is listed, or its owner has five listed nodes that beat no earlier. */
  ghost predicate Considered(nodes: map<Id, NodeRow>, listed: seq<(Id, Id)>, n: Id)
    requires n in nodes
  {
    Lists(listed, n) ||
    (Count(listed, nodes[n].owner) == CAP &&
     forall i | 0 <= i < |listed| && listed[i].1 == nodes[n].owner :: Beat(nodes, listed[i].0) >= Beat(nodes, n))
  }

  predicate DistinctNodes(listed: seq<(Id, Id)>) { forall i, j | 0 <= i < j < |listed| :: listed[i].0 != listed[j].0 }

  predicate ListedRow(nodes: map<Id, NodeRow>, now: int, pair: (Id, Id)) {
    HealthyNode(nodes, now, pair.0) && nodes[pair.0].owner == pair.1
  }

  /** An answer of the query: of every owner the five healthy nodes with the latest heartbeats, or all of them. */
  ghost predicate IsHealthyList(nodes: map<Id, NodeRow>, now: int, listed: seq<(Id, Id)>) {
    && DistinctNodes(listed)
    && (forall i | 0 <= i < |listed| :: ListedRow(nodes, now, listed[i]))
    && (forall owner :: Count(listed, owner) <= CAP)
    && (forall n | HealthyNode(nodes, now, n) :: Considered(nodes, listed, n))
  }

  lemma CountSnoc(listed: seq<(Id, Id)>, pair: (Id, Id), owner: Id)
    ensures Count(listed + [pair], owner) == Count(listed, owner) + if pair.1 == owner then 1 else 0
  {
    assert (listed + [pair])[..|listed|] == listed;
  }

  method Latest(nodes: map<Id, NodeRow>, rest: set<Id>) returns (n: Id)
    requires rest != {}
    ensures n in rest && forall x | x in rest :: Beat(nodes, x) <= Beat(nodes, n)
  {
    n :| n in rest;
    var open := rest - {n};
    while open != {}
      invariant open <= rest && n in rest
      invariant forall x | x in rest && x !in open :: Beat(nodes, x) <= Beat(nodes, n)
      decreases open
    {
      var x :| x in open;
      if Beat(nodes, x) > Beat(nodes, n) { n := x; }
      open := open - {x};
    }
  }

  /** What the selection keeps while it goes over the healthy nodes, latest heartbeat first. */
  ghost predicate Selecting(nodes: map<Id, NodeRow>, now: int, listed: seq<(Id, Id)>, rest: set<Id>) {
    && DistinctNodes(listed) &&
      (forall i | 0 <= i < |listed| :: ListedRow(nodes, now, listed[i]) && listed[i].0 !in rest)
    && (forall owner :: Count(listed, owner) <= CAP)
    && (forall n | HealthyNode(nodes, now, n) && n !in rest :: Considered(nodes, listed, n))
    && (forall i, n | 0 <= i < |listed| && n in rest :: Beat(nodes, listed[i].0) >= Beat(nodes, n))
  }

  lemma Selects(nodes: map<Id, NodeRow>, now: int, listed: seq<(Id, Id)>, rest: set<Id>, n: Id)
    requires Selecting(nodes, now, listed, rest) && n in rest && HealthyNode(nodes, now, n)
    requires forall x | x in rest :: Beat(nodes, x) <= Beat(nodes, n)
    requires Count(listed, nodes[n].owner) < CAP
    ensures Selecting(nodes, now, listed + [(n, nodes[n].owner)], rest - {n})
  {
    var more := listed + [(n, nodes[n].owner)];
    forall owner ensures Count(more, owner) <= CAP { CountSnoc(listed, (n, nodes[n].owner), owner); }
    forall x | HealthyNode(nodes, now, x) && x !in rest - {n} ensures Considered(nodes, more, x) {
      CountSnoc(listed, (n, nodes[n].owner), nodes[x].owner);
      if x == n {
        assert more[|listed|].0 == n;
      } else if Lists(listed, x) {
        var i :| 0 <= i < |listed| && listed[i].0 == x;
        assert more[i].0 == x;
      }
    }
  }

  method HealthyNodes(nodes: map<Id, NodeRow>, now: int) returns (listed: seq<(Id, Id)>)
    ensures IsHealthyList(nodes, now, listed)
  {
    listed := [];
    var rest := set n | n in nodes && Healthy(nodes[n], now);
    while rest != {}
      invariant forall n | n in rest :: HealthyNode(nodes, now, n)
      invariant Selecting(nodes, now, listed, rest)
      decreases rest
    {
      var n := Latest(nodes, rest);
      if Count(listed, nodes[n].owner) < CAP {
        Selects(nodes, now, listed, rest, n);
        listed := listed + [(n, nodes[n].owner)];
      }
      rest := rest - {n};
    }
  }

  /** What such a list holds, in the columns of the nodes. */
  lemma HealthyListMeans(nodes: map<Id, NodeRow>, now: int, listed: seq<(Id, Id)>, n: Id)
    requires IsHealthyList(nodes, now, listed)
    ensures forall i | 0 <= i < |listed| :: listed[i].0 in nodes &&
              var row := nodes[listed[i].0];
              row.owner == listed[i].1 && row.hasOrg && row.online && row.heartbeat.Some? &&
              now - row.heartbeat.value < 3600
    ensures n in nodes && nodes[n].hasOrg && nodes[n].online && nodes[n].heartbeat.Some? &&
            now - nodes[n].heartbeat.value < 3600 && (forall i | 0 <= i < |listed| :: listed[i].0 != n) ==>
              && Count(listed, nodes[n].owner) == 5
              && forall i | 0 <= i < |listed| && listed[i].1 == nodes[n].owner ::
                   nodes[listed[i].0].heartbeat.value >= nodes[n].heartbeat.value
  {
    forall i | 0 <= i < |listed| ensures ListedRow(nodes, now, listed[i]) {}
    if n in nodes && nodes[n].hasOrg && nodes[n].online && nodes[n].heartbeat.Some? &&
       now - nodes[n].heartbeat.value < 3600 {
      assert HealthyNode(nodes, now, n);
      assert Considered(nodes, listed, n);
    }
  }

  // ---- The pass -----------------------------------------------------------------------------------------------

  function UptimeEvent(node: Id, owner: Id, points: int, day: string): Event {
    Event(owner, "operator_uptime_day", points, NoMeta, Render(UptimeKey(node, day)))
  }

  /** The pass over the healthy nodes, each with its owner. */
  function UptimePass(l: Ledger, thresholds: seq<int>, healthy: seq<(Id, Id)>, points: int, day: string): Ledger {
    if healthy == [] then l
    else
      var (node, owner) := healthy[|healthy| - 1];
      Award(UptimePass(l, thresholds, healthy[..|healthy| - 1], points, day), thresholds,
        UptimeEvent(node, owner, points, day))
  }

  /** Nothing left to pay for this node and day. */
  predicate Settled(l: Ledger, node: Id, owner: Id, day: string) {
    owner !in l.users || HasKey(l.events, Render(UptimeKey(node, day)))
  }

  lemma AwardSettles(l: Ledger, thresholds: seq<int>, node: Id, owner: Id, points: int, day: string)
    ensures Settled(Award(l, thresholds, UptimeEvent(node, owner, points, day)), node, owner, day)
  {
    HasKeySnoc(l.events, UptimeEvent(node, owner, points, day), Render(UptimeKey(node, day)));
  }

  lemma AwardKeepsSettled(l: Ledger, thresholds: seq<int>, e: Event, node: Id, owner: Id, day: string)
    requires Settled(l, node, owner, day)
    ensures Settled(Award(l, thresholds, e), node, owner, day)
  {
    HasKeySnoc(l.events, e, Render(UptimeKey(node, day)));
  }

  lemma {:induction false} PassSettles(l: Ledger, thresholds: seq<int>, healthy: seq<(Id, Id)>, points: int,
      day: string, i: nat)
    requires i < |healthy|
    ensures Settled(UptimePass(l, thresholds, healthy, points, day), healthy[i].0, healthy[i].1, day)
  {
    var before := healthy[..|healthy| - 1];
    var (node, owner) := healthy[|healthy| - 1];
    var mid := UptimePass(l, thresholds, before, points, day);
    if i == |before| {
      AwardSettles(mid, thresholds, node, owner, points, day);
    } else {
      PassSettles(l, thresholds, before, points, day, i);
      AwardKeepsSettled(mid, thresholds, UptimeEvent(node, owner, points, day), healthy[i].0, healthy[i].1, day);
    }
  }

  lemma {:induction false} SettledPassIdle(l: Ledger, thresholds: seq<int>, healthy: seq<(Id, Id)>, points: int,
      day: string)
    requires forall i | 0 <= i < |healthy| :: Settled(l, healthy[i].0, healthy[i].1, day)
    ensures UptimePass(l, thresholds, healthy, points, day) == l
  {
    if healthy != [] {
      var before := healthy[..|healthy| - 1];
      forall i | 0 <= i < |before| ensures Settled(l, before[i].0, before[i].1, day) { assert before[i] == healthy[i]; }
      SettledPassIdle(l, thresholds, before, points, day);
      var (node, owner) := healthy[|healthy| - 1];
      assert Settled(l, node, owner, day);
    }
  }

  lemma AwardPoints(l: Ledger, thresholds: seq<int>, e: Event, owner: Id)
    ensures Points(Award(l, thresholds, e).events, owner) ==
              Points(l.events, owner) + if Accepts(l, e) && e.user == owner then e.points else 0
  {
    PointsSnoc(l.events, e, owner);
  }

  /** The points for an owner's listed nodes. */
  function Worth(listed: seq<(Id, Id)>, owner: Id, points: nat): nat {
    if listed == [] then 0
    else Worth(listed[..|listed| - 1], owner, points) + if listed[|listed| - 1].1 == owner then points else 0
  }

  lemma {:induction false} WorthIsCount(listed: seq<(Id, Id)>, owner: Id, points: nat)
    ensures Worth(listed, owner, points) == Count(listed, owner) * points
  {
    if listed != [] {
      WorthIsCount(listed[..|listed| - 1], owner, points);
      OneMoreTime(Count(listed[..|listed| - 1], owner), points);
    }
  }

  lemma OneMoreTime(count: nat, points: nat)
    ensures (count + 1) * points == count * points + points
  {
  }

  /** An owner is paid at most once for each listed node. */
  lemma {:induction false} PassPaysAtMost(l: Ledger, thresholds: seq<int>, listed: seq<(Id, Id)>, points: nat,
                                          day: string, owner: Id)
    ensures Points(UptimePass(l, thresholds, listed, points, day).events, owner) <=
              Points(l.events, owner) + Worth(listed, owner, points)
  {
    if listed != [] {
      var before := listed[..|listed| - 1];
      var (n, o) := listed[|listed| - 1];
      PassPaysAtMost(l, thresholds, before, points, day, owner);
      AwardPoints(UptimePass(l, thresholds, before, points, day), thresholds, UptimeEvent(n, o, points, day), owner);
    }
  }

  /** A pass over a healthy list pays no owner more than five times, whatever was paid before. */
  lemma OwnerPaidAtMostFive(l: Ledger, thresholds: seq<int>, nodes: map<Id, NodeRow>, now: int, listed: seq<(Id, Id)>,
                            points: nat, day: string, owner: Id)
    requires IsHealthyList(nodes, now, listed)
    ensures Points(UptimePass(l, thresholds, listed, points, day).events, owner) <= Points(l.events, owner) + 5 * points
  {
    PassPaysAtMost(l, thresholds, listed, points, day, owner);
    WorthIsCount(listed, owner, points);
    assert Count(listed, owner) * points <= 5 * points by { Scales(Count(listed, owner), 5, points); }
  }

  lemma Scales(a: nat, b: nat, c: nat)
    requires a <= b
    ensures a * c <= b * c
  {
    assert b * c == a * c + (b - a) * c;
  }

  /** Somebody who exists was listed for the node. */
  predicate PaidNode(l: Ledger, listed: seq<(Id, Id)>, n: Id) {
    exists i | 0 <= i < |listed| :: listed[i].0 == n && listed[i].1 in l.users
  }

  lemma PaidNodeSnoc(l: Ledger, before: seq<(Id, Id)>, m: Id, o: Id, n: Id)
    ensures PaidNode(l, before + [(m, o)], n) <==> PaidNode(l, before, n) || (m == n && o in l.users)
  {
    var listed := before + [(m, o)];
    if PaidNode(l, before, n) {
      var i :| 0 <= i < |before| && before[i].0 == n && before[i].1 in l.users;
      assert listed[i].0 == n;
    }
    if m == n && o in l.users { assert listed[|before|].0 == n; }
  }

  /** One award of the pass. */
  lemma AwardKeyIff(l: Ledger, thresholds: seq<int>, m: Id, o: Id, points: int, day: string, n: Id)
    requires ColonFree(day)
    ensures var next := Award(l, thresholds, UptimeEvent(m, o, points, day));
            && next.users.Keys == l.users.Keys
            && (HasKey(next.events, Render(UptimeKey(n, day))) <==>
                  HasKey(l.events, Render(UptimeKey(n, day))) || (m == n && o in l.users))
  {
    KeysNeverCollide(UptimeKey(n, day), UptimeKey(m, day));
    HasKeySnoc(l.events, UptimeEvent(m, o, points, day), Render(UptimeKey(n, day)));
  }

  lemma {:induction false} PassKeyIff(l: Ledger, thresholds: seq<int>, listed: seq<(Id, Id)>, points: int, day: string,
      n: Id)
    requires ColonFree(day)
    ensures var next := UptimePass(l, thresholds, listed, points, day);
            && next.users.Keys == l.users.Keys
            && (HasKey(next.events, Render(UptimeKey(n, day))) <==>
                  HasKey(l.events, Render(UptimeKey(n, day))) || PaidNode(l, listed, n))
  {
    if listed != [] {
      var before := listed[..|listed| - 1];
      var (m, o) := listed[|listed| - 1];
      PassKeyIff(l, thresholds, before, points, day, n);
      AwardKeyIff(UptimePass(l, thresholds, before, points, day), thresholds, m, o, points, day, n);
      PaidNodeSnoc(l, before, m, o, n);
      assert listed == before + [(m, o)];
    }
  }

  /** A pass changes nothing exactly when there is nothing left to pay for any listed node. */
  lemma PassIdleIff(l: Ledger, thresholds: seq<int>, healthy: seq<(Id, Id)>, points: int, day: string)
    ensures UptimePass(l, thresholds, healthy, points, day) == l <==>
              forall i | 0 <= i < |healthy| :: Settled(l, healthy[i].0, healthy[i].1, day)
  {
    if UptimePass(l, thresholds, healthy, points, day) == l {
      forall i | 0 <= i < |healthy| ensures Settled(l, healthy[i].0, healthy[i].1, day) {
        PassSettles(l, thresholds, healthy, points, day, i);
      }
    } else if forall i | 0 <= i < |healthy| :: Settled(l, healthy[i].0, healthy[i].1, day) {
      SettledPassIdle(l, thresholds, healthy, points, day);
    }
  }

  /** Nobody can be paid for the node any more: the owner does not exist, or the node's award of the day was paid before
      or by the first pass, to whomever its organization belonged then. */
  predicate NothingDue(l: Ledger, first: seq<(Id, Id)>, node: Id, owner: Id, day: string) {
    owner !in l.users || HasKey(l.events, Render(UptimeKey(node, day))) || PaidNode(l, first, node)
  }

  /** However often the pass runs in one day, in any order and with whatever points: a later pass changes nothing if and
      only if every node it lists was paid for already, to its present owner or to another. */
  lemma UptimePassOncePerDay(l: Ledger, thresholds: seq<int>, first: seq<(Id, Id)>, again: seq<(Id, Id)>, points: int,
      points2: int, day: string)
    requires ColonFree(day)
    ensures var once := UptimePass(l, thresholds, first, points, day);
            UptimePass(once, thresholds, again, points2, day) == once <==>
              forall i | 0 <= i < |again| :: NothingDue(l, first, again[i].0, again[i].1, day)
  {
    var once := UptimePass(l, thresholds, first, points, day);
    forall i | 0 <= i < |again|
      ensures Settled(once, again[i].0, again[i].1, day) <==> NothingDue(l, first, again[i].0, again[i].1, day)
    {
      PassKeyIff(l, thresholds, first, points, day, again[i].0);
    }
    PassIdleIff(once, thresholds, again, points2, day);
  }

  /** Every event a pass adds is an uptime award of the given points. */
  lemma {:induction false} PassEvents(l: Ledger, thresholds: seq<int>, healthy: seq<(Id, Id)>, points: int, day: string,
                                      i: nat)
    ensures var events := UptimePass(l, thresholds, healthy, points, day).events;
            && |l.events| <= |events| && events[..|l.events|] == l.events
            && (|l.events| <= i < |events| ==>
                  events[i].kind == "operator_uptime_day" && events[i].points == points && events[i].meta == NoMeta)
  {
    if healthy != [] { PassEvents(l, thresholds, healthy[..|healthy| - 1], points, day, i); }
  }

  /** The cap is one of a pass, not of a day: a later pass of the same day pays a node's owner again if and only if the
      earlier pass did not pay that node, however many other nodes it paid the owner for. */
  lemma LaterPassPaysIff(l: Ledger, thresholds: seq<int>, first: seq<(Id, Id)>, points: int, day: string, n: Id,
      owner: Id)
    requires ColonFree(day) && owner in l.users && !HasKey(l.events, Render(UptimeKey(n, day)))
    ensures var once := UptimePass(l, thresholds, first, points, day);
            Points(UptimePass(once, thresholds, [(n, owner)], points, day).events, owner) ==
              Points(once.events, owner) + if PaidNode(l, first, n) then 0 else points
  {
    var once := UptimePass(l, thresholds, first, points, day);
    PassKeyIff(l, thresholds, first, points, day, n);
    assert [(n, owner)][..0] == [];
    assert UptimePass(once, thresholds, [(n, owner)], points, day) ==
           Award(UptimePass(once, thresholds, [], points, day), thresholds, UptimeEvent(n, owner, points, day));
    AwardPoints(once, thresholds, UptimeEvent(n, owner, points, day), owner);
    KeysNeverCollide(UptimeKey(n, day), UptimeKey(n, day));
  }
}
