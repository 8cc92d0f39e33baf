/** Usage rollups against daily rows, and the latest handshakes. */
module Usage {
  import opened Wrappers
  import opened Sums

  type ClientId = nat
  type NodeId = nat

  datatype Client = Client(node: NodeId, rx: int, tx: int, handshake: Option<int>)

  datatype Daily = Daily(client: ClientId, rx: int, tx: int)

  /** A node row holds its latest peer handshake. A daily row is keyed by client and day, and repeats its client. */
  datatype State = State(clients: map<ClientId, Client>, daily: map<(ClientId, int), Daily>, nodes: map<NodeId,
      Option<int>>)

  datatype Step =
    | AddNode(node: NodeId)
    | CreateClient(client: ClientId, node: NodeId)
    | DeleteClient(client: ClientId)
    | AddUsage(client: ClientId, day: int, rx: int, tx: int, handshake: int)

  function Clamp(delta: int): int { if delta < 0 then 0 else delta }

  function Later(a: Option<int>, h: int): Option<int> { if a.Some? && a.value >= h then a else Some(h) }

  function DayOf(s: State, c: ClientId, day: int): Daily {
    if (c, day) in s.daily then s.daily[(c, day)] else Daily(c, 0, 0)
  }

  function Next(s: State, step: Step): State {
    match step
    case AddNode(n) => if n in s.nodes then s else s.(nodes := s.nodes[n := None])
    case CreateClient(c, n) =>
      // Client ids are random: never one that has rows already.
      if c in s.clients || n !in s.nodes || (exists k | k in s.daily :: k.0 == c) then s
      else s.(clients := s.clients[c := Client(n, 0, 0, None)])
    case DeleteClient(c) =>
      s.(clients := s.clients - {c}, daily := map k | k in s.daily && k.0 != c :: s.daily[k])
    case AddUsage(c, day, rx, tx, handshake) =>
      if c !in s.clients then s
      else
        var row := s.clients[c];
        var d := DayOf(s, c, day);
        State(
          s.clients[c := Client(row.node, row.rx + Clamp(rx), row.tx + Clamp(tx),
                                if handshake > 0 then Some(handshake) else row.handshake)],
          s.daily[(c, day) := Daily(c, d.rx + Clamp(rx), d.tx + Clamp(tx))],
          if handshake > 0 && row.node in s.nodes then s.nodes[row.node := Later(s.nodes[row.node], handshake)]
            else s.nodes)
  }

  function Run(s: State, steps: seq<Step>): State
    decreases |steps|
  {
    if steps == [] then s else Run(Next(s, steps[0]), steps[1..])
  }

  // ---- The invariant --------------------------------------------------------------------------------------

  function RxOf(c: ClientId): Daily -> int { (d: Daily) => if d.client == c then d.rx else 0 }

  function TxOf(c: ClientId): Daily -> int { (d: Daily) => if d.client == c then d.tx else 0 }

  ghost function DailyRx(s: State, c: ClientId): int { SumBy(s.daily, RxOf(c)) }

  ghost function DailyTx(s: State, c: ClientId): int { SumBy(s.daily, TxOf(c)) }

  ghost predicate CountersBalance(s: State, c: ClientId) {
    c in s.clients ==> s.clients[c].rx == DailyRx(s, c) && s.clients[c].tx == DailyTx(s, c)
  }

  predicate AtLeast(a: Option<int>, b: Option<int>) { b.Some? ==> a.Some? && a.value >= b.value }

  predicate NodeSeesClient(s: State, c: ClientId) {
    c in s.clients ==> s.clients[c].node in s.nodes && AtLeast(s.nodes[s.clients[c].node], s.clients[c].handshake)
  }

  predicate RowOfClient(s: State, k: (ClientId, int)) { k in s.daily ==> s.daily[k].client == k.0 && k.0 in s.clients }

  ghost predicate Inv(s: State) {
    && (forall c :: CountersBalance(s, c))
    && (forall c :: NodeSeesClient(s, c))
    && (forall k :: RowOfClient(s, k))
  }

  lemma UsageMovesSums(s: State, c: ClientId, day: int, rx: int, tx: int, handshake: int, other: ClientId)
    requires Inv(s) && c in s.clients
    ensures var next := Next(s, AddUsage(c, day, rx, tx, handshake));
            && DailyRx(next, other) == DailyRx(s, other) + (if other == c && rx > 0 then rx else 0)
            && DailyTx(next, other) == DailyTx(s, other) + (if other == c && tx > 0 then tx else 0)
  {
    var d := DayOf(s, c, day);
    var row := Daily(c, d.rx + Clamp(rx), d.tx + Clamp(tx));
    assert RowOfClient(s, (c, day));
    SumUpdate(s.daily, (c, day), row, RxOf(other));
    SumUpdate(s.daily, (c, day), row, TxOf(other));
  }

  /** One report, column by column: what is negative counts as zero, the day's row is made when missing, and the node
      keeps the later handshake. */
  lemma UsageCounts(s: State, c: ClientId, day: int, rx: int, tx: int, handshake: int)
    requires c in s.clients
    ensures var next := Next(s, AddUsage(c, day, rx, tx, handshake));
            var was, row := s.clients[c], (c, day);
            var more, mtx := if rx > 0 then rx else 0, if tx > 0 then tx else 0;
            var drx := if row in s.daily then s.daily[row].rx else 0;
            var dtx := if row in s.daily then s.daily[row].tx else 0;
            && next.clients == s.clients[c := Client(was.node, was.rx + more, was.tx + mtx,
                                                     if handshake > 0 then Some(handshake) else was.handshake)]
            && next.daily == s.daily[row := Daily(c, drx + more, dtx + mtx)]
    ensures var nodes, n := Next(s, AddUsage(c, day, rx, tx, handshake)).nodes, s.clients[c].node;
            if n in s.nodes && handshake > 0 && (s.nodes[n].None? || s.nodes[n].value < handshake)
            then nodes == s.nodes[n := Some(handshake)] else nodes == s.nodes
  {
  }

  lemma {:induction false} SumWithout(daily: map<(ClientId, int), Daily>, c: ClientId, f: Daily -> int)
    requires forall k | k in daily :: daily[k].client == k.0
    requires forall d: Daily | d.client == c :: f(d) == 0
    ensures SumBy(map k | k in daily && k.0 != c :: daily[k], f) == SumBy(daily, f)
    decreases daily.Keys
  {
    var rest := map k | k in daily && k.0 != c :: daily[k];
    if daily != map[] {
      var k :| k in daily;
      SumPick(daily, k, f);
      SumWithout(daily - {k}, c, f);
      var smaller := map j | j in daily - {k} && j.0 != c :: (daily - {k})[j];
      if k.0 == c {
        assert smaller == rest;
      } else {
        SumPick(rest, k, f);
        assert smaller == rest - {k};
      }
    } else {
      assert rest == map[];
    }
  }

  lemma NewClientHasNoRows(s: State, c: ClientId)
    requires forall k | k in s.daily :: k.0 != c && RowOfClient(s, k)
    ensures DailyRx(s, c) == 0 && DailyTx(s, c) == 0
  {
    SumZero(s.daily, RxOf(c));
    SumZero(s.daily, TxOf(c));
  }

  lemma StepKeepsInv(s: State, step: Step)
    requires Inv(s)
    ensures Inv(Next(s, step))
  {
    var next := Next(s, step);
    match step
    case AddUsage(c, day, rx, tx, handshake) =>
      if c in s.clients {
        assert NodeSeesClient(s, c);
        forall o ensures CountersBalance(next, o) {
          UsageMovesSums(s, c, day, rx, tx, handshake, o);
          assert CountersBalance(s, o);
        }
        forall o ensures NodeSeesClient(next, o) { assert NodeSeesClient(s, o); }
        forall k ensures RowOfClient(next, k) { assert RowOfClient(s, k); }
      }
    case DeleteClient(c) =>
      forall k | k in s.daily ensures s.daily[k].client == k.0 { assert RowOfClient(s, k); }
      forall o ensures CountersBalance(next, o) && NodeSeesClient(next, o) {
        assert CountersBalance(s, o) && NodeSeesClient(s, o);
        if o != c {
          SumWithout(s.daily, c, RxOf(o));
          SumWithout(s.daily, c, TxOf(o));
        }
      }
      forall k ensures RowOfClient(next, k) { assert RowOfClient(s, k); }
    case CreateClient(c, n) =>
      forall k | k in s.daily ensures RowOfClient(s, k) {}
      if next != s { NewClientHasNoRows(s, c); }
      forall o ensures CountersBalance(next, o) && NodeSeesClient(next, o) {
        assert CountersBalance(s, o) && NodeSeesClient(s, o);
      }
      forall k ensures RowOfClient(next, k) { assert RowOfClient(s, k); }
    case AddNode(_) =>
      forall o ensures CountersBalance(next, o) && NodeSeesClient(next, o) {
        assert CountersBalance(s, o) && NodeSeesClient(s, o);
      }
      forall k ensures RowOfClient(next, k) { assert RowOfClient(s, k); }
  }

  /** In every run each client's cumulative counters are the sums of its daily rows, and its node's latest handshake
      is no earlier than its own. */
  lemma {:induction false} RollupsBalance(s: State, steps: seq<Step>)
    requires Inv(s)
    ensures Inv(Run(s, steps))
    decreases |steps|
  {
    if steps != [] {
      StepKeepsInv(s, steps[0]);
      RollupsBalance(Next(s, steps[0]), steps[1..]);
    }
  }

  /** The latest handshake reported for a client of the node while the steps ran. */
  function Reported(s: State, steps: seq<Step>, n: NodeId, sofar: Option<int>): Option<int>
    decreases |steps|
  {
    if steps == [] then sofar
    else
      var step := steps[0];
      var counts := step.AddUsage? && step.handshake > 0 && step.client in s.clients &&
        s.clients[step.client].node == n;
      Reported(Next(s, step), steps[1..], n, if counts then Later(sofar, step.handshake) else sofar)
  }

  /** A node's handshake is exactly the latest one ever reported for a client it had at that time: it survives the
      client's deletion, and it does not follow a client whose own handshake goes back. */
  lemma {:induction false} NodeHandshakeIsLatestReport(s: State, steps: seq<Step>, n: NodeId)
    requires n in s.nodes
    ensures n in Run(s, steps).nodes && Run(s, steps).nodes[n] == Reported(s, steps, n, s.nodes[n])
    decreases |steps|
  {
    if steps != [] { NodeHandshakeIsLatestReport(Next(s, steps[0]), steps[1..], n); }
  }

  class UsageStore {
    var clients: map<ClientId, Client>
    var daily: map<(ClientId, int), Daily>
    var nodes: map<NodeId, Option<int>>

    function View(): State
      reads this
    {
      State(clients, daily, nodes)
    }

    constructor ()
      ensures View() == State(map[], map[], map[]) && Inv(View())
    {
      clients, daily, nodes := map[], map[], map[];
      new;
      forall c ensures CountersBalance(View(), c) && NodeSeesClient(View(), c) {}
    }

    /** One usage report: negative deltas count as zero, an unknown client is ignored. */
    method AddUsage(c: ClientId, day: int, rxDelta: int, txDelta: int, lastHandshake: int)
      requires Inv(View())
      modifies this
      ensures Inv(View()) && View() == Next(old(View()), Step.AddUsage(c, day, rxDelta, txDelta, lastHandshake))
      ensures c !in old(clients) ==> View() == old(View())
    {
      StepKeepsInv(View(), Step.AddUsage(c, day, rxDelta, txDelta, lastHandshake));
      var rx, tx := rxDelta, txDelta;
      if rx < 0 { rx := 0; }
      if tx < 0 { tx := 0; }
      if c !in clients { return; }
      var row := clients[c];
      clients := clients[c := Client(row.node, row.rx + rx, row.tx + tx, if lastHandshake > 0 then Some(lastHandshake)
        else row.handshake)];
      var d := if (c, day) in daily then daily[(c, day)] else Daily(c, 0, 0);
      daily := daily[(c, day) := Daily(c, d.rx + rx, d.tx + tx)];
      if lastHandshake > 0 && row.node in nodes {
        if nodes[row.node].None? || nodes[row.node].value < lastHandshake {
          nodes := nodes[row.node := Some(lastHandshake)];
        }
      }
      assert View() == Next(old(View()), Step.AddUsage(c, day, rxDelta, txDelta, lastHandshake));
    }
  }
}
