/** The node hub: connections and their cached region counters. */
module Hub {
  import opened Texts

  type Peer = nat

  datatype Region = Sg | In | Eu | Us | UnknownRegion

  /** A connection's region field starts empty; later it holds a normalised region. */
  datatype Slot = Unset | Set(region: Region)

  function NormalizeRegion(raw: string): Region {
    match ToLower(TrimSpace(raw))
    case "sg" => Sg
    case "in" => In
    case "eu" => Eu
    case "us" => Us
    case _ => UnknownRegion
  }

  function Norm(slot: Slot): Region {
    match slot
    case Unset => UnknownRegion
    case Set(r) => r
  }

  // ---- The registry and its cache as values ---------------------------------------------------------

  datatype HubState = HubState(slots: map<Peer, Slot>, counts: map<Region, int>)

  function CountAt(counts: map<Region, int>, r: Region): int { if r in counts then counts[r] else 0 }

  /** A counter that would not stay positive is removed. */
  function Adjust(counts: map<Region, int>, r: Region, delta: int): map<Region, int> {
    var n := CountAt(counts, r) + delta;
    if n <= 0 then counts - {r} else counts[r := n]
  }

  function Moved(counts: map<Region, int>, slot: Slot, r: Region): map<Region, int> {
    Adjust(Adjust(counts, Norm(slot), -1), r, 1)
  }

  datatype Step =
    | Connect(p: Peer)
    | SetRegion(p: Peer, raw: string)
    | Disconnect(p: Peer)
    | StaleDisconnect
    | StaleSetRegion(own: Slot, raw: string)

  function Next(s: HubState, step: Step): HubState {
    match step
    case Connect(p) =>
      var counts := if p in s.slots then Adjust(s.counts, Norm(s.slots[p]), -1) else s.counts;
      HubState(s.slots[p := Unset], Adjust(counts, UnknownRegion, 1))
    case SetRegion(p, raw) =>
      if p !in s.slots || s.slots[p] == Set(NormalizeRegion(raw)) then s
      else HubState(s.slots[p := Set(NormalizeRegion(raw))], Moved(s.counts, s.slots[p], NormalizeRegion(raw)))
    case Disconnect(p) =>
      if p !in s.slots then s else HubState(s.slots - {p}, Adjust(s.counts, Norm(s.slots[p]), -1))
    case StaleDisconnect => s
    case StaleSetRegion(own, raw) =>
      // A replaced connection still moves the counters, although its own slot is no longer registered.
      if own == Set(NormalizeRegion(raw)) then s else s.(counts := Moved(s.counts, own, NormalizeRegion(raw)))
  }

  ghost function PeersIn(slots: map<Peer, Slot>, r: Region): set<Peer> {
    set p | p in slots && Norm(slots[p]) == r
  }

  /** The cache equals a recount, without zero entries. */
  ghost predicate Recounted(s: HubState) {
    && (forall r :: CountAt(s.counts, r) == |PeersIn(s.slots, r)|)
    && (forall r | r in s.counts :: s.counts[r] > 0)
  }

  lemma PeersAfterWrite(slots: map<Peer, Slot>, p: Peer, slot: Slot, r: Region)
    ensures |PeersIn(slots[p := slot], r)| ==
              |PeersIn(slots, r)| - (if p in slots && Norm(slots[p]) == r then 1 else 0) +
                (if Norm(slot) == r then 1 else 0)
  {
    var rest := PeersIn(slots, r) - {p};
    assert PeersIn(slots[p := slot], r) == if Norm(slot) == r then rest + {p} else rest;
    assert PeersIn(slots, r) == if p in slots && Norm(slots[p]) == r then rest + {p} else rest;
  }

  lemma PeersAfterRemoval(slots: map<Peer, Slot>, p: Peer, r: Region)
    requires p in slots
    ensures |PeersIn(slots - {p}, r)| == |PeersIn(slots, r)| - if Norm(slots[p]) == r then 1 else 0
  {
    var rest := PeersIn(slots, r) - {p};
    assert PeersIn(slots - {p}, r) == rest;
    assert PeersIn(slots, r) == if Norm(slots[p]) == r then rest + {p} else rest;
  }

  lemma RegisteredCounted(s: HubState, p: Peer)
    requires Recounted(s) && p in s.slots
    ensures CountAt(s.counts, Norm(s.slots[p])) > 0
  {
    assert p in PeersIn(s.slots, Norm(s.slots[p]));
  }

  lemma StepRecounted(s: HubState, step: Step)
    requires Recounted(s) && !step.StaleSetRegion?
    ensures Recounted(Next(s, step))
  {
    var next := Next(s, step);
    match step
    case StaleDisconnect =>
    case Disconnect(p) =>
      if p in s.slots {
        RegisteredCounted(s, p);
        forall r ensures CountAt(next.counts, r) == |PeersIn(next.slots, r)| { PeersAfterRemoval(s.slots, p, r); }
      }
    case Connect(p) =>
      if p in s.slots { RegisteredCounted(s, p); }
      forall r ensures CountAt(next.counts, r) == |PeersIn(next.slots, r)| { PeersAfterWrite(s.slots, p, Unset, r); }
    case SetRegion(p, raw) =>
      if next != s {
        RegisteredCounted(s, p);
        forall r ensures CountAt(next.counts, r) == |PeersIn(next.slots, r)| {
          PeersAfterWrite(s.slots, p, Set(NormalizeRegion(raw)), r);
        }
      }
  }

  function Run(s: HubState, steps: seq<Step>): HubState
    decreases |steps|
  {
    if steps == [] then s else Run(Next(s, steps[0]), steps[1..])
  }

  lemma {:induction false} RunRecounted(s: HubState, steps: seq<Step>)
    requires Recounted(s) && forall i | 0 <= i < |steps| :: !steps[i].StaleSetRegion?
    ensures Recounted(Run(s, steps))
    decreases |steps|
  {
    if steps != [] {
      StepRecounted(s, steps[0]);
      assert forall i | 0 <= i < |steps[1..]| :: steps[1..][i] == steps[i + 1];
      RunRecounted(Next(s, steps[0]), steps[1..]);
    }
  }

  lemma SizesAdd(a: set<Peer>, b: set<Peer>)
    requires a !! b
    ensures |a + b| == |a| + |b|
  {
  }

  lemma RegionsPartition(slots: map<Peer, Slot>)
    ensures slots.Keys == PeersIn(slots, Sg) + PeersIn(slots, In) + PeersIn(slots, Eu) + PeersIn(slots, Us) +
                          PeersIn(slots, UnknownRegion)
  {
  }

  lemma CountsSumToOnline(s: HubState)
    requires Recounted(s)
    ensures CountAt(s.counts, Sg) + CountAt(s.counts, In) + CountAt(s.counts, Eu) + CountAt(s.counts, Us) +
            CountAt(s.counts, UnknownRegion) == |s.slots|
  {
    var a, b, c, d, e := PeersIn(s.slots, Sg), PeersIn(s.slots, In), PeersIn(s.slots, Eu), PeersIn(s.slots, Us),
                         PeersIn(s.slots, UnknownRegion);
    SizesAdd(a, b);
    SizesAdd(a + b, c);
    SizesAdd(a + b + c, d);
    SizesAdd(a + b + c + d, e);
    RegionsPartition(s.slots);
  }

  /** In every run the cached counters add up to the number of connected nodes. */
  lemma ReachableCounts(steps: seq<Step>)
    requires forall i | 0 <= i < |steps| :: !steps[i].StaleSetRegion?
    ensures var s := Run(HubState(map[], map[]), steps);
            && Recounted(s)
            && CountAt(s.counts, Sg) + CountAt(s.counts, In) + CountAt(s.counts, Eu) + CountAt(s.counts, Us) +
               CountAt(s.counts, UnknownRegion) == |s.slots|
  {
    var s0 := HubState(map[], map[]);
    assert forall r :: PeersIn(s0.slots, r) == {};
    RunRecounted(s0, steps);
    CountsSumToOnline(Run(s0, steps));
  }

  /** A region report by a replaced connection keeps the cache right exactly when it changes nothing, or only
      re-files an unset region as unknown while some other node is counted there. */
  lemma StaleSetRegionKeepsIff(s: HubState, own: Slot, raw: string)
    requires Recounted(s)
    ensures Recounted(Next(s, StaleSetRegion(own, raw))) <==>
              own == Set(NormalizeRegion(raw)) ||
              (own == Unset && NormalizeRegion(raw) == UnknownRegion && UnknownRegion in s.counts)
  {
    var next := Next(s, StaleSetRegion(own, raw));
    var r := NormalizeRegion(raw);
    if own != Set(r) {
      if Norm(own) != r {
        assert CountAt(next.counts, r) == CountAt(s.counts, r) + 1;
      } else {
        assert CountAt(next.counts, r) == if r in s.counts then s.counts[r] else 1;
        if r in s.counts { assert next.counts == s.counts; }
      }
      if Recounted(next) {
        assert CountAt(next.counts, r) == |PeersIn(next.slots, r)|;
      }
    }
  }

  /** A node connects, connects again, and its first connection reports a region: one node is online, and it is
      counted in no region at all while the reported one counts it. */
  lemma StaleReportSpoilsCache(p: Peer)
    ensures var s := Run(HubState(map[], map[]), [Connect(p), Connect(p), StaleSetRegion(Unset, "eu")]);
            && s.slots == map[p := Unset] && s.counts == map[Eu := 1] && !Recounted(s)
  {
    var s0 := HubState(map[], map[]);
    var steps := [Connect(p), Connect(p), StaleSetRegion(Unset, "eu")];
    assert NormalizeRegion("eu") == Eu by { EuIsNormal(); }
    assert steps[1..] == [Connect(p), StaleSetRegion(Unset, "eu")];
    assert steps[1..][1..] == [StaleSetRegion(Unset, "eu")];
    assert steps[1..][1..][1..] == [];
    var s1 := Next(s0, Connect(p));
    assert s1 == HubState(map[p := Unset], map[UnknownRegion := 1]);
    var s2 := Next(s1, Connect(p));
    assert s2 == s1;
    var s3 := Next(s2, StaleSetRegion(Unset, "eu"));
    assert s3.counts == map[Eu := 1];
    assert Run(s0, steps) == Run(s1, steps[1..]) == Run(s2, steps[1..][1..]) == Run(s3, []);
    assert p in PeersIn(s3.slots, UnknownRegion);
    assert CountAt(s3.counts, UnknownRegion) == 0;
  }

  lemma EuIsNormal()
    ensures NormalizeRegion("eu") == Eu
  {
    assert TrimSpace("eu") == "eu";
    assert ToLower("eu") == "eu";
  }

  // ---- Regions as nodes report them ---------------------------------------------------------------------------

  /** A report is read as a region when it is its two letters, in any case and with blanks around. */
  lemma RegionsRead(before: string, text: string, after: string)
    requires Blank(before) && Blank(after)
    ensures var region := NormalizeRegion(before + text + after);
            && (SameWord(text, "sg") ==> region == Sg) && (SameWord(text, "in") ==> region == In)
            && (SameWord(text, "eu") ==> region == Eu) && (SameWord(text, "us") ==> region == Us)
  {
    LowerWord("sg");
    LowerWord("in");
    LowerWord("eu");
    LowerWord("us");
    if SameWord(text, "sg") { ReadAlike(before, text, after, "sg"); }
    if SameWord(text, "in") { ReadAlike(before, text, after, "in"); }
    if SameWord(text, "eu") { ReadAlike(before, text, after, "eu"); }
    if SameWord(text, "us") { ReadAlike(before, text, after, "us"); }
  }

  /** Every other text, and none, is the unknown region. */
  lemma OtherRegionsUnknown(raw: string)
    requires var s := TrimSpace(raw);
             !SameWord(s, "sg") && !SameWord(s, "in") && !SameWord(s, "eu") && !SameWord(s, "us")
    ensures NormalizeRegion(raw) == UnknownRegion
  {
    ReadOther(raw, "sg");
    ReadOther(raw, "in");
    ReadOther(raw, "eu");
    ReadOther(raw, "us");
  }

  // ---- The hub itself ------------------------------------------------------------------------------

  class Conn {
    const peer: Peer
    var region: Slot

    constructor (peer: Peer)
      ensures this.peer == peer && region == Unset
    {
      this.peer := peer;
      region := Unset;
    }
  }

  class NodeHub {
    var conns: map<Peer, Conn>
    var regionCounts: map<Region, int>

    function View(): HubState
      reads this, conns.Values
    {
      HubState(map p | p in conns :: conns[p].region, regionCounts)
    }

    /** The cache equals a recount of the registered connections. */
    ghost predicate Valid()
      reads this, conns.Values
    {
      (forall p | p in conns :: conns[p].peer == p) && Recounted(View())
    }

    predicate Registered(c: Conn)
      reads this
    {
      c.peer in conns && conns[c.peer] == c
    }

    constructor ()
      ensures Valid() && conns == map[]
    {
      conns, regionCounts := map[], map[];
      new;
      assert forall r :: PeersIn(View().slots, r) == {};
    }

    method Online() returns (n: nat)
      requires Valid()
      ensures n == |conns|
      ensures n == CountAt(regionCounts, Sg) + CountAt(regionCounts, In) + CountAt(regionCounts, Eu) +
                   CountAt(regionCounts, Us) + CountAt(regionCounts, UnknownRegion)
    {
      CountsSumToOnline(View());
      assert View().slots.Keys == conns.Keys;
      n := |conns|;
    }

    method AdjustRegionLocked(r: Region, delta: int)
      modifies this`regionCounts
      ensures regionCounts == Adjust(old(regionCounts), r, delta)
    {
      var n := (if r in regionCounts then regionCounts[r] else 0) + delta;
      regionCounts := regionCounts[r := n];
      if regionCounts[r] <= 0 {
        regionCounts := regionCounts - {r};
      }
      assert n <= 0 ==> regionCounts == old(regionCounts) - {r};
    }

    /** A new connection takes the peer's place, whatever held it before. */
    method Connect(peer: Peer) returns (c: Conn)
      requires Valid()
      modifies this
      ensures Valid() && fresh(c) && c.peer == peer && Registered(c)
      ensures conns == old(conns)[peer := c] && View() == Next(old(View()), Step.Connect(peer))
    {
      StepRecounted(View(), Step.Connect(peer));
      c := new Conn(peer);
      if peer in conns {
        AdjustRegionLocked(Norm(conns[peer].region), -1);
      }
      conns := conns[peer := c];
      AdjustRegionLocked(UnknownRegion, 1);
      assert View().slots == old(View()).slots[peer := Unset];
    }

    /** When a connection ends it leaves the registry only if it is still the registered one. */
    method Disconnect(c: Conn)
      requires Valid()
      modifies this
      ensures Valid()
      ensures View() == Next(old(View()), if old(Registered(c)) then Step.Disconnect(c.peer) else StaleDisconnect)
      ensures conns == if old(Registered(c)) then old(conns) - {c.peer} else old(conns)
    {
      StepRecounted(View(), Step.Disconnect(c.peer));
      if c.peer in conns && conns[c.peer] == c {
        AdjustRegionLocked(Norm(c.region), -1);
        conns := conns - {c.peer};
        assert View().slots == old(View()).slots - {c.peer};
      }
    }

    /** The region a connection reports, registered or not: a replaced one still moves the counters. */
    method SetRegion(c: Conn, raw: string)
      requires Valid()
      modifies this`regionCounts, c
      ensures conns == old(conns) && c.region == Set(NormalizeRegion(raw))
      ensures old(Registered(c)) ==> Valid() && View() == Next(old(View()), Step.SetRegion(c.peer, raw))
      ensures !old(Registered(c)) ==>
                && View() == Next(old(View()), StaleSetRegion(old(c.region), raw))
                && (Valid() <==>
                      old(c.region) == Set(NormalizeRegion(raw)) ||
                      (old(c.region) == Unset && NormalizeRegion(raw) == UnknownRegion &&
                       UnknownRegion in old(regionCounts)))
    {
      StepRecounted(View(), Step.SetRegion(c.peer, raw));
      StaleSetRegionKeepsIff(View(), c.region, raw);
      var r := NormalizeRegion(raw);
      if c.region == Set(r) {
        return;
      }
      AdjustRegionLocked(Norm(c.region), -1);
      c.region := Set(r);
      AdjustRegionLocked(r, 1);
      if old(Registered(c)) {
        assert View().slots == old(View()).slots[c.peer := Set(r)];
      } else {
        assert View().slots == old(View()).slots;
      }
    }
  }
}
