/** Plan provisioning of one organization: managed nodes, their services, and the Sentinel licences they use.
    Every store call may fail, and the first failure ends the run. */
module Provisioning {
  import opened Wrappers

  type NodeId = nat

  datatype Profile = ShieldProfile | SentinelProfile | OtherProfile

  datatype Node = Node(id: NodeId, profile: Profile, managed: bool)

  datatype ServiceType = Vpn | Shield | Sentinel

  /** Name, provider and visibility: the provisioner's own, or something an operator changed. */
  datatype Terms = Standard | Custom(text: string)

  datatype Status = Active | Disabled | OtherStatus(name: string)

  /** The licence of a service is the position of its row among the organization's licences. */
  datatype Service = Service(terms: Terms, status: Status, licence: Option<nat>)

  datatype Licence = Available | Attached(node: NodeId) | OtherLicence

  /** Nodes and licences in order of creation. */
  datatype Org = Org(nodes: seq<Node>, services: map<(NodeId, ServiceType), Service>, licences: seq<Licence>,
      included: int)

  /** How many store calls still succeed before one fails. */
  datatype Calls = NeverFail | FailAfter(n: nat)

  datatype Outcome = Outcome(org: Org, calls: Calls, ok: bool)

  predicate Fails(c: Calls) { c == FailAfter(0) }

  function Tick(c: Calls): Calls
    requires !Fails(c)
  {
    if c.NeverFail? then c else FailAfter(c.n - 1)
  }

  function Max(a: int, b: int): int { if a >= b then a else b }

  predicate HasNode(org: Org, n: NodeId) { exists i | 0 <= i < |org.nodes| :: org.nodes[i].id == n }

  /** A Sentinel service that is not disabled: the provisioner leaves it alone. */
  predicate Live(org: Org, n: NodeId) {
    (n, Sentinel) in org.services && org.services[(n, Sentinel)].status != Disabled
  }

  // ---- The store calls ----------------------------------------------------------------------------------

  /** Insert or update: the provisioner's terms, active again, and an existing licence kept unless a new one comes. */
  function WithService(org: Org, n: NodeId, t: ServiceType, licence: Option<nat>): Org {
    var kept := if licence.Some? then licence else if (n, t) in org.services then org.services[(n, t)].licence
      else None;
    org.(services := org.services[(n, t) := Service(Standard, Active, kept)])
  }

  function AttachService(org: Org, n: NodeId, t: ServiceType, licence: Option<nat>, c: Calls): Outcome {
    if Fails(c) then Outcome(org, c, false)
    else if !HasNode(org, n) then Outcome(org, Tick(c), false)
    else Outcome(WithService(org, n, t, licence), Tick(c), true)
  }

  /** The first available licence, or the number of licences. */
  function FirstAvailable(licences: seq<Licence>): (i: nat)
    ensures i <= |licences|
    ensures i < |licences| ==> licences[i] == Available
    ensures forall j | 0 <= j < i :: licences[j] != Available
  {
    if licences == [] || licences[0] == Available then 0 else 1 + FirstAvailable(licences[1..])
  }

  function WithLicence(org: Org, n: NodeId, i: nat): Org
    requires i < |org.licences|
  {
    org.(licences := org.licences[i := Attached(n)])
  }

  function AttachSentinel(org: Org, n: NodeId, c: Calls): Outcome {
    if Fails(c) then Outcome(org, c, false)
    else if Live(org, n) then Outcome(org, Tick(c), true)
    else if Fails(Tick(c)) then Outcome(org, Tick(c), false)
    else
      var i := FirstAvailable(org.licences);
      if i == |org.licences| then Outcome(org, Tick(Tick(c)), false)
      else AttachService(WithLicence(org, n, i), n, Sentinel, Some(i), Tick(Tick(c)))
  }

  function SetUp(org: Org, n: NodeId, c: Calls): Outcome {
    var vpn := AttachService(org, n, Vpn, None, c);
    if vpn.ok then AttachSentinel(vpn.org, n, vpn.calls) else vpn
  }

  function WithNode(org: Org, n: NodeId, profile: Profile): Org { org.(nodes := org.nodes + [Node(n, profile, true)]) }

  function SetUpNew(org: Org, n: NodeId, c: Calls): Outcome {
    if Fails(c) then Outcome(org, c, false) else SetUp(WithNode(org, n, SentinelProfile), n, Tick(c))
  }

  function NewNodes(org: Org, ids: seq<NodeId>, c: Calls): Outcome
    decreases |ids|
  {
    if ids == [] then Outcome(org, c, true)
    else
      var first := SetUpNew(org, ids[0], c);
      if first.ok then NewNodes(first.org, ids[1..], first.calls) else first
  }

  function ExistingNodes(org: Org, ids: seq<NodeId>, c: Calls): Outcome
    decreases |ids|
  {
    if ids == [] then Outcome(org, c, true)
    else
      var first := SetUp(org, ids[0], c);
      if first.ok then ExistingNodes(first.org, ids[1..], first.calls) else first
  }

  function CreateLicences(org: Org, count: int, c: Calls): Outcome
    decreases count
  {
    if count <= 0 then Outcome(org, c, true)
    else if Fails(c) then Outcome(org, c, false)
    else CreateLicences(MoreLicences(org), count - 1, Tick(c))
  }

  /** Two reads, then the missing licences. */
  function EnsureLicences(org: Org, c: Calls): Outcome {
    if Fails(c) then Outcome(org, c, false)
    else if Fails(Tick(c)) then Outcome(org, Tick(c), false)
    else CreateLicences(org, org.included - |org.licences|, Tick(Tick(c)))
  }

  predicate Managed(node: Node, profile: Profile) { node.managed && node.profile == profile }

  function ManagedIds(nodes: seq<Node>, profile: Profile): seq<NodeId> {
    if nodes == [] then []
    else ManagedIds(nodes[..|nodes| - 1], profile) +
         if Managed(nodes[|nodes| - 1], profile) then [nodes[|nodes| - 1].id] else []
  }

  /** The managed nodes are listed, new ones are made up to three, and then the listed ones are gone over. */
  function ThreeNodes(org: Org, ids: seq<NodeId>, c: Calls): Outcome
    requires |ids| == 3
  {
    if Fails(c) then Outcome(org, c, false)
    else
      var existing := ManagedIds(org.nodes, SentinelProfile);
      var grown := NewNodes(org, Needed(existing, ids), Tick(c));
      if grown.ok then ExistingNodes(grown.org, existing, grown.calls) else grown
  }

  function Needed(existing: seq<NodeId>, ids: seq<NodeId>): seq<NodeId>
    requires |ids| == 3
  {
    ids[..Max(0, 3 - |existing|)]
  }

  /** The whole run for the business plan: licences, three nodes, their services. The ids of new nodes come from a
      random source; ids holds them in order. */
  function Business(org: Org, ids: seq<NodeId>, c: Calls): Outcome
    requires |ids| == 3
  {
    var topped := EnsureLicences(org, c);
    if topped.ok then ThreeNodes(topped.org, ids, topped.calls) else topped
  }

  /** Random ids: new, and all different. */
  predicate FreshIds(org: Org, ids: seq<NodeId>) {
    && (forall i | 0 <= i < |ids| :: !HasNode(org, ids[i]))
    && (forall i, j | 0 <= i < j < |ids| :: ids[i] != ids[j])
  }

  predicate DistinctIds(nodes: seq<Node>) { forall i, j | 0 <= i < j < |nodes| :: nodes[i].id != nodes[j].id }

  predicate ServicePlaced(org: Org, n: NodeId, t: ServiceType) { (n, t) in org.services ==> HasNode(org, n) }

  /** A licence named by a service is attached to that service's node. */
  predicate LicenceLinked(org: Org, n: NodeId) {
    (n, Sentinel) in org.services && org.services[(n, Sentinel)].licence.Some? ==>
      var l := org.services[(n, Sentinel)].licence.value;
      l < |org.licences| && org.licences[l] == Attached(n)
  }

  ghost predicate WellFormed(org: Org) {
    && DistinctIds(org.nodes)
    && (forall n, t :: ServicePlaced(org, n, t))
    && (forall n :: LicenceLinked(org, n))
  }

  // ---- The balance of nodes and licences -----------------------------------------------------------------

  predicate Lacks(org: Org, i: int) {
    0 <= i < |org.nodes| && Managed(org.nodes[i], SentinelProfile) && !Live(org, org.nodes[i].id)
  }

  function LackingSet(org: Org): set<int> { set i | 0 <= i < |org.nodes| && Lacks(org, i) }

  function AvailableSet(licences: seq<Licence>): set<int> { set i | 0 <= i < |licences| && licences[i] == Available }

  /** Nodes that will still need a licence, less the licences that will be there for them. */
  function Deficit(org: Org): int {
    |LackingSet(org)| + Max(0, 3 - |ManagedIds(org.nodes, SentinelProfile)|)
    - |AvailableSet(org.licences)| - Max(0, org.included - |org.licences|)
  }

  lemma AvailableSnoc(licences: seq<Licence>)
    ensures |AvailableSet(licences + [Available])| == |AvailableSet(licences)| + 1
  {
    var more := licences + [Available];
    forall i ensures i in AvailableSet(more) <==> i in AvailableSet(licences) || i == |licences| {
      assert 0 <= i < |licences| ==> more[i] == licences[i];
    }
    assert AvailableSet(more) == AvailableSet(licences) + {|licences|};
  }

  function MoreLicences(org: Org): Org { org.(licences := org.licences + [Available]) }

  lemma TopUpKeepsDeficit(org: Org)
    requires |org.licences| < org.included
    ensures Deficit(MoreLicences(org)) == Deficit(org)
  {
    AvailableSnoc(org.licences);
    assert forall i :: Lacks(MoreLicences(org), i) <==> Lacks(org, i);
    assert LackingSet(MoreLicences(org)) == LackingSet(org);
  }

  lemma ManagedIdsSnoc(nodes: seq<Node>, node: Node, profile: Profile)
    ensures ManagedIds(nodes + [node], profile) ==
            ManagedIds(nodes, profile) + if Managed(node, profile) then [node.id] else []
  {
    assert (nodes + [node])[..|nodes|] == nodes;
  }

  lemma NewNodeKeepsDeficit(org: Org, n: NodeId)
    requires WellFormed(org) && !HasNode(org, n) && |ManagedIds(org.nodes, SentinelProfile)| < 3
    ensures Deficit(WithNode(org, n, SentinelProfile)) == Deficit(org)
  {
    var more := WithNode(org, n, SentinelProfile);
    ManagedIdsSnoc(org.nodes, Node(n, SentinelProfile, true), SentinelProfile);
    assert ServicePlaced(org, n, Sentinel);
    assert LackingSet(more) == LackingSet(org) + {|org.nodes|};
  }

  lemma LicenceRaisesDeficit(org: Org, n: NodeId, i: nat)
    requires i < |org.licences| && org.licences[i] == Available
    ensures Deficit(WithLicence(org, n, i)) == Deficit(org) + 1
  {
    assert AvailableSet(org.licences) == AvailableSet(org.licences[i := Attached(n)]) + {i};
    assert LackingSet(WithLicence(org, n, i)) == LackingSet(org);
  }

  lemma ServiceLowersDeficit(org: Org, k: nat, licence: Option<nat>)
    requires DistinctIds(org.nodes) && Lacks(org, k)
    ensures Deficit(WithService(org, org.nodes[k].id, Sentinel, licence)) == Deficit(org) - 1
  {
    var after := WithService(org, org.nodes[k].id, Sentinel, licence);
    assert LackingSet(org) == LackingSet(after) + {k};
  }

  lemma VpnKeepsDeficit(org: Org, n: NodeId)
    ensures Deficit(WithService(org, n, Vpn, None)) == Deficit(org)
  {
    assert LackingSet(WithService(org, n, Vpn, None)) == LackingSet(org);
  }
}
