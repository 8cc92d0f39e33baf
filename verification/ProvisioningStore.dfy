/** The provisioning routines as they update the organization's tables, call by call: each one is proved equal to its
    specification, whatever call fails on the way. */
module ProvisioningStore {
  import opened Wrappers
  import opened Provisioning
  import opened BusinessPlan
  import opened ProPlan

  class OrgStore {
    var nodes: seq<Node>
    var services: map<(NodeId, ServiceType), Service>
    var licences: seq<Licence>
    const included: int
    var calls: Calls

    function View(): Org
      reads this
    {
      Org(nodes, services, licences, included)
    }

    constructor (included: int, calls: Calls)
      ensures View() == Org([], map[], [], included) && this.calls == calls
    {
      nodes, services, licences := [], map[], [];
      this.included, this.calls := included, calls;
    }

    /** One store call: false when it fails. */
    method Call() returns (ok: bool)
      modifies this`calls
      ensures ok <==> !Fails(old(calls))
      ensures calls == if ok then Tick(old(calls)) else old(calls)
    {
      match calls
      case NeverFail => ok := true;
      case FailAfter(n) =>
        ok := n > 0;
        if ok { calls := FailAfter(n - 1); }
    }

    method AttachServiceToNode(n: NodeId, t: ServiceType, licence: Option<nat>) returns (ok: bool)
      modifies this
      ensures Outcome(View(), calls, ok) == AttachService(old(View()), n, t, licence, old(calls))
    {
      ok := Call();
      if !ok { return; }
      if !exists i | 0 <= i < |nodes| :: nodes[i].id == n { return false; }
      var kept := licence;
      if licence.None? && (n, t) in services {
        kept := services[(n, t)].licence;
      }
      services := services[(n, t) := Service(Standard, Active, kept)];
    }

    /** The oldest available licence goes to the node; without one, nothing changes. */
    method AttachSentinelLicense(n: NodeId) returns (ok: bool, licence: nat)
      modifies this
      ensures nodes == old(nodes) && services == old(services)
      ensures ok <==> !Fails(old(calls)) && Available in old(licences)
      ensures ok ==> licence == FirstAvailable(old(licences)) < |old(licences)|
      ensures ok ==> licences == old(licences)[licence := Attached(n)]
      ensures !ok ==> licences == old(licences)
      ensures calls == if Fails(old(calls)) then old(calls) else Tick(old(calls))
    {
      licence := 0;
      ok := Call();
      if !ok { return; }
      while licence < |licences| && licences[licence] != Available
        invariant 0 <= licence <= |licences|
        invariant forall j | 0 <= j < licence :: licences[j] != Available
      {
        licence := licence + 1;
      }
      if licence == |licences| { return false, licence; }
      licences := licences[licence := Attached(n)];
    }

    method AttachSentinelService(n: NodeId) returns (ok: bool)
      modifies this
      ensures Outcome(View(), calls, ok) == AttachSentinel(old(View()), n, old(calls))
      ensures (n, Sentinel) in old(services) && old(services)[(n, Sentinel)].status != Disabled ==>
                View() == old(View())
      ensures ok && !((n, Sentinel) in old(services) && old(services)[(n, Sentinel)].status != Disabled) ==>
                exists i | 0 <= i < |old(licences)| ::
                  && old(licences)[i] == Available && (forall j | 0 <= j < i :: old(licences)[j] != Available)
                  && licences == old(licences)[i := Attached(n)]
                  && services == old(services)[(n, Sentinel) := Service(Standard, Active, Some(i))]
    {
      ok := Call();
      if !ok || ((n, Sentinel) in services && services[(n, Sentinel)].status != Disabled) { return; }
      var licence: nat;
      ok, licence := AttachSentinelLicense(n);
      if !ok { return; }
      ok := AttachServiceToNode(n, Sentinel, Some(licence));
    }

    method SetUpNode(n: NodeId) returns (ok: bool)
      modifies this
      ensures Outcome(View(), calls, ok) == SetUp(old(View()), n, old(calls))
    {
      ok := AttachServiceToNode(n, Vpn, None);
      if ok { ok := AttachSentinelService(n); }
    }

    method ReserveManagedNode(n: NodeId, profile: Profile) returns (ok: bool)
      modifies this
      ensures ok <==> !Fails(old(calls))
      ensures View() == if ok then WithNode(old(View()), n, profile) else old(View())
      ensures calls == if ok then Tick(old(calls)) else old(calls)
    {
      ok := Call();
      if ok { nodes := nodes + [Node(n, profile, true)]; }
    }

    method ListManagedNodesByProfile(profile: Profile) returns (ids: seq<NodeId>)
      ensures ids == ManagedIds(nodes, profile)
      ensures forall n :: n in ids <==> OwnsManaged(nodes, n, profile)
    {
      ids := [];
      for i := 0 to |nodes|
        invariant ids == ManagedIds(nodes[..i], profile)
      {
        ManagedIdsSnoc(nodes[..i], nodes[i], profile);
        assert nodes[..i + 1] == nodes[..i] + [nodes[i]];
        if nodes[i].managed && nodes[i].profile == profile {
          ids := ids + [nodes[i].id];
        }
      }
      assert nodes[..|nodes|] == nodes;
      forall n ensures n in ids <==> OwnsManaged(nodes, n, profile) { ManagedIdsIff(nodes, n, profile); }
    }

    method EnsureSentinelLicenses() returns (ok: bool)
      modifies this
      ensures Outcome(View(), calls, ok) == EnsureLicences(old(View()), old(calls))
    {
      ok := Call();
      if ok { ok := Call(); }
      if !ok { return; }
      ghost var all := EnsureLicences(old(View()), old(calls));
      while |licences| < included
        invariant CreateLicences(View(), included - |licences|, calls) == all
        decreases included - |licences|
      {
        ok := Call();
        if !ok { return; }
        licences := licences + [Available];
      }
    }

    /** The business plan, loop by loop; whatever happens, the tables stay well formed and a success leaves
        everything provisioned. */
    method ProvisionBusinessPlan(ids: seq<NodeId>) returns (ok: bool)
      requires |ids| == 3 && WellFormed(View()) && FreshIds(View(), ids)
      modifies this
      ensures Outcome(View(), calls, ok) == Business(old(View()), ids, old(calls))
      ensures WellFormed(View()) && (ok ==> Provisioned(View()) && NodesMade(old(View()), ids, View()))
      ensures ok ==> Deficit(old(View())) <= 0
      ensures Provisioned(old(View())) ==> View() == old(View())
    {
      BusinessRan(View(), ids, calls);
      if Provisioned(View()) { ProvisionedRunIdle(View(), ids, calls); }
      var end := ProvisionNodes(ids);
      if end { ProvisionedHasNoDeficit(View()); }
      return end;
    }

    method ProvisionNodes(ids: seq<NodeId>) returns (ok: bool)
      requires |ids| == 3
      modifies this
      ensures Outcome(View(), calls, ok) == Business(old(View()), ids, old(calls))
    {
      ok := EnsureSentinelLicenses();
      if !ok { return; }
      var existing := ListManagedNodesByProfile(SentinelProfile);
      ghost var topped, left := View(), calls;
      ok := Call();
      if !ok { return; }
      var more := ids[..Max(0, 3 - |existing|)];
      ghost var grown := NewNodes(topped, more, Tick(left));
      for i := 0 to |more|
        invariant NewNodes(View(), more[i..], calls) == grown
      {
        assert more[i..][1..] == more[i + 1..];
        ok := ReserveManagedNode(more[i], SentinelProfile);
        if !ok { return; }
        ok := SetUpNode(more[i]);
        if !ok { return; }
      }
      ghost var all := ExistingNodes(View(), existing, calls);
      for i := 0 to |existing|
        invariant ExistingNodes(View(), existing[i..], calls) == all
      {
        assert existing[i..][1..] == existing[i + 1..];
        ok := SetUpNode(existing[i]);
        if !ok { return; }
      }
      return true;
    }

    method ProvisionProPlan(id: NodeId) returns (ok: bool)
      modifies this
      ensures Outcome(View(), calls, ok) == Pro(old(View()), id, old(calls))
      ensures old(calls) == NeverFail ==> ok
      ensures ok ==> ProvisionedPro(View())
    {
      ProRan(View(), id, calls);
      var existing := ListManagedNodesByProfile(ShieldProfile);
      ok := Call();
      if ok { ok := Call(); }
      if !ok { return; }
      var n := id;
      if existing == [] {
        nodes := nodes + [Node(id, ShieldProfile, true)];
      } else {
        n := existing[0];
      }
      ok := AttachServiceToNode(n, Vpn, None);
      if ok { ok := AttachServiceToNode(n, Shield, None); }
    }
  }

  /** A managed node of the profile has this id. */
  predicate OwnsManaged(nodes: seq<Node>, n: NodeId, profile: Profile) {
    exists i | 0 <= i < |nodes| :: nodes[i].id == n && nodes[i].managed && nodes[i].profile == profile
  }

  lemma OwnsManagedSnoc(nodes: seq<Node>, node: Node, n: NodeId, profile: Profile)
    ensures OwnsManaged(nodes + [node], n, profile) <==>
              OwnsManaged(nodes, n, profile) || (node.id == n && node.managed && node.profile == profile)
  {
    var all := nodes + [node];
    if OwnsManaged(nodes, n, profile) {
      var i :| 0 <= i < |nodes| && nodes[i].id == n && nodes[i].managed && nodes[i].profile == profile;
      assert all[i].id == n;
    }
    assert all[|nodes|] == node;
  }

  lemma {:induction false} ManagedIdsIff(nodes: seq<Node>, n: NodeId, profile: Profile)
    ensures n in ManagedIds(nodes, profile) <==> OwnsManaged(nodes, n, profile)
  {
    if nodes != [] {
      var init, last := nodes[..|nodes| - 1], nodes[|nodes| - 1];
      assert nodes == init + [last];
      ManagedIdsIff(init, n, profile);
      ManagedIdsSnoc(init, last, profile);
      OwnsManagedSnoc(init, last, n, profile);
    }
  }
}
