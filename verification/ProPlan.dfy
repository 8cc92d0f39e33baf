/** The pro plan: one managed Shield node, and why an interrupted run heals. */
module ProPlan {
  import opened Wrappers
  import opened Provisioning

  // ---- The pro plan --------------------------------------------------------------------------------------

  function SetUpShield(org: Org, n: NodeId, c: Calls): Outcome {
    var vpn := AttachService(org, n, Vpn, None, c);
    if vpn.ok then AttachService(vpn.org, n, Shield, None, vpn.calls) else vpn
  }

  /** One managed Shield node: made when there is none, else the oldest one is set up again. */
  function Pro(org: Org, id: NodeId, c: Calls): Outcome {
    var existing := ManagedIds(org.nodes, ShieldProfile);
    if Fails(c) then Outcome(org, c, false)
    else if Fails(Tick(c)) then Outcome(org, Tick(c), false)
    else if existing == [] then SetUpShield(WithNode(org, id, ShieldProfile), id, Tick(Tick(c)))
    else SetUpShield(org, existing[0], Tick(Tick(c)))
  }

  predicate StandardService(org: Org, n: NodeId, t: ServiceType) {
    (n, t) in org.services && org.services[(n, t)].terms == Standard && org.services[(n, t)].status == Active
  }

  predicate ProvisionedPro(org: Org) {
    var existing := ManagedIds(org.nodes, ShieldProfile);
    existing != [] && StandardService(org, existing[0], Vpn) && StandardService(org, existing[0], Shield)
  }

  lemma ManagedHasNode(org: Org, profile: Profile)
    ensures forall i | 0 <= i < |ManagedIds(org.nodes, profile)| :: HasNode(org, ManagedIds(org.nodes, profile)[i])
  {
    ManagedHasNodeUpTo(org, profile, |org.nodes|);
    assert org.nodes[..|org.nodes|] == org.nodes;
  }

  lemma {:induction false} ManagedHasNodeUpTo(org: Org, profile: Profile, n: nat)
    requires n <= |org.nodes|
    ensures forall i | 0 <= i < |ManagedIds(org.nodes[..n], profile)| ::
        HasNode(org, ManagedIds(org.nodes[..n], profile)[i])
  {
    if n > 0 {
      assert org.nodes[..n][..n - 1] == org.nodes[..n - 1];
      ManagedHasNodeUpTo(org, profile, n - 1);
      assert org.nodes[n - 1].id == org.nodes[..n][n - 1].id;
    }
  }

  lemma SetUpShieldRan(org: Org, n: NodeId, c: Calls)
    requires HasNode(org, n)
    ensures var out := SetUpShield(org, n, c);
            && out.org.nodes == org.nodes && out.org.licences == org.licences && (c.NeverFail? ==> out.ok)
            && (out.ok ==> StandardService(out.org, n, Vpn) && StandardService(out.org, n, Shield))
  {
  }

  /** The first node of the profile, made and set up. */
  lemma FirstShieldRan(org: Org, id: NodeId, c: Calls)
    requires ManagedIds(org.nodes, ShieldProfile) == []
    ensures var out := SetUpShield(WithNode(org, id, ShieldProfile), id, c);
            && ManagedIds(out.org.nodes, ShieldProfile) == [id] && out.org.licences == org.licences
            && (c.NeverFail? ==> out.ok) && (out.ok ==> ProvisionedPro(out.org))
  {
    var made := WithNode(org, id, ShieldProfile);
    ManagedIdsSnoc(org.nodes, Node(id, ShieldProfile, true), ShieldProfile);
    assert made.nodes[|org.nodes|].id == id;
    SetUpShieldRan(made, id, c);
  }

  /** The list is as it was, or it was empty and has the one new node. */
  predicate NoSecondNode(before: seq<NodeId>, after: seq<NodeId>, id: NodeId) {
    after == before || (before == [] && after == [id])
  }

  /** A run of the pro plan makes at most one node, never a second one, and succeeds whenever no call fails. */
  lemma ProRan(org: Org, id: NodeId, c: Calls)
    ensures var out := Pro(org, id, c);
            var existing := ManagedIds(org.nodes, ShieldProfile);
            && (c.NeverFail? ==> out.ok)
            && (out.ok ==> ProvisionedPro(out.org))
            && NoSecondNode(existing, ManagedIds(out.org.nodes, ShieldProfile), id)
            && out.org.licences == org.licences
  {
    var existing := ManagedIds(org.nodes, ShieldProfile);
    if !Fails(c) && !Fails(Tick(c)) {
      if existing == [] {
        FirstShieldRan(org, id, Tick(Tick(c)));
      } else {
        ManagedHasNode(org, ShieldProfile);
        SetUpShieldRan(org, existing[0], Tick(Tick(c)));
      }
    }
  }

  /** An interrupted run is healed by the next clean one: whatever call failed, the second run succeeds and leaves
      one node where there was none, or as many as there were; a third run changes nothing. */
  lemma ProHeals(org: Org, id: NodeId, c: Calls, id2: NodeId, id3: NodeId, c3: Calls)
    ensures var cut := Pro(org, id, c).org;
            var out := Pro(cut, id2, NeverFail);
            && out.ok && ProvisionedPro(out.org)
            && |ManagedIds(out.org.nodes, ShieldProfile)| == Max(1, |ManagedIds(org.nodes, ShieldProfile)|)
            && Pro(out.org, id3, c3).org == out.org
  {
    ProRan(org, id, c);
    var cut := Pro(org, id, c).org;
    ProRan(cut, id2, NeverFail);
    var out := Pro(cut, id2, NeverFail).org;
    ProIdle(out, id3, c3);
  }

  lemma ProIdle(org: Org, id: NodeId, c: Calls)
    requires ProvisionedPro(org)
    ensures Pro(org, id, c).org == org
  {
    var n := ManagedIds(org.nodes, ShieldProfile)[0];
    assert WithService(org, n, Vpn, None).services == org.services;
    assert WithService(org, n, Shield, None).services == org.services;
  }
}
