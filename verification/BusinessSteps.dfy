/** The pieces of a business provisioning run: each store call, each node set up, and each loop over nodes keeps the
    organization well formed and its balance of nodes and licences, apart from a call failing right after a licence
    was attached; and no piece undoes what an earlier one finished. */
module BusinessSteps {
  import opened Wrappers
  import opened Provisioning

  // ---- What a piece of a run keeps ------------------------------------------------------------------------

  /** The provisioner's work on a node is finished. */
  predicate Done(org: Org, n: NodeId) {
    && (n, Vpn) in org.services && org.services[(n, Vpn)].terms == Standard && org.services[(n, Vpn)].status == Active
    && Live(org, n)
  }

  predicate LicensedIfLive(org: Org, n: NodeId) { Live(org, n) ==> org.services[(n, Sentinel)].licence.Some? }

  /** No licence is left and a managed node still needs one. */
  ghost predicate Stuck(org: Org) { AvailableSet(org.licences) == {} && exists i :: Lacks(org, i) }

  ghost predicate Keeps(a: Org, b: Org) {
    && a.nodes <= b.nodes && a.included == b.included && |a.licences| <= |b.licences|
    && (forall n | Done(a, n) :: Done(b, n))
    && (forall n | LicensedIfLive(a, n) :: LicensedIfLive(b, n))
  }

  /** Started well formed, a piece of a run ends well formed; it keeps the deficit, except that a call failing
      right after a licence was attached raises it by one; and it fails without a failing call only when stuck. */
  ghost predicate Advances(org: Org, c: Calls, out: Outcome) {
    && WellFormed(out.org) && Keeps(org, out.org)
    && (c.NeverFail? <==> out.calls.NeverFail?)
    && (out.ok ==> Deficit(out.org) == Deficit(org))
    && (!out.ok ==>
          Deficit(out.org) == Deficit(org) || (Deficit(out.org) == Deficit(org) + 1 && out.calls == FailAfter(0)))
    && (!out.ok && c.NeverFail? ==> Stuck(out.org))
  }

  lemma AdvancesJoin(org: Org, c: Calls, mid: Outcome, out: Outcome)
    requires Advances(org, c, mid) && mid.ok && Advances(mid.org, mid.calls, out)
    ensures Advances(org, c, out)
  {
  }

  lemma WithVpnKeeps(org: Org, n: NodeId)
    requires WellFormed(org) && HasNode(org, n)
    ensures WellFormed(WithService(org, n, Vpn, None)) && Keeps(org, WithService(org, n, Vpn, None))
  {
    var next := WithService(org, n, Vpn, None);
    forall m, t ensures ServicePlaced(next, m, t) { assert ServicePlaced(org, m, t); }
    forall m ensures LicenceLinked(next, m) { assert LicenceLinked(org, m); }
  }

  /** The licence and the service written for node k, as one change. */
  lemma WithLicensedServiceKeeps(org: Org, k: nat, i: nat)
    requires WellFormed(org) && k < |org.nodes| && i < |org.licences| && org.licences[i] == Available
    ensures var n := org.nodes[k].id;
            var next := WithService(WithLicence(org, n, i), n, Sentinel, Some(i));
            WellFormed(next) && Keeps(org, next)
  {
    var n := org.nodes[k].id;
    var next := WithService(WithLicence(org, n, i), n, Sentinel, Some(i));
    forall m, t ensures ServicePlaced(next, m, t) { assert ServicePlaced(org, m, t); }
    forall m ensures LicenceLinked(next, m) { assert LicenceLinked(org, m); }
  }

  lemma WithLicenceKeeps(org: Org, n: NodeId, i: nat)
    requires WellFormed(org) && i < |org.licences| && org.licences[i] == Available
    ensures WellFormed(WithLicence(org, n, i)) && Keeps(org, WithLicence(org, n, i))
  {
    var next := WithLicence(org, n, i);
    forall m, t ensures ServicePlaced(next, m, t) { assert ServicePlaced(org, m, t); }
    forall m ensures LicenceLinked(next, m) { assert LicenceLinked(org, m); }
    forall m | LicensedIfLive(org, m) ensures LicensedIfLive(next, m) {}
  }

  lemma VpnAdvances(org: Org, n: NodeId, c: Calls)
    requires WellFormed(org) && HasNode(org, n)
    ensures Advances(org, c, AttachService(org, n, Vpn, None, c))
    ensures c.NeverFail? ==> AttachService(org, n, Vpn, None, c).ok
  {
    WithVpnKeeps(org, n);
    VpnKeepsDeficit(org, n);
  }

  lemma SentinelAdvances(org: Org, k: nat, c: Calls)
    requires WellFormed(org) && k < |org.nodes| && Managed(org.nodes[k], SentinelProfile)
    ensures var out := AttachSentinel(org, org.nodes[k].id, c);
            Advances(org, c, out) && (out.ok ==> Live(out.org, org.nodes[k].id)) && out.org.nodes == org.nodes
    ensures AttachSentinel(org, org.nodes[k].id, c).org.services.Keys <= org.services.Keys +
        {(org.nodes[k].id, Sentinel)}
    ensures (org.nodes[k].id, Vpn) in org.services ==>
              AttachSentinel(org, org.nodes[k].id, c).org.services[(org.nodes[k].id, Vpn)] ==
                org.services[(org.nodes[k].id, Vpn)]
  {
    var n := org.nodes[k].id;
    if !Fails(c) && !Live(org, n) && !Fails(Tick(c)) {
      assert Lacks(org, k);
      var i := FirstAvailable(org.licences);
      if i < |org.licences| {
        WithLicenceKeeps(org, n, i);
        LicenceRaisesDeficit(org, n, i);
        WithLicensedServiceKeeps(org, k, i);
        assert Lacks(WithLicence(org, n, i), k);
        ServiceLowersDeficit(WithLicence(org, n, i), k, Some(i));
      } else {
        assert AvailableSet(org.licences) == {};
      }
    }
  }

  lemma SetUpAdvances(org: Org, k: nat, c: Calls)
    requires WellFormed(org) && k < |org.nodes| && Managed(org.nodes[k], SentinelProfile)
    ensures var out := SetUp(org, org.nodes[k].id, c);
            Advances(org, c, out) && out.org.nodes == org.nodes && (out.ok ==> Done(out.org, org.nodes[k].id))
  {
    var n := org.nodes[k].id;
    VpnAdvances(org, n, c);
    var vpn := AttachService(org, n, Vpn, None, c);
    if vpn.ok {
      SentinelAdvances(vpn.org, k, vpn.calls);
      AdvancesJoin(org, c, vpn, AttachSentinel(vpn.org, n, vpn.calls));
    }
  }

  lemma WithNodeKeeps(org: Org, n: NodeId)
    requires WellFormed(org) && !HasNode(org, n)
    ensures WellFormed(WithNode(org, n, SentinelProfile)) && Keeps(org, WithNode(org, n, SentinelProfile))
  {
    var next := WithNode(org, n, SentinelProfile);
    forall m | HasNode(org, m) ensures HasNode(next, m) {
      var i :| 0 <= i < |org.nodes| && org.nodes[i].id == m;
      assert next.nodes[i].id == m;
    }
    forall m, t ensures ServicePlaced(next, m, t) { assert ServicePlaced(org, m, t); }
    forall m ensures LicenceLinked(next, m) { assert LicenceLinked(org, m); }
  }

  lemma SetUpNewAdvances(org: Org, n: NodeId, c: Calls)
    requires WellFormed(org) && !HasNode(org, n) && |ManagedIds(org.nodes, SentinelProfile)| < 3
    ensures var out := SetUpNew(org, n, c);
            && Advances(org, c, out)
            && (out.ok ==> Done(out.org, n) && out.org.nodes == org.nodes + [Node(n, SentinelProfile, true)])
  {
    if !Fails(c) {
      WithNodeKeeps(org, n);
      NewNodeKeepsDeficit(org, n);
      SetUpAdvances(WithNode(org, n, SentinelProfile), |org.nodes|, Tick(c));
    }
  }

  predicate AllDone(org: Org, ids: seq<NodeId>) { forall i | 0 <= i < |ids| :: Done(org, ids[i]) }

  lemma AllDoneCons(org: Org, ids: seq<NodeId>)
    requires ids != [] && Done(org, ids[0]) && AllDone(org, ids[1..])
    ensures AllDone(org, ids)
  {
    forall i | 0 <= i < |ids| ensures Done(org, ids[i]) {
      if i > 0 { assert ids[i] == ids[1..][i - 1]; }
    }
  }

  /** What is claimed of setting up new nodes. */
  ghost predicate Grown(org: Org, ids: seq<NodeId>, c: Calls, out: Outcome) {
    && Advances(org, c, out)
    && (out.ok ==> AllDone(out.org, ids) &&
                   ManagedIds(out.org.nodes, SentinelProfile) == ManagedIds(org.nodes, SentinelProfile) + ids)
  }

  lemma GrownCons(org: Org, ids: seq<NodeId>, c: Calls, first: Outcome, out: Outcome)
    requires ids != [] && Advances(org, c, first) && first.ok && Done(first.org, ids[0])
    requires first.org.nodes == org.nodes + [Node(ids[0], SentinelProfile, true)]
    requires Grown(first.org, ids[1..], first.calls, out)
    ensures Grown(org, ids, c, out)
  {
    AdvancesJoin(org, c, first, out);
    if out.ok {
      AllDoneCons(out.org, ids);
      ManagedIdsSnoc(org.nodes, Node(ids[0], SentinelProfile, true), SentinelProfile);
      assert ids == [ids[0]] + ids[1..];
    }
  }

  lemma {:induction false} NewNodesAdvance(org: Org, ids: seq<NodeId>, c: Calls)
    requires WellFormed(org) && FreshIds(org, ids) && |ManagedIds(org.nodes, SentinelProfile)| + |ids| <= 3
    ensures Grown(org, ids, c, NewNodes(org, ids, c))
    decreases |ids|
  {
    if ids != [] {
      SetUpNewAdvances(org, ids[0], c);
      var first := SetUpNew(org, ids[0], c);
      if first.ok {
        ManagedIdsSnoc(org.nodes, Node(ids[0], SentinelProfile, true), SentinelProfile);
        FreshRest(org, ids);
        NewNodesAdvance(first.org, ids[1..], first.calls);
        GrownCons(org, ids, c, first, NewNodes(first.org, ids[1..], first.calls));
      }
    }
  }

  lemma FreshRest(org: Org, ids: seq<NodeId>)
    requires ids != [] && FreshIds(org, ids)
    ensures FreshIds(WithNode(org, ids[0], SentinelProfile), ids[1..])
  {
    var next := WithNode(org, ids[0], SentinelProfile);
    forall i | 0 <= i < |ids[1..]| ensures !HasNode(next, ids[1..][i]) {
      assert ids[1..][i] == ids[i + 1];
      assert !HasNode(org, ids[i + 1]);
    }
  }

  /** Ids of managed Sentinel nodes. */
  ghost predicate ManagedAll(org: Org, ids: seq<NodeId>) {
    forall i | 0 <= i < |ids| :: IsManaged(org, ids[i])
  }

  predicate IsManaged(org: Org, n: NodeId) {
    exists k | 0 <= k < |org.nodes| :: org.nodes[k].id == n && Managed(org.nodes[k], SentinelProfile)
  }

  lemma {:induction false} ManagedIdsAreManaged(org: Org, n: nat)
    requires n <= |org.nodes|
    ensures ManagedAll(org, ManagedIds(org.nodes[..n], SentinelProfile))
  {
    if n > 0 {
      assert org.nodes[..n][..n - 1] == org.nodes[..n - 1];
      ManagedIdsAreManaged(org, n - 1);
      var ids := ManagedIds(org.nodes[..n], SentinelProfile);
      var before := ManagedIds(org.nodes[..n - 1], SentinelProfile);
      forall i | 0 <= i < |ids| ensures IsManaged(org, ids[i]) {
        if i < |before| {
          assert ids[i] == before[i];
        } else {
          assert org.nodes[n - 1].id == ids[i];
        }
      }
    }
  }

  lemma StaysManaged(a: Org, b: Org, ids: seq<NodeId>)
    requires a.nodes <= b.nodes && ManagedAll(a, ids)
    ensures ManagedAll(b, ids)
  {
    forall i | 0 <= i < |ids| ensures IsManaged(b, ids[i]) {
      assert IsManaged(a, ids[i]);
      var k :| 0 <= k < |a.nodes| && a.nodes[k].id == ids[i] && Managed(a.nodes[k], SentinelProfile);
      assert b.nodes[k] == a.nodes[k];
    }
  }

  /** What is claimed of going over existing nodes. */
  ghost predicate Finished(org: Org, ids: seq<NodeId>, c: Calls, out: Outcome) {
    Advances(org, c, out) && out.org.nodes == org.nodes && (out.ok ==> AllDone(out.org, ids))
  }

  lemma FinishedCons(org: Org, ids: seq<NodeId>, c: Calls, first: Outcome, out: Outcome)
    requires ids != [] && Advances(org, c, first) && first.ok && Done(first.org, ids[0]) && first.org.nodes == org.nodes
    requires Finished(first.org, ids[1..], first.calls, out)
    ensures Finished(org, ids, c, out)
  {
    AdvancesJoin(org, c, first, out);
    if out.ok { AllDoneCons(out.org, ids); }
  }

  lemma {:induction false} ExistingNodesAdvance(org: Org, ids: seq<NodeId>, c: Calls)
    requires WellFormed(org) && ManagedAll(org, ids)
    ensures Finished(org, ids, c, ExistingNodes(org, ids, c))
    decreases |ids|
  {
    if ids != [] {
      assert IsManaged(org, ids[0]);
      var k :| 0 <= k < |org.nodes| && org.nodes[k].id == ids[0] && Managed(org.nodes[k], SentinelProfile);
      SetUpAdvances(org, k, c);
      var first := SetUp(org, ids[0], c);
      if first.ok {
        assert forall i | 0 <= i < |ids[1..]| :: ids[1..][i] == ids[i + 1];
        StaysManaged(org, first.org, ids);
        ExistingNodesAdvance(first.org, ids[1..], first.calls);
        FinishedCons(org, ids, c, first, ExistingNodes(first.org, ids[1..], first.calls));
      }
    }
  }

  lemma MoreLicencesKeeps(org: Org)
    requires WellFormed(org)
    ensures WellFormed(MoreLicences(org)) && Keeps(org, MoreLicences(org))
  {
    var next := MoreLicences(org);
    forall m, t ensures ServicePlaced(next, m, t) { assert ServicePlaced(org, m, t); }
    forall m ensures LicenceLinked(next, m) { assert LicenceLinked(org, m); }
  }

  /** Creating licences never fails on its own, touches no node, and fills the included number. */
  ghost predicate ToppedUp(org: Org, c: Calls, out: Outcome) {
    && Advances(org, c, out) && out.org.nodes == org.nodes && out.org.services == org.services
    && (c.NeverFail? ==> out.ok)
    && (out.ok ==> out.org.included <= |out.org.licences|)
  }

  lemma {:induction false} CreateLicencesAdvances(org: Org, c: Calls)
    requires WellFormed(org)
    ensures ToppedUp(org, c, CreateLicences(org, org.included - |org.licences|, c))
    decreases org.included - |org.licences|
  {
    if |org.licences| < org.included && !Fails(c) {
      MoreLicencesKeeps(org);
      TopUpKeepsDeficit(org);
      var first := Outcome(MoreLicences(org), Tick(c), true);
      CreateLicencesAdvances(first.org, first.calls);
      AdvancesJoin(org, c, first, CreateLicences(first.org, first.org.included - |first.org.licences|, first.calls));
    }
  }
}
