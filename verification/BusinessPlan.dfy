/** The business plan: when a run succeeds, and what a cut-off one costs. */
module BusinessPlan {
  import opened Wrappers
  import opened Provisioning
  import opened BusinessSteps

  // ---- Whole runs --------------------------------------------------------------------------------------

  /** Everything the plan includes is in place. */
  predicate Provisioned(org: Org) {
    var managed := ManagedIds(org.nodes, SentinelProfile);
    org.included <= |org.licences| && 3 <= |managed| && AllDone(org, managed)
  }

  lemma AllDoneStays(a: Org, b: Org, ids: seq<NodeId>)
    requires Keeps(a, b) && AllDone(a, ids)
    ensures AllDone(b, ids)
  {
  }

  lemma AllDoneJoin(org: Org, xs: seq<NodeId>, ys: seq<NodeId>)
    requires AllDone(org, xs) && AllDone(org, ys)
    ensures AllDone(org, xs + ys)
  {
    forall i | 0 <= i < |xs + ys| ensures Done(org, (xs + ys)[i]) {
      if i >= |xs| { assert (xs + ys)[i] == ys[i - |xs|]; }
    }
  }

  lemma StuckIsShort(org: Org)
    requires Stuck(org) && org.included <= |org.licences|
    ensures Deficit(org) > 0
  {
    var i :| Lacks(org, i);
    assert i in LackingSet(org);
  }

  /** What is claimed of a run: it ends well formed; the deficit goes up by at most one, and only when a call fails;
      success means everything is provisioned, with the missing nodes made and no other; failure without a failing
      call means there are more nodes than licences. */
  ghost predicate Ran(org: Org, ids: seq<NodeId>, c: Calls, out: Outcome)
    requires |ids| == 3
  {
    && Advances(org, c, out)
    && (!out.ok && c.NeverFail? ==> Deficit(out.org) > 0)
    && (out.ok ==> Provisioned(out.org) && NodesMade(org, ids, out.org))
  }

  predicate NodesMade(org: Org, ids: seq<NodeId>, end: Org)
    requires |ids| == 3
  {
    var existing := ManagedIds(org.nodes, SentinelProfile);
    ManagedIds(end.nodes, SentinelProfile) == existing + Needed(existing, ids)
  }

  lemma NeededFresh(org: Org, ids: seq<NodeId>)
    requires |ids| == 3 && FreshIds(org, ids)
    ensures var existing := ManagedIds(org.nodes, SentinelProfile);
            FreshIds(org, Needed(existing, ids)) && |existing| + |Needed(existing, ids)| == Max(3, |existing|)
  {
  }

  lemma ThreeNodesRan(org: Org, ids: seq<NodeId>, c: Calls)
    requires WellFormed(org) && |ids| == 3 && FreshIds(org, ids) && org.included <= |org.licences|
    ensures Ran(org, ids, c, ThreeNodes(org, ids, c))
  {
    if !Fails(c) {
      var existing := ManagedIds(org.nodes, SentinelProfile);
      var more := Needed(existing, ids);
      NeededFresh(org, ids);
      if more == [] {
        assert NewNodes(org, more, Tick(c)) == Outcome(org, Tick(c), true);
      } else {
        NewNodesAdvance(org, more, Tick(c));
      }
      var grown := NewNodes(org, more, Tick(c));
      if grown.ok {
        ManagedIdsAreManaged(org, |org.nodes|);
        assert org.nodes[..|org.nodes|] == org.nodes;
        StaysManaged(org, grown.org, existing);
        ExistingNodesAdvance(grown.org, existing, grown.calls);
        var out := ExistingNodes(grown.org, existing, grown.calls);
        ListedRan(org, ids, c, grown, out);
      } else if c.NeverFail? {
        StuckIsShort(grown.org);
      }
    }
  }

  lemma ListedRan(org: Org, ids: seq<NodeId>, c: Calls, grown: Outcome, out: Outcome)
    requires |ids| == 3 &&
        |ManagedIds(org.nodes, SentinelProfile)| + |Needed(ManagedIds(org.nodes, SentinelProfile), ids)| >= 3
    requires org.included <= |org.licences| && Advances(org, c, grown) && grown.ok
    requires AllDone(grown.org, Needed(ManagedIds(org.nodes, SentinelProfile), ids)) && NodesMade(org, ids, grown.org)
    requires Finished(grown.org, ManagedIds(org.nodes, SentinelProfile), grown.calls, out)
    ensures Ran(org, ids, c, out)
  {
    AdvancesJoin(org, c, grown, out);
    var existing := ManagedIds(org.nodes, SentinelProfile);
    if out.ok {
      AllDoneStays(grown.org, out.org, Needed(existing, ids));
      AllDoneJoin(out.org, existing, Needed(existing, ids));
    } else if c.NeverFail? {
      StuckIsShort(out.org);
    }
  }

  lemma BusinessRan(org: Org, ids: seq<NodeId>, c: Calls)
    requires WellFormed(org) && |ids| == 3 && FreshIds(org, ids)
    ensures Ran(org, ids, c, Business(org, ids, c))
  {
    if !Fails(c) && !Fails(Tick(c)) {
      CreateLicencesAdvances(org, Tick(Tick(c)));
      var topped := EnsureLicences(org, c);
      if topped.ok {
        assert forall n :: HasNode(topped.org, n) == HasNode(org, n);
        ThreeNodesRan(topped.org, ids, topped.calls);
        AdvancesJoin(org, c, topped, ThreeNodes(topped.org, ids, topped.calls));
      }
    }
  }

  lemma ProvisionedHasNoDeficit(org: Org)
    requires Provisioned(org)
    ensures Deficit(org) <= 0
  {
    var managed := ManagedIds(org.nodes, SentinelProfile);
    forall i | 0 <= i < |org.nodes| ensures !Lacks(org, i) {
      if Managed(org.nodes[i], SentinelProfile) {
        assert org.nodes[..|org.nodes|] == org.nodes;
        ManagedListed(org.nodes, |org.nodes|, i);
        var j :| 0 <= j < |managed| && managed[j] == org.nodes[i].id;
        assert Done(org, managed[j]);
      }
    }
    assert LackingSet(org) == {};
  }

  lemma {:induction false} ManagedListed(nodes: seq<Node>, n: nat, i: nat)
    requires i < n <= |nodes| && Managed(nodes[i], SentinelProfile)
    ensures nodes[i].id in ManagedIds(nodes[..n], SentinelProfile)
  {
    assert nodes[..n][..n - 1] == nodes[..n - 1];
    var before := ManagedIds(nodes[..n - 1], SentinelProfile);
    var ids := ManagedIds(nodes[..n], SentinelProfile);
    if i < n - 1 {
      ManagedListed(nodes, n - 1, i);
      assert forall x | x in before :: x in ids;
    } else {
      assert ids[|ids| - 1] == nodes[i].id;
    }
  }

  /** With no failing call, provisioning succeeds if and only if the licences that are available or still to be
      created cover the managed nodes without a live Sentinel service and those still to be made. */
  lemma BusinessSucceedsIff(org: Org, ids: seq<NodeId>)
    requires WellFormed(org) && |ids| == 3 && FreshIds(org, ids)
    ensures Business(org, ids, NeverFail).ok <==> Deficit(org) <= 0
  {
    BusinessRan(org, ids, NeverFail);
    var out := Business(org, ids, NeverFail);
    if out.ok { ProvisionedHasNoDeficit(out.org); }
  }

  // ---- Runs repeated -----------------------------------------------------------------------------------

  lemma SetUpDoneIdle(org: Org, n: NodeId, c: Calls)
    requires Done(org, n) && HasNode(org, n)
    ensures SetUp(org, n, c).org == org && (c.NeverFail? ==> SetUp(org, n, c).ok && SetUp(org, n, c).calls == c)
  {
    assert WithService(org, n, Vpn, None).services == org.services;
  }

  lemma {:induction false} ExistingDoneIdle(org: Org, ids: seq<NodeId>, c: Calls)
    requires AllDone(org, ids) && ManagedAll(org, ids)
    ensures ExistingNodes(org, ids, c).org == org && (c.NeverFail? ==> ExistingNodes(org, ids, c).ok)
    decreases |ids|
  {
    if ids != [] {
      assert Done(org, ids[0]) && IsManaged(org, ids[0]);
      SetUpDoneIdle(org, ids[0], c);
      var first := SetUp(org, ids[0], c);
      if first.ok {
        assert forall i | 0 <= i < |ids[1..]| :: ids[1..][i] == ids[i + 1];
        ExistingDoneIdle(org, ids[1..], first.calls);
      }
    }
  }

  /** Once everything is provisioned, a further run changes no node, no service and no licence, even when one of its
      calls fails; without a failing call it succeeds. */
  lemma ProvisionedRunIdle(org: Org, ids: seq<NodeId>, c: Calls)
    requires Provisioned(org) && |ids| == 3
    ensures Business(org, ids, c).org == org && (c.NeverFail? ==> Business(org, ids, c).ok)
  {
    var managed := ManagedIds(org.nodes, SentinelProfile);
    assert org.nodes[..|org.nodes|] == org.nodes;
    ManagedIdsAreManaged(org, |org.nodes|);
    var topped := EnsureLicences(org, c);
    assert topped.org == org && (c.NeverFail? ==> topped.ok && topped.calls == c);
    if topped.ok && !Fails(topped.calls) {
      assert Needed(managed, ids) == [];
      ExistingDoneIdle(org, managed, Tick(topped.calls));
    }
  }

  /** Runs one after another, each with its own random ids and its own failing call. */
  ghost predicate FreshRuns(org: Org, runs: seq<(seq<NodeId>, Calls)>)
    decreases |runs|
  {
    runs == [] || (|runs[0].0| == 3 && FreshIds(org, runs[0].0) &&
      FreshRuns(Business(org, runs[0].0, runs[0].1).org, runs[1..]))
  }

  function RunAll(org: Org, runs: seq<(seq<NodeId>, Calls)>): (Org, seq<bool>)
    decreases |runs|
  {
    if runs == [] || |runs[0].0| != 3 then (org, [])
    else
      var out := Business(org, runs[0].0, runs[0].1);
      var (end, oks) := RunAll(out.org, runs[1..]);
      (end, [out.ok] + oks)
  }

  /** Wasted licences are never made up for: from a positive deficit every later run fails, however many there are
      and whether or not their calls fail. */
  lemma {:induction false} DeficitIsForever(org: Org, runs: seq<(seq<NodeId>, Calls)>)
    requires WellFormed(org) && Deficit(org) > 0 && FreshRuns(org, runs)
    ensures var (end, oks) := RunAll(org, runs);
            WellFormed(end) && Deficit(end) >= Deficit(org) && forall i | 0 <= i < |oks| :: !oks[i]
    decreases |runs|
  {
    if runs != [] {
      BusinessRan(org, runs[0].0, runs[0].1);
      var out := Business(org, runs[0].0, runs[0].1);
      if out.ok { ProvisionedHasNoDeficit(out.org); }
      DeficitIsForever(out.org, runs[1..]);
    }
  }

  // ---- A new business organization -------------------------------------------------------------------------

  function NewOrg(): Org { Org([], map[], [], 3) }

  lemma NewOrgBalanced()
    ensures WellFormed(NewOrg()) && Deficit(NewOrg()) == 0
  {
    assert LackingSet(NewOrg()) == {} && AvailableSet(NewOrg().licences) == {};
  }

  /** A first run without a failing call: exactly three managed Sentinel nodes, each with its VPN and its Sentinel
      service, each with a licence of its own. */
  lemma NewOrgProvisioned(ids: seq<NodeId>)
    requires |ids| == 3 && ids[0] != ids[1] && ids[0] != ids[2] && ids[1] != ids[2]
    ensures var out := Business(NewOrg(), ids, NeverFail);
            && out.ok && Provisioned(out.org) && ManagedIds(out.org.nodes, SentinelProfile) == ids
            && (forall i | 0 <= i < 3 :: OwnLicence(out.org, ids[i]))
            && (forall i, j | 0 <= i < j < 3 ::
                  out.org.services[(ids[i], Sentinel)].licence != out.org.services[(ids[j], Sentinel)].licence)
  {
    NewOrgBalanced();
    BusinessSucceedsIff(NewOrg(), ids);
    BusinessRan(NewOrg(), ids, NeverFail);
    var out := Business(NewOrg(), ids, NeverFail);
    assert ManagedIds(out.org.nodes, SentinelProfile) == ids;
    forall i | 0 <= i < 3 ensures OwnLicence(out.org, ids[i]) {
      assert Done(out.org, ids[i]);
      assert LicensedIfLive(NewOrg(), ids[i]);
      assert LicensedIfLive(out.org, ids[i]);
      assert LicenceLinked(out.org, ids[i]);
    }
  }

  predicate OwnLicence(org: Org, n: NodeId) {
    && (n, Sentinel) in org.services && org.services[(n, Sentinel)].licence.Some?
    && var l := org.services[(n, Sentinel)].licence.value;
       l < |org.licences| && org.licences[l] == Attached(n)
  }

  /** The first run of a new organization, cut off right after its first licence was attached: one licence is
      wasted, and no later run succeeds any more. */
  lemma InterruptedRunWastesLicence(ids: seq<NodeId>, later: seq<(seq<NodeId>, Calls)>)
    requires |ids| == 3 && FreshIds(NewOrg(), ids)
    requires FreshRuns(Business(NewOrg(), ids, FailAfter(10)).org, later)
    ensures var cut := Business(NewOrg(), ids, FailAfter(10));
            && !cut.ok && Deficit(cut.org) == 1
            && forall i | 0 <= i < |RunAll(cut.org, later).1| :: !RunAll(cut.org, later).1[i]
  {
    var one := MoreLicences(NewOrg());
    var two := MoreLicences(one);
    var org := MoreLicences(two);
    assert CreateLicences(two, 1, FailAfter(6)) == CreateLicences(org, 0, FailAfter(5));
    assert CreateLicences(NewOrg(), 3, FailAfter(8)) == Outcome(org, FailAfter(5), true);
    assert EnsureLicences(NewOrg(), FailAfter(10)) == Outcome(org, FailAfter(5), true);
    CutAtLicence(org, ids);
    NewOrgBalanced();
    TopUpKeepsDeficit(NewOrg());
    TopUpKeepsDeficit(one);
    TopUpKeepsDeficit(two);
    BusinessRan(NewOrg(), ids, FailAfter(10));
    DeficitIsForever(Business(NewOrg(), ids, FailAfter(10)).org, later);
  }

  lemma CutAtLicence(org: Org, ids: seq<NodeId>)
    requires org == Org([], map[], [Available, Available, Available], 3) && |ids| == 3
    ensures var cut := ThreeNodes(org, ids, FailAfter(5)); !cut.ok && Deficit(cut.org) == Deficit(org) + 1
  {
    var existing := ManagedIds(org.nodes, SentinelProfile);
    assert Needed(existing, ids) == ids;
    var made := WithNode(org, ids[0], SentinelProfile);
    assert made.nodes[0].id == ids[0];
    NewNodeKeepsDeficit(org, ids[0]);
    var vpn := WithService(made, ids[0], Vpn, None);
    VpnKeepsDeficit(made, ids[0]);
    assert AttachService(made, ids[0], Vpn, None, FailAfter(3)) == Outcome(vpn, FailAfter(2), true);
    assert FirstAvailable(vpn.licences) == 0;
    LicenceRaisesDeficit(vpn, ids[0], 0);
    assert AttachSentinel(vpn, ids[0], FailAfter(2)) == Outcome(WithLicence(vpn, ids[0], 0), FailAfter(0), false);
    assert SetUpNew(org, ids[0], FailAfter(4)) == Outcome(WithLicence(vpn, ids[0], 0), FailAfter(0), false);
  }
}
