/** The two tier resolvers, for Drop and for VPN, and why they agree. */
module Tiers {

  const ORDER: seq<string> := ["free", "starter", "pro", "business", "enterprise"]

  /** The place of a tier in the order, or -1. The queries' array_position and dropTierRank rank alike: a tier that
      is not in the array is last in the one and -1 in the other. */
  function Rank(tier: string): (r: int)
    ensures -1 <= r < 5
    ensures r >= 0 ==> ORDER[r] == tier
    ensures r < 0 ==> tier !in ORDER
  {
    if tier == "free" then 0
    else if tier == "starter" then 1
    else if tier == "pro" then 2
    else if tier == "business" then 3
    else if tier == "enterprise" then 4
    else -1
  }

  method DropTierRank(tier: string) returns (r: int)
    ensures r == Rank(tier)
  {
    for i := 0 to |ORDER|
      invariant forall j | 0 <= j < i :: ORDER[j] != tier
    {
      if ORDER[i] == tier {
        RankOfOrder(i);
        return i;
      }
    }
    return -1;
  }

  lemma RankOfOrder(i: nat)
    requires i < 5
    ensures Rank(ORDER[i]) == i
  {
    assert ORDER[0] == "free" && ORDER[1] == "starter" && ORDER[2] == "pro" && ORDER[3] == "business" &&
      ORDER[4] == "enterprise";
    assert |ORDER[0]| == 4 && |ORDER[1]| == 7 && |ORDER[2]| == 3 && |ORDER[3]| == 8 && |ORDER[4]| == 10;
  }

  function Normalize(tier: string): string { if Rank(tier) >= 0 then tier else "free" }

  /** Built-in quotas, used when the limits table has no row for the tier. */
  function DefaultQuota(tier: string): nat {
    match Rank(Normalize(tier))
    case 1 => 1_000_000_000
    case 2 => 5_000_000_000
    case 3 => 10_000_000_000
    case 4 => 10_000_000_000
    case _ => 500_000_000
  }

  /** One row of the join of memberships and organizations. */
  datatype Membership = Membership(privileged: bool, plan: string, seat: string, active: bool, billed: bool)

  predicate Eligible(m: Membership) { m.active && m.billed }

  /** Owners and node operators inherit the organization's plan, unknown plans as free. */
  function PlanTier(m: Membership): (t: string)
    ensures Rank(t) >= 0
  {
    Normalize(m.plan)
  }

  function VpnTier(m: Membership): string {
    if m.privileged then PlanTier(m) else if m.seat == "" then "free" else m.seat
  }

  function DropSeat(m: Membership): string { if m.privileged then PlanTier(m) else m.seat }

  predicate TopVpn(ms: seq<Membership>, i: int) {
    0 <= i < |ms| && Eligible(ms[i]) &&
    forall j | 0 <= j < |ms| && Eligible(ms[j]) :: Rank(VpnTier(ms[j])) <= Rank(VpnTier(ms[i]))
  }

  predicate TopDrop(ms: seq<Membership>, i: int) {
    0 <= i < |ms| && Eligible(ms[i]) &&
    forall j | 0 <= j < |ms| && Eligible(ms[j]) :: Rank(DropSeat(ms[j])) <= Rank(DropSeat(ms[i]))
  }

  predicate NoneEligible(ms: seq<Membership>) { forall i | 0 <= i < |ms| :: !Eligible(ms[i]) }

  /** Each query orders the memberships by tier and takes one row; among equals the database may take any.
      Every answer the VPN query may give: some top row's tier, or the empty string. */
  ghost predicate VpnAnswer(ms: seq<Membership>, plan: string) {
    if NoneEligible(ms) then plan == "" else exists i :: TopVpn(ms, i) && plan == VpnTier(ms[i])
  }

  /** Every answer the Drop resolver may give: some top row's seat, normalized; free without a row. */
  ghost predicate DropAnswer(ms: seq<Membership>, tier: string) {
    if NoneEligible(ms) then tier == "free" else exists i ::
      TopDrop(ms, i) && tier == Normalize(Normalize(DropSeat(ms[i])))
  }

  // ---- The answer as a maximum ----------------------------------------------------------------------------

  function MaxRank(ms: seq<Membership>): (r: int)
    ensures 0 <= r < 5
  {
    if ms == [] then 0
    else
      var last := ms[|ms| - 1];
      var before := MaxRank(ms[..|ms| - 1]);
      if Eligible(last) && Rank(DropSeat(last)) > before then Rank(DropSeat(last)) else before
  }

  predicate Carries(m: Membership, r: int) { Eligible(m) && Rank(DropSeat(m)) == r }

  lemma {:induction false} MaxRankBounds(ms: seq<Membership>, i: nat)
    requires i < |ms| && Eligible(ms[i])
    ensures Rank(DropSeat(ms[i])) <= MaxRank(ms)
  {
    if i < |ms| - 1 { MaxRankBounds(ms[..|ms| - 1], i); }
  }

  lemma {:induction false} MaxRankCarried(ms: seq<Membership>) returns (i: nat)
    requires MaxRank(ms) > 0
    ensures i < |ms| && Carries(ms[i], MaxRank(ms))
  {
    if MaxRank(ms) == MaxRank(ms[..|ms| - 1]) {
      i := MaxRankCarried(ms[..|ms| - 1]);
    } else {
      i := |ms| - 1;
    }
  }

  lemma SomeTopDrop(ms: seq<Membership>)
    requires !NoneEligible(ms)
    ensures exists i :: TopDrop(ms, i)
  {
    var r := MaxRank(ms);
    forall j | 0 <= j < |ms| && Eligible(ms[j]) ensures Rank(DropSeat(ms[j])) <= r { MaxRankBounds(ms, j); }
    if r > 0 {
      var i := MaxRankCarried(ms);
      assert TopDrop(ms, i);
    } else if exists i | 0 <= i < |ms| :: Carries(ms[i], 0) {
      var i :| 0 <= i < |ms| && Carries(ms[i], 0);
      assert TopDrop(ms, i);
    } else {
      var i :| 0 <= i < |ms| && Eligible(ms[i]);
      forall j | 0 <= j < |ms| && Eligible(ms[j]) ensures Rank(DropSeat(ms[j])) <= Rank(DropSeat(ms[i])) {
        assert !Carries(ms[j], 0);
      }
      assert TopDrop(ms, i);
    }
  }

  lemma DropTopRank(ms: seq<Membership>, i: int)
    requires TopDrop(ms, i)
    ensures Rank(Normalize(DropSeat(ms[i]))) == MaxRank(ms)
  {
    MaxRankBounds(ms, i);
    NormalizedRank(DropSeat(ms[i]));
    if MaxRank(ms) > 0 {
      var j := MaxRankCarried(ms);
      assert Rank(DropSeat(ms[j])) <= Rank(DropSeat(ms[i]));
    }
  }

  lemma RankInjective(a: string, b: string)
    requires Rank(a) == Rank(b) >= 0
    ensures a == b
  {
  }

  lemma NormalizedRank(t: string)
    ensures Rank(Normalize(t)) == (if Rank(t) >= 0 then Rank(t) else 0) && Normalize(Normalize(t)) == Normalize(t)
  {
  }

  /** However the database breaks ties, the Drop resolver has exactly one answer: the highest tier of any eligible
      membership, and free where none has a known tier. */
  lemma DropTierIsMaximum(ms: seq<Membership>, tier: string)
    ensures DropAnswer(ms, tier) <==> tier == ORDER[MaxRank(ms)]
  {
    var r := MaxRank(ms);
    RankOfOrder(r);
    if !NoneEligible(ms) {
      SomeTopDrop(ms);
      forall i | TopDrop(ms, i) ensures Normalize(Normalize(DropSeat(ms[i]))) == ORDER[r] {
        DropTopRank(ms, i);
        NormalizedRank(DropSeat(ms[i]));
        RankInjective(Normalize(DropSeat(ms[i])), ORDER[r]);
      }
    }
  }

  /** The tier a membership that counts brings: the organization's plan for owners and operators, else the seat. */
  predicate Brings(m: Membership, tier: string) {
    m.active && m.billed && tier == if m.privileged then m.plan else m.seat
  }

  predicate Known(tier: string) { tier in {"free", "starter", "pro", "business", "enterprise"} }

  /** "free", "starter", "pro", "business", "enterprise", from the lowest to the highest. */
  predicate AtMost(a: string, b: string) {
    || a == "free" || a == b || b == "enterprise"
    || (a == "starter" && b in {"pro", "business"}) || (a == "pro" && b == "business")
  }

  lemma AtMostIsRank(a: string, b: string)
    requires Known(a) && Known(b)
    ensures Rank(a) >= 0 && (AtMost(a, b) <==> Rank(a) <= Rank(b))
  {
    TierTextsDiffer();
  }

  lemma TierTextsDiffer()
    ensures |"free"| == 4 && |"starter"| == 7 && |"pro"| == 3 && |"business"| == 8 && |"enterprise"| == 10
  {
  }

  lemma KnownIsRanked(tier: string)
    ensures Known(tier) <==> Rank(tier) >= 0
  {
  }

  /** Best among what the memberships bring, and free when nothing better is brought. */
  predicate BestDrop(ms: seq<Membership>, tier: string) {
    && Known(tier) && (tier == "free" || exists m | m in ms :: Brings(m, tier))
    && (forall m | m in ms :: BringsAtMost(m, tier))
  }

  predicate BringsAtMost(m: Membership, tier: string) {
    m.active && m.billed ==>
      var brought := if m.privileged then m.plan else m.seat;
      Known(brought) ==> AtMost(brought, tier)
  }

  lemma SeatBrought(m: Membership, r: int)
    requires Carries(m, r) && r > 0
    ensures Brings(m, DropSeat(m))
  {
    NormalizedRank(m.plan);
  }

  lemma BroughtSeat(m: Membership, t: string)
    requires Brings(m, t) && Known(t)
    ensures Eligible(m) && DropSeat(m) == t
  {
    KnownIsRanked(t);
  }

  lemma MaxIsBest(ms: seq<Membership>)
    ensures BestDrop(ms, ORDER[MaxRank(ms)])
  {
    var r := MaxRank(ms);
    RankOfOrder(r);
    KnownIsRanked(ORDER[r]);
    if r > 0 {
      var i := MaxRankCarried(ms);
      SeatBrought(ms[i], r);
      RankInjective(DropSeat(ms[i]), ORDER[r]);
      assert Brings(ms[i], ORDER[r]);
    }
    forall m | m in ms ensures BringsAtMost(m, ORDER[r]) {
      var t := if m.privileged then m.plan else m.seat;
      if Brings(m, t) && Known(t) {
        BroughtSeat(m, t);
        var i :| 0 <= i < |ms| && ms[i] == m;
        MaxRankBounds(ms, i);
        AtMostIsRank(t, ORDER[r]);
      }
    }
  }

  lemma BestIsUnique(ms: seq<Membership>, a: string, b: string)
    requires BestDrop(ms, a) && BestDrop(ms, b)
    ensures a == b
  {
    AtMostIsRank(a, b);
    AtMostIsRank(b, a);
    if a != "free" {
      var m :| m in ms && Brings(m, a);
      assert BringsAtMost(m, b);
    }
    if b != "free" {
      var m :| m in ms && Brings(m, b);
      assert BringsAtMost(m, a);
    }
    RankInjective(a, b);
  }

  /** The Drop tier from the memberships alone: it is free or brought by one that counts, and no known tier that one
      brings is above it. */
  lemma DropTierIsBest(ms: seq<Membership>, tier: string)
    ensures DropAnswer(ms, tier) <==> BestDrop(ms, tier)
  {
    DropTierIsMaximum(ms, tier);
    MaxIsBest(ms);
    if BestDrop(ms, tier) { BestIsUnique(ms, tier, ORDER[MaxRank(ms)]); }
  }

  /** What a membership brings for VPN access: an unknown plan and an empty seat as free, an unknown seat as it is. */
  predicate BringsVpn(m: Membership, tier: string) {
    m.active && m.billed &&
    tier == if m.privileged then (if Known(m.plan) then m.plan else "free") else if m.seat == "" then "free" else m.seat
  }

  /** An answer that some membership brings, and that is known and above every other known one, if there is any. */
  predicate BestVpn(ms: seq<Membership>, plan: string) {
    && (exists m | m in ms :: BringsVpn(m, plan))
    && forall m, t | m in ms && t in {m.plan, m.seat, "free"} && BringsVpn(m, t) && Known(t) ::
         Known(plan) && AtMost(t, plan)
  }

  lemma VpnBrought(m: Membership)
    ensures Eligible(m) <==> BringsVpn(m, VpnTier(m))
    ensures VpnTier(m) in {m.plan, m.seat, "free"}
  {
    KnownIsRanked(m.plan);
  }

  lemma TopIsBestVpn(ms: seq<Membership>, i: int)
    requires TopVpn(ms, i)
    ensures BestVpn(ms, VpnTier(ms[i]))
  {
    VpnBrought(ms[i]);
    var plan := VpnTier(ms[i]);
    forall m, t | m in ms && t in {m.plan, m.seat, "free"} && BringsVpn(m, t) && Known(t)
      ensures Known(plan) && AtMost(t, plan)
    {
      VpnBrought(m);
      var j :| 0 <= j < |ms| && ms[j] == m;
      assert t == VpnTier(ms[j]);
      KnownIsRanked(t);
      KnownIsRanked(plan);
      AtMostIsRank(t, plan);
    }
  }

  lemma BestVpnIsTop(ms: seq<Membership>, plan: string) returns (i: int)
    requires BestVpn(ms, plan)
    ensures TopVpn(ms, i) && plan == VpnTier(ms[i])
  {
    var m :| m in ms && BringsVpn(m, plan);
    i :| 0 <= i < |ms| && ms[i] == m;
    VpnBrought(ms[i]);
    forall j | 0 <= j < |ms| && Eligible(ms[j]) ensures Rank(VpnTier(ms[j])) <= Rank(VpnTier(ms[i])) {
      VpnBrought(ms[j]);
      var t := VpnTier(ms[j]);
      KnownIsRanked(t);
      KnownIsRanked(plan);
      if Known(t) {
        assert ms[j] in ms && BringsVpn(ms[j], t);
        AtMostIsRank(t, plan);
      }
    }
  }

  /** The VPN plan from the memberships alone: empty when none counts, and otherwise the best that is brought. */
  lemma VpnPlanIsBest(ms: seq<Membership>, plan: string)
    ensures VpnAnswer(ms, plan) <==>
              if forall m | m in ms :: !(m.active && m.billed) then plan == "" else BestVpn(ms, plan)
  {
    assert NoneEligible(ms) <==> forall m | m in ms :: !(m.active && m.billed) by {
      forall m | m in ms && NoneEligible(ms) ensures !(m.active && m.billed) {
        var i :| 0 <= i < |ms| && ms[i] == m;
        assert !Eligible(ms[i]);
      }
    }
    if !NoneEligible(ms) {
      if VpnAnswer(ms, plan) {
        var i :| TopVpn(ms, i) && plan == VpnTier(ms[i]);
        TopIsBestVpn(ms, i);
      }
      if BestVpn(ms, plan) { var i := BestVpnIsTop(ms, plan); }
    }
  }

  /** The two resolvers agree: the Drop tier is the VPN plan, normalized. */
  lemma ResolversAgree(ms: seq<Membership>, plan: string, tier: string)
    requires VpnAnswer(ms, plan) && DropAnswer(ms, tier)
    ensures tier == Normalize(plan)
  {
    DropTierIsMaximum(ms, tier);
    var r := MaxRank(ms);
    RankOfOrder(r);
    if !NoneEligible(ms) {
      var i :| TopVpn(ms, i) && plan == VpnTier(ms[i]);
      NormalizedRank(plan);
      VpnTopRank(ms, i);
      RankInjective(Normalize(plan), tier);
    }
  }

  lemma VpnTopRank(ms: seq<Membership>, i: int)
    requires TopVpn(ms, i)
    ensures Rank(Normalize(VpnTier(ms[i]))) == MaxRank(ms)
  {
    NormalizedRank(VpnTier(ms[i]));
    MaxRankBounds(ms, i);
    if MaxRank(ms) > 0 {
      var j := MaxRankCarried(ms);
      assert VpnTier(ms[j]) == DropSeat(ms[j]);
      assert Rank(VpnTier(ms[j])) <= Rank(VpnTier(ms[i]));
    }
  }

  /** They give the very same string if and only if some eligible membership carries a known tier, an empty seat
      counting as free. Otherwise the VPN plan is empty, or an unknown seat tier passed through as it is. */
  lemma AnswersEqualIff(ms: seq<Membership>, plan: string, tier: string)
    requires VpnAnswer(ms, plan) && DropAnswer(ms, tier)
    ensures plan == tier <==> exists i | 0 <= i < |ms| :: Eligible(ms[i]) && Rank(VpnTier(ms[i])) >= 0
  {
    ResolversAgree(ms, plan, tier);
    NormalizedRank(plan);
    assert Rank("") == -1;
  }

  /** A single seat of an unknown tier: the VPN plan is that text, the Drop tier is free. */
  lemma UnknownSeatDiffers()
    ensures var ms := [Membership(false, "basic", "gold", true, true)];
            VpnAnswer(ms, "gold") && DropAnswer(ms, "free") && "gold" != "free"
  {
    var ms := [Membership(false, "basic", "gold", true, true)];
    assert "gold"[0] == 'g' && "free"[0] == 'f' && "starter"[0] == 's' && "pro"[0] == 'p' && "business"[0] == 'b' &&
           "enterprise"[0] == 'e';
    assert Rank("gold") == -1;
    assert TopVpn(ms, 0) && TopDrop(ms, 0);
  }

  /** More memberships never lower the Drop tier or the quota that comes with it. */
  lemma MoreMembershipsNeverLower(ms: seq<Membership>, more: seq<Membership>, tier: string, tier2: string)
    requires forall m | m in ms :: m in more
    requires DropAnswer(ms, tier) && DropAnswer(more, tier2)
    ensures Rank(tier) <= Rank(tier2) && DefaultQuota(tier) <= DefaultQuota(tier2)
  {
    DropTierIsMaximum(ms, tier);
    DropTierIsMaximum(more, tier2);
    MaxRankGrows(ms, more);
    QuotaFollowsRank(MaxRank(ms), MaxRank(more));
  }

  lemma MaxRankGrows(ms: seq<Membership>, more: seq<Membership>)
    requires forall m | m in ms :: m in more
    ensures MaxRank(ms) <= MaxRank(more)
  {
    if MaxRank(ms) > 0 {
      var i := MaxRankCarried(ms);
      assert ms[i] in more;
      var j :| 0 <= j < |more| && more[j] == ms[i];
      MaxRankBounds(more, j);
    }
  }

  lemma QuotaFollowsRank(a: nat, b: nat)
    requires a <= b < 5
    ensures Rank(ORDER[a]) <= Rank(ORDER[b]) && DefaultQuota(ORDER[a]) <= DefaultQuota(ORDER[b])
  {
    RankOfOrder(a);
    RankOfOrder(b);
    NormalizedRank(ORDER[a]);
    NormalizedRank(ORDER[b]);
  }

  /** The built-in quotas in bytes; any other tier has the free one. */
  lemma BuiltInQuotas(tier: string)
    ensures DefaultQuota("free") == 500_000_000 && DefaultQuota("starter") == 1_000_000_000
    ensures DefaultQuota("pro") == 5_000_000_000 && DefaultQuota("business") == 10_000_000_000
    ensures DefaultQuota("enterprise") == 10_000_000_000
    ensures !Known(tier) ==> DefaultQuota(tier) == 500_000_000
  {
    TierTextsDiffer();
    KnownIsRanked(tier);
  }
}
