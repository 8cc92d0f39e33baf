/** The XP and referral tables as the store updates them, method by method. */
module XpStoreModel {
  import opened Wrappers
  import opened XpKeys
  import opened XpLedger
  import opened XpUptime
  import R = Referrals
  import P = ReferralPayments

  /** The scan over the thresholds, lowest first. */
  method TierForXP(xp: int, thresholds: seq<int>) returns (tier: nat)
    ensures tier == TierFor(xp, thresholds)
    ensures tier == 0 || (tier < |thresholds| && thresholds[tier] <= xp)
    ensures forall j | tier < j < |thresholds| :: xp < thresholds[j]
  {
    tier := 0;
    for i := 0 to |thresholds|
      invariant tier == TierFor(xp, thresholds[..i])
    {
      assert thresholds[..i + 1][..i] == thresholds[..i];
      if xp >= thresholds[i] {
        tier := i;
      }
    }
    assert thresholds[..|thresholds|] == thresholds;
  }

  /** The "next tier" of the rank answer: the first threshold strictly above the total. */
  method NextTierAt(earned: int, thresholds: seq<int>) returns (next: Option<int>)
    ensures var i := NextIndex(earned, thresholds);
            next == if i < |thresholds| then Some(thresholds[i]) else None
    ensures Ladder(thresholds) && earned >= 0 ==>
              var tier := TierFor(earned, thresholds);
              next == if tier + 1 < |thresholds| then Some(thresholds[tier + 1]) else None
  {
    if Ladder(thresholds) && earned >= 0 { NextFollows(earned, thresholds); }
    next := None;
    for i := 0 to |thresholds|
      invariant next.None? && forall j | 0 <= j < i :: thresholds[j] <= earned
    {
      if thresholds[i] > earned {
        return Some(thresholds[i]);
      }
    }
  }

  class XpStore {
    var users: map<Id, User>
    var events: seq<Event>
    const tierThresholds: seq<int>

    function View(): Ledger
      reads this
    {
      Ledger(users, events)
    }

    ghost predicate Valid()
      reads this
    {
      R.LedgerInv(View(), tierThresholds)
    }

    constructor (thresholds: seq<int>)
      ensures Valid() && users == map[] && events == [] && tierThresholds == thresholds
    {
      users, events, tierThresholds := map[], [], thresholds;
    }

    /** One transaction: event, total and tier together, or nothing. */
    method AwardXP(e: Event) returns (awarded: bool)
      modifies this
      ensures View() == Award(old(View()), tierThresholds, e)
      ensures awarded <==>
                e.user in old(users) &&
                (e.key == "" || forall i | 0 <= i < |old(events)| :: old(events)[i].key != e.key)
      ensures awarded ==> events == old(events) + [e] && users.Keys == old(users).Keys
      ensures awarded ==> users[e.user].earned == old(users)[e.user].earned + e.points
      ensures !awarded ==> View() == old(View())
    {
      if e.key != "" && exists i | 0 <= i < |events| :: events[i].key == e.key {
        return false;
      }
      if e.user !in users {
        return false;
      }
      var earned := users[e.user].earned + e.points;
      var tier := TierForXP(earned, tierThresholds);
      events := events + [e];
      users := users[e.user := users[e.user].(earned := earned, tier := tier)];
      return true;
    }

    /** The five healthy nodes with the latest heartbeats of every owner, each paid at most once a day. */
    method AwardOperatorUptimeXP(nodes: map<Id, NodeRow>, now: int, points: int, day: string)
      returns (healthy: seq<(Id, Id)>)
      modifies this
      ensures IsHealthyList(nodes, now, healthy)
      ensures View() == UptimePass(old(View()), tierThresholds, healthy, points, day)
    {
      healthy := HealthyNodes(nodes, now);
      for i := 0 to |healthy|
        invariant View() == UptimePass(old(View()), tierThresholds, healthy[..i], points, day)
      {
        assert healthy[..i + 1][..i] == healthy[..i];
        var _ := AwardXP(UptimeEvent(healthy[i].0, healthy[i].1, points, day));
      }
      assert healthy[..|healthy|] == healthy;
    }

    /** Bound only when no referrer was set, not to oneself, and to an existing user. */
    method BindReferrer(user: Id, referrer: Id) returns (bound: bool)
      requires Valid()
      modifies this
      ensures Valid() && View() == R.Bind(old(View()), user, referrer)
      ensures bound <==> R.CanBind(old(View()), user, referrer)
      ensures bound <==> user != referrer && user in old(users) && referrer in old(users) &&
                         old(users)[user].referrer.None?
      ensures bound ==> users == old(users)[user := old(users)[user].(referrer := Some(referrer))]
      ensures events == old(events) && (!bound ==> users == old(users))
      ensures forall u, r | R.Bound(old(View()), u, r) :: R.Bound(View(), u, r)
    {
      R.BindKeepsLedger(View(), tierThresholds, user, referrer);
      if user == referrer {
        return false;
      }
      if user !in users || users[user].referrer.Some? || referrer !in users {
        return false;
      }
      users := users[user := users[user].(referrer := Some(referrer))];
      return true;
    }

    /** Both awards of a referral, run alone: afterwards both are paid, once each, the referee the referee's points and
        the referrer the referrer's, and calling again changes nothing. */
    method AwardReferralXP(referee: Id, refereePoints: int, referrerPoints: int)
      requires Valid()
      modifies this
      ensures Valid()
      ensures P.IsBound(old(View()), referee) ==> P.Paid(View(), referee)
      ensures !P.IsBound(old(View()), referee) || P.Paid(old(View()), referee) ==> View() == old(View())
      ensures forall u | u in users && u != referee && !R.Bound(old(View()), referee, u) ::
          u in old(users) && users[u] == old(users)[u]
      ensures users.Keys == old(users).Keys
      ensures forall u | u in users :: users[u].earned == old(users)[u].earned +
                (if u == referee && P.IsBound(old(View()), u) && !P.RefereePaid(old(View()), u)
                 then refereePoints else 0) +
                (if R.Bound(old(View()), referee, u) && !P.ReferrerPaid(old(View()), referee)
                 then referrerPoints else 0)
    {
      if referee !in users || users[referee].referrer.None? {
        return;
      }
      var r := users[referee].referrer.value;
      BothAwardsPay(View(), tierThresholds, referee, r, refereePoints, referrerPoints);
      var _ := AwardXP(R.RefereeEvent(referee, r, refereePoints));
      var _ := AwardXP(R.ReferrerEvent(referee, r, referrerPoints));
    }
  }

  /** The two awards of a referral. */
  function BothAwards(l: Ledger, thresholds: seq<int>, referee: Id, r: Id, refereePoints: int, referrerPoints: int)
    : Ledger
  {
    Award(Award(l, thresholds, R.RefereeEvent(referee, r, refereePoints)), thresholds,
          R.ReferrerEvent(referee, r, referrerPoints))
  }

  lemma RefereeAward(l: Ledger, thresholds: seq<int>, referee: Id, r: Id, points: int)
    requires R.LedgerInv(l, thresholds) && R.Bound(l, referee, r)
    ensures var next := Award(l, thresholds, R.RefereeEvent(referee, r, points));
            && R.LedgerInv(next, thresholds) && R.Bound(next, referee, r) && next.users.Keys == l.users.Keys
            && P.RefereePaid(next, referee) && (P.ReferrerPaid(next, referee) <==> P.ReferrerPaid(l, referee))
            && next == (if P.RefereePaid(l, referee) then l else next)
            && forall u | u in l.users && u != referee :: next.users[u] == l.users[u]
    ensures var next := Award(l, thresholds, R.RefereeEvent(referee, r, points));
            next.users[referee].earned == l.users[referee].earned + if P.RefereePaid(l, referee) then 0 else points
  {
    var e := R.RefereeEvent(referee, r, points);
    KeysNeverCollide(RefereeKey(referee), RefereeKey(referee));
    KeysNeverCollide(RefereeKey(referee), ReferrerKey(referee));
    R.AwardKeepsLedger(l, thresholds, e);
    P.AwardPays(l, thresholds, e);
    HasKeySnoc(l.events, e, Render(ReferrerKey(referee)));
  }

  lemma ReferrerAward(l: Ledger, thresholds: seq<int>, referee: Id, r: Id, points: int)
    requires R.LedgerInv(l, thresholds) && R.Bound(l, referee, r)
    ensures var next := Award(l, thresholds, R.ReferrerEvent(referee, r, points));
            && R.LedgerInv(next, thresholds) && next.users.Keys == l.users.Keys && r in l.users
            && P.ReferrerPaid(next, referee) && (P.RefereePaid(next, referee) <==> P.RefereePaid(l, referee))
            && next == (if P.ReferrerPaid(l, referee) then l else next)
            && forall u | u in l.users && u != r :: next.users[u] == l.users[u]
    ensures var next := Award(l, thresholds, R.ReferrerEvent(referee, r, points));
            next.users[r].earned == l.users[r].earned + if P.ReferrerPaid(l, referee) then 0 else points
  {
    var e := R.ReferrerEvent(referee, r, points);
    assert R.ReferrerKnown(l, referee);
    KeysNeverCollide(ReferrerKey(referee), ReferrerKey(referee));
    KeysNeverCollide(RefereeKey(referee), ReferrerKey(referee));
    R.AwardKeepsLedger(l, thresholds, e);
    P.AwardPays(l, thresholds, e);
    HasKeySnoc(l.events, e, Render(RefereeKey(referee)));
  }

  /** Each side is paid once, its own points; nobody else is. */
  lemma BothAwardsPay(l: Ledger, thresholds: seq<int>, referee: Id, r: Id, refereePoints: int, referrerPoints: int)
    requires R.LedgerInv(l, thresholds) && R.Bound(l, referee, r)
    ensures var next := BothAwards(l, thresholds, referee, r, refereePoints, referrerPoints);
            && R.LedgerInv(next, thresholds) && P.Paid(next, referee) && next.users.Keys == l.users.Keys
            && (P.Paid(l, referee) ==> next == l) && r != referee
            && (forall u | u in l.users && u != referee && u != r :: next.users[u] == l.users[u])
            && r in l.users
            && next.users[referee].earned ==
                 l.users[referee].earned + (if P.RefereePaid(l, referee) then 0 else refereePoints)
            && next.users[r].earned == l.users[r].earned + (if P.ReferrerPaid(l, referee) then 0 else referrerPoints)
  {
    assert R.ReferrerKnown(l, referee);
    RefereeAward(l, thresholds, referee, r, refereePoints);
    ReferrerAward(Award(l, thresholds, R.RefereeEvent(referee, r, refereePoints)), thresholds, referee, r,
                  referrerPoints);
  }
}
