/** What referrals add up to. */
module ReferralTotals {
  import opened XpKeys
  import opened XpLedger
  import opened Referrals
  import opened ReferralPayments

  /** A user's points from referrals, on either side. */
  function ReferralPoints(events: seq<Event>, u: Id): int {
    if events == [] then 0
    else
      var e := events[|events| - 1];
      ReferralPoints(events[..|events| - 1], u) + if e.user == u && !e.meta.NoMeta? then e.points else 0
  }

  /** A payment step pays the configured points. */
  predicate PaysPoints(s: State, step: Step, refereePoints: int, referrerPoints: int) {
    step.Continue? && step.handler in s.running ==>
      && (s.running[step.handler].PayReferee? ==> step.points == refereePoints)
      && (s.running[step.handler].PayReferrer? ==> step.points == referrerPoints)
  }

  ghost predicate PointsRun(s: State, thresholds: seq<int>, steps: seq<Step>, refereePoints: int, referrerPoints: int)
    decreases |steps|
  {
    steps == [] ||
    (PaysPoints(s, steps[0], refereePoints, referrerPoints) &&
     PointsRun(Next(s, thresholds, steps[0]), thresholds, steps[1..], refereePoints, referrerPoints))
  }

  predicate PointsFit(e: Event, refereePoints: int, referrerPoints: int) {
    && (e.meta.AsReferee? ==> e.points == refereePoints)
    && (e.meta.AsReferrer? ==> e.points == referrerPoints)
  }

  ghost predicate AllFit(events: seq<Event>, refereePoints: int, referrerPoints: int) {
    forall i | 0 <= i < |events| :: PointsFit(events[i], refereePoints, referrerPoints)
  }

  lemma StepFits(s: State, thresholds: seq<int>, step: Step, refereePoints: int, referrerPoints: int)
    requires AllFit(s.ledger.events, refereePoints, referrerPoints)
    requires PaysPoints(s, step, refereePoints, referrerPoints)
    ensures AllFit(Next(s, thresholds, step).ledger.events, refereePoints, referrerPoints)
  {
  }

  lemma {:induction false} RunFits(s: State, thresholds: seq<int>, steps: seq<Step>, refereePoints: int,
                                   referrerPoints: int)
    requires AllFit(s.ledger.events, refereePoints, referrerPoints)
    requires PointsRun(s, thresholds, steps, refereePoints, referrerPoints)
    ensures AllFit(Run(s, thresholds, steps).ledger.events, refereePoints, referrerPoints)
    decreases |steps|
  {
    if steps != [] {
      StepFits(s, thresholds, steps[0], refereePoints, referrerPoints);
      RunFits(Next(s, thresholds, steps[0]), thresholds, steps[1..], refereePoints, referrerPoints);
    }
  }

  /** An event with the referee key of a user is the one event that pays the user as a referee. */
  lemma RefereeKeyIff(l: Ledger, thresholds: seq<int>, i: nat, u: Id)
    requires LedgerInv(l, thresholds) && i < |l.events|
    ensures l.events[i].key == Render(RefereeKey(u)) <==> l.events[i].meta.AsReferee? && l.events[i].user == u
  {
    var e := l.events[i];
    assert Justified(l, i);
    KeysNeverCollide(RefereeKey(u), RefereeKey(e.user));
    if e.meta.AsReferrer? { KeysNeverCollide(RefereeKey(u), ReferrerKey(e.meta.referee)); }
  }

  lemma ReferrerKeyIff(l: Ledger, thresholds: seq<int>, i: nat, v: Id)
    requires LedgerInv(l, thresholds) && i < |l.events|
    ensures l.events[i].key == Render(ReferrerKey(v)) <==>
              l.events[i].meta.AsReferrer? && l.events[i].meta.referee == v
  {
    var e := l.events[i];
    assert Justified(l, i);
    KeysNeverCollide(ReferrerKey(v), RefereeKey(e.user));
    if e.meta.AsReferrer? { KeysNeverCollide(ReferrerKey(v), ReferrerKey(e.meta.referee)); }
  }

  lemma OneMore(points: int, count: nat)
    ensures points * (count + 1) == points * count + points
  {
  }

  /** What one more event adds: points, the referee key, a referee paid for. */
  lemma EventAdds(l: Ledger, thresholds: seq<int>, n: nat, u: Id)
    requires LedgerInv(l, thresholds) && 0 < n <= |l.events|
    ensures var before, now, e := l.events[..n - 1], l.events[..n], l.events[n - 1];
            var asReferee, asReferrer := e.user == u && e.meta.AsReferee?, e.user == u && e.meta.AsReferrer?;
            && ReferralPoints(now, u) ==
                 ReferralPoints(before, u) + (if asReferee || asReferrer then e.points else 0)
            && (HasKey(now, Render(RefereeKey(u))) <==> HasKey(before, Render(RefereeKey(u))) || asReferee)
            && !(HasKey(before, Render(RefereeKey(u))) && asReferee)
            && |PaidReferees(now, u)| == |PaidReferees(before, u)| + if asReferrer then 1 else 0
  {
    var before, e := l.events[..n - 1], l.events[n - 1];
    assert before == l.events[..n][..n - 1] && l.events[..n] == before + [e];
    HasKeySnoc(before, e, Render(RefereeKey(u)));
    RefereeKeyIff(l, thresholds, n - 1, u);
    if e.meta.AsReferee? && e.user == u {
      KeysNeverCollide(RefereeKey(u), RefereeKey(u));
      forall i | 0 <= i < n - 1 ensures before[i].key != e.key { assert KeyOnce(l.events, i, n - 1); }
    }
    if e.meta.AsReferrer? && e.user == u { NewReferee(l, thresholds, n, u); }
  }

  lemma {:induction false} PointsByRole(l: Ledger, thresholds: seq<int>, n: nat, u: Id, refereePoints: int,
                                        referrerPoints: int)
    requires LedgerInv(l, thresholds) && AllFit(l.events, refereePoints, referrerPoints) && n <= |l.events|
    ensures ReferralPoints(l.events[..n], u) ==
              (if HasKey(l.events[..n], Render(RefereeKey(u))) then refereePoints else 0) +
              referrerPoints * |PaidReferees(l.events[..n], u)|
  {
    if n > 0 {
      PointsByRole(l, thresholds, n - 1, u, refereePoints, referrerPoints);
      EventAdds(l, thresholds, n, u);
      var e, before := l.events[n - 1], |PaidReferees(l.events[..n - 1], u)|;
      assert PointsFit(e, refereePoints, referrerPoints);
      if e.user == u && e.meta.AsReferrer? { OneMore(referrerPoints, before); }
    }
  }

  lemma {:induction false} PaidRefereesHas(events: seq<Event>, i: nat)
    requires i < |events| && events[i].meta.AsReferrer?
    ensures events[i].meta.referee in PaidReferees(events, events[i].user)
  {
    if i < |events| - 1 { PaidRefereesHas(events[..|events| - 1], i); }
  }

  /** The users for whom a referrer was paid. */
  ghost function PaidFor(l: Ledger, r: Id): set<Id> { set v | v in l.users && Bound(l, v, r) && ReferrerPaid(l, v) }

  lemma PaidForIsPaidReferees(l: Ledger, thresholds: seq<int>, r: Id)
    requires LedgerInv(l, thresholds)
    ensures PaidReferees(l.events, r) == PaidFor(l, r)
  {
    assert l.events[..|l.events|] == l.events;
    forall v ensures v in PaidReferees(l.events, r) <==> v in PaidFor(l, r) {
      if v in PaidReferees(l.events, r) { PaidRefereesHaveKeys(l, |l.events|, r, v); }
      if v in PaidFor(l, r) {
        var i :| 0 <= i < |l.events| && l.events[i].key == Render(ReferrerKey(v));
        ReferrerKeyIff(l, thresholds, i, v);
        assert Justified(l, i);
        PaidRefereesHas(l.events, i);
      }
    }
  }

  /** In every reachable state of a run that pays the configured points, a user's referral points are the referee's
      points, if the user was paid as a referee, and the referrer's points once for every referee paid for. */
  lemma ReferralPointsAddUp(thresholds: seq<int>, steps: seq<Step>, u: Id, refereePoints: int, referrerPoints: int)
    requires PointsRun(Initial(), thresholds, steps, refereePoints, referrerPoints)
    ensures var l := Run(Initial(), thresholds, steps).ledger;
            ReferralPoints(l.events, u) ==
              (if RefereePaid(l, u) then refereePoints else 0) + referrerPoints * |PaidFor(l, u)|
  {
    var l := Run(Initial(), thresholds, steps).ledger;
    InitialInv(thresholds);
    RunKeepsInv(Initial(), thresholds, steps);
    RunFits(Initial(), thresholds, steps, refereePoints, referrerPoints);
    assert l.events[..|l.events|] == l.events;
    PointsByRole(l, thresholds, |l.events|, u, refereePoints, referrerPoints);
    PaidForIsPaidReferees(l, thresholds, u);
  }

  /** And the referral leaderboard counts exactly the referees paid for. */
  lemma LeaderboardCountsPaid(thresholds: seq<int>, steps: seq<Step>, r: Id)
    ensures var l := Run(Initial(), thresholds, steps).ledger;
            ReferrerEvents(l.events, r) == |PaidFor(l, r)|
  {
    var l := Run(Initial(), thresholds, steps).ledger;
    InitialInv(thresholds);
    RunKeepsInv(Initial(), thresholds, steps);
    assert l.events[..|l.events|] == l.events;
    CountIsPaidReferees(l, thresholds, |l.events|, r);
    PaidForIsPaidReferees(l, thresholds, r);
  }
}
