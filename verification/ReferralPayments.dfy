/** Whether a referral is paid in the end. */
module ReferralPayments {
  import opened XpKeys
  import opened XpLedger
  import opened Referrals

  // ---- Both sides are paid ------------------------------------------------------------------------------

  predicate RefereePaid(l: Ledger, u: Id) { HasKey(l.events, Render(RefereeKey(u))) }

  predicate ReferrerPaid(l: Ledger, u: Id) { HasKey(l.events, Render(ReferrerKey(u))) }

  predicate Paid(l: Ledger, u: Id) { RefereePaid(l, u) && ReferrerPaid(l, u) }

  /** A handler that still will pay what is missing for u, if nothing fails. */
  predicate InCharge(s: State, h: nat, u: Id) {
    h in s.running && s.running[h].user == u && !s.running[h].CreateOrg? &&
    (s.running[h].PayReferrer? ==> RefereePaid(s.ledger, u))
  }

  predicate IsBound(l: Ledger, u: Id) { u in l.users && l.users[u].referrer.Some? }

  /** The users whose handler a step lets go on to the payments: membership was seen, or the organization created. */
  function QualifiedBy(s: State, step: Step): set<Id> {
    if step.Continue? && step.ok && step.handler in s.running then
      match s.running[step.handler]
      case CheckMember(u) => if u in s.members then {u} else {}
      case CreateOrg(u) => {u}
      case _ => {}
    else {}
  }

  /** The users some handler found, or made, a member of an organization while the steps ran. */
  function Qualified(s: State, thresholds: seq<int>, steps: seq<Step>): set<Id>
    decreases |steps|
  {
    if steps == [] then {}
    else QualifiedBy(s, steps[0]) + Qualified(Next(s, thresholds, steps[0]), thresholds, steps[1..])
  }

  predicate Idle(s: State, u: Id) { forall h | h in s.running :: s.running[h].user != u }

  predicate PastCheck(s: State, h: nat, u: Id) {
    h in s.running && s.running[h].user == u && !s.running[h].CheckMember? && !s.running[h].CreateOrg?
  }

  /** Whoever is past the check, or paid on either side, has qualified. */
  ghost predicate Earned(s: State, u: Id, qualified: bool) {
    && (forall h :: PastCheck(s, h, u) ==> qualified)
    && (RefereePaid(s.ledger, u) || ReferrerPaid(s.ledger, u) ==> qualified)
  }

  /** Once the user is bound and has qualified, the referral is paid or some handler is in charge of it. */
  ghost predicate Owed(s: State, u: Id, qualified: bool) {
    && (qualified ==> u in s.members)
    && (IsBound(s.ledger, u) && qualified ==> Paid(s.ledger, u) || exists h :: InCharge(s, h, u))
  }

  predicate Reliable(step: Step) { !step.Crash? && (step.Continue? ==> step.ok) }

  /** The user stays a member. */
  predicate Stays(step: Step, u: Id) { step != Leave(u) && (step.CloseOrg? ==> u !in step.gone) }

  /** The handler is at one of the two payments. */
  predicate Paying(s: State, h: nat, u: Id) {
    h in s.running && s.running[h].user == u && (s.running[h].PayReferee? || s.running[h].PayReferrer?)
  }

  lemma KeysStay(l: Ledger, thresholds: seq<int>, e: Event, key: string)
    requires HasKey(l.events, key)
    ensures HasKey(Award(l, thresholds, e).events, key)
  {
    HasKeySnoc(l.events, e, key);
  }

  lemma AwardPays(l: Ledger, thresholds: seq<int>, e: Event)
    requires e.user in l.users && e.key != ""
    ensures HasKey(Award(l, thresholds, e).events, e.key)
  {
    HasKeySnoc(l.events, e, e.key);
  }

  /** Payments are never undone. */
  lemma StepKeepsPaid(s: State, thresholds: seq<int>, step: Step, u: Id)
    ensures RefereePaid(s.ledger, u) ==> RefereePaid(Next(s, thresholds, step).ledger, u)
    ensures ReferrerPaid(s.ledger, u) ==> ReferrerPaid(Next(s, thresholds, step).ledger, u)
  {
    var e := AwardedBy(s, step);
    if RefereePaid(s.ledger, u) { KeysStay(s.ledger, thresholds, e, Render(RefereeKey(u))); }
    if ReferrerPaid(s.ledger, u) { KeysStay(s.ledger, thresholds, e, Render(ReferrerKey(u))); }
  }

  /** The event a step tries to append, when it is a paying one. */
  function AwardedBy(s: State, step: Step): Event {
    match step
    case OtherAward(u, kind, points, key) => Event(u, kind, points, NoMeta, if key.Some? then Render(key.value) else "")
    case Continue(h, ok, points) =>
      if h in s.running && s.running[h].PayReferee? then RefereeEvent(s.running[h].user, s.running[h].referrer, points)
      else if h in s.running && s.running[h].PayReferrer?
        then ReferrerEvent(s.running[h].user, s.running[h].referrer, points)
      else Event("", "", 0, NoMeta, "")
    case _ => Event("", "", 0, NoMeta, "")
  }

  lemma OwnStepKeepsCharge(s: State, thresholds: seq<int>, h: nat, points: int, u: Id)
    requires ReferralInv(s, thresholds) && InCharge(s, h, u)
    requires Paying(s, h, u) || (IsBound(s.ledger, u) && u in s.members)
    ensures var next := Proceed(s, thresholds, h, true, points);
            Paid(next.ledger, u) || (InCharge(next, h, u) && (Paying(s, h, u) ==> Paying(next, h, u)))
  {
    assert PhaseKnown(s, h) && ReferrerKnown(s.ledger, u);
    match s.running[h]
    case CheckMember(_) =>
    case ReadReferrer(_) =>
    case PayReferee(_, r) =>
      KeysNeverCollide(RefereeKey(u), RefereeKey(u));
      AwardPays(s.ledger, thresholds, RefereeEvent(u, r, points));
    case PayReferrer(_, r) =>
      KeysNeverCollide(ReferrerKey(u), ReferrerKey(u));
      AwardPays(s.ledger, thresholds, ReferrerEvent(u, r, points));
      KeysStay(s.ledger, thresholds, ReferrerEvent(u, r, points), Render(RefereeKey(u)));
  }

  lemma OtherStepKeepsCharge(s: State, thresholds: seq<int>, step: Step, u: Id, h: nat)
    requires InCharge(s, h, u) && Reliable(step) && (step.Continue? ==> step.handler != h)
    ensures InCharge(Next(s, thresholds, step), h, u) && (Paying(s, h, u) ==> Paying(Next(s, thresholds, step), h, u))
  {
    StepKeepsPaid(s, thresholds, step, u);
  }

  /** The handler in charge stays in charge or has finished both payments. */
  lemma ChargeKept(s: State, thresholds: seq<int>, step: Step, u: Id, h: nat)
    requires ReferralInv(s, thresholds) && Reliable(step) && InCharge(s, h, u)
    requires Paying(s, h, u) || (IsBound(s.ledger, u) && u in s.members)
    ensures var next := Next(s, thresholds, step);
            Paid(next.ledger, u) || (InCharge(next, h, u) && (Paying(s, h, u) ==> Paying(next, h, u)))
  {
    if step.Continue? && step.handler == h {
      OwnStepKeepsCharge(s, thresholds, h, step.points, u);
    } else {
      OtherStepKeepsCharge(s, thresholds, step, u, h);
    }
  }

  lemma StepKeepsOwed(s: State, thresholds: seq<int>, step: Step, u: Id, qualified: bool)
    requires ReferralInv(s, thresholds) && Reliable(step) && Stays(step, u) && Owed(s, u, qualified)
    ensures Owed(Next(s, thresholds, step), u, qualified || u in QualifiedBy(s, step))
  {
    var next := Next(s, thresholds, step);
    StepKeepsPaid(s, thresholds, step, u);
    if IsBound(next.ledger, u) && (qualified || u in QualifiedBy(s, step)) && !Paid(next.ledger, u) {
      if u in QualifiedBy(s, step) {
        assert InCharge(next, step.handler, u);
      } else if IsBound(s.ledger, u) {
        var h :| InCharge(s, h, u);
        ChargeKept(s, thresholds, step, u, h);
      } else {
        assert step.Redeem? && InCharge(next, step.handler, u);
      }
    }
  }

  /** Only a handler of the user writes the user's two referral keys. */
  lemma OnlyOwnHandlerPays(s: State, thresholds: seq<int>, step: Step, u: Id)
    requires step.Continue? && step.handler in s.running ==> s.running[step.handler].user != u
    ensures RefereePaid(Next(s, thresholds, step).ledger, u) == RefereePaid(s.ledger, u)
    ensures ReferrerPaid(Next(s, thresholds, step).ledger, u) == ReferrerPaid(s.ledger, u)
  {
    var e := AwardedBy(s, step);
    HasKeySnoc(s.ledger.events, e, Render(RefereeKey(u)));
    HasKeySnoc(s.ledger.events, e, Render(ReferrerKey(u)));
    if step.Continue? && step.handler in s.running {
      var v := s.running[step.handler].user;
      KeysNeverCollide(RefereeKey(u), RefereeKey(v));
      KeysNeverCollide(ReferrerKey(u), ReferrerKey(v));
      KeysNeverCollide(RefereeKey(u), ReferrerKey(v));
      KeysNeverCollide(ReferrerKey(u), RefereeKey(v));
    } else if step.OtherAward? && OtherKey(step.key) {
      OtherEventJustified(s.ledger, e, step.key);
    }
  }

  lemma StepKeepsEarned(s: State, thresholds: seq<int>, step: Step, u: Id, qualified: bool)
    requires Earned(s, u, qualified)
    ensures Earned(Next(s, thresholds, step), u, qualified || u in QualifiedBy(s, step))
  {
    var next := Next(s, thresholds, step);
    forall h | PastCheck(next, h, u) ensures qualified || u in QualifiedBy(s, step) {
      assert PastCheck(s, h, u) ==> qualified;
    }
    if step.Continue? && step.handler in s.running && s.running[step.handler].user == u {
      assert PastCheck(s, step.handler, u) ==> qualified;
    } else {
      OnlyOwnHandlerPays(s, thresholds, step, u);
    }
  }

  lemma {:induction false} RunKeepsEarned(s: State, thresholds: seq<int>, steps: seq<Step>, u: Id, qualified: bool)
    requires Earned(s, u, qualified)
    ensures Earned(Run(s, thresholds, steps), u, qualified || u in Qualified(s, thresholds, steps))
    decreases |steps|
  {
    if steps != [] {
      StepKeepsEarned(s, thresholds, steps[0], u, qualified);
      RunKeepsEarned(Next(s, thresholds, steps[0]), thresholds, steps[1..], u, qualified ||
        u in QualifiedBy(s, steps[0]));
    }
  }

  lemma {:induction false} RunKeepsOwed(s: State, thresholds: seq<int>, steps: seq<Step>, u: Id, qualified: bool)
    requires ReferralInv(s, thresholds) && Owed(s, u, qualified)
    requires forall i | 0 <= i < |steps| :: Reliable(steps[i]) && Stays(steps[i], u)
    ensures Owed(Run(s, thresholds, steps), u, qualified || u in Qualified(s, thresholds, steps))
    decreases |steps|
  {
    if steps != [] {
      StepKeepsInv(s, thresholds, steps[0]);
      StepKeepsOwed(s, thresholds, steps[0], u, qualified);
      assert forall i | 0 <= i < |steps[1..]| :: steps[1..][i] == steps[i + 1];
      RunKeepsOwed(Next(s, thresholds, steps[0]), thresholds, steps[1..], u, qualified ||
        u in QualifiedBy(s, steps[0]));
    }
  }

  /** Whatever fails or crashes, and whoever leaves: nobody is paid on either side who never qualified. */
  lemma PaidOnlyIfQualified(thresholds: seq<int>, steps: seq<Step>, u: Id)
    ensures var l := Run(Initial(), thresholds, steps).ledger;
            RefereePaid(l, u) || ReferrerPaid(l, u) ==> u in Qualified(Initial(), thresholds, steps)
  {
    RunKeepsEarned(Initial(), thresholds, steps, u, false);
  }

  /** When no call failed and the user never left, a bound user with no handler running any more has been paid, and so
      has the referrer, if and only if some handler found the user a member of an organization or created one. */
  lemma PaidIffQualified(thresholds: seq<int>, steps: seq<Step>, u: Id)
    requires forall i | 0 <= i < |steps| :: Reliable(steps[i]) && Stays(steps[i], u)
    ensures var s := Run(Initial(), thresholds, steps);
            IsBound(s.ledger, u) && Idle(s, u) ==>
              (Paid(s.ledger, u) <==> u in Qualified(Initial(), thresholds, steps))
  {
    InitialInv(thresholds);
    PaidOnlyIfQualified(thresholds, steps, u);
    RunKeepsOwed(Initial(), thresholds, steps, u, false);
  }

  lemma {:induction false} CreatedQualified(s: State, thresholds: seq<int>, steps: seq<Step>, u: Id)
    requires u in Run(s, thresholds, steps).created
    ensures u in s.created || u in Qualified(s, thresholds, steps)
    decreases |steps|
  {
    if steps != [] { CreatedQualified(Next(s, thresholds, steps[0]), thresholds, steps[1..], u); }
  }

  /** However the redeeming and the bootstrapping of one user interleave with each other and with everything else:
      when no call failed, the user never left, and no handler of the user is still running, a bound user whose
      bootstrap created the organization has been paid, and so has the referrer. */
  lemma BothSidesPaid(thresholds: seq<int>, steps: seq<Step>, u: Id)
    requires forall i | 0 <= i < |steps| :: Reliable(steps[i]) && Stays(steps[i], u)
    ensures var s := Run(Initial(), thresholds, steps);
            IsBound(s.ledger, u) && u in s.created && Idle(s, u) ==> Paid(s.ledger, u)
  {
    PaidIffQualified(thresholds, steps, u);
    if u in Run(Initial(), thresholds, steps).created { CreatedQualified(Initial(), thresholds, steps, u); }
  }

  // ---- Users who leave ---------------------------------------------------------------------------------------

  /** The user whose referrer a step finds. */
  function StartedBy(s: State, step: Step): set<Id> {
    if step.Continue? && step.ok && step.handler in s.running && s.running[step.handler].ReadReferrer? &&
       IsBound(s.ledger, s.running[step.handler].user)
    then {s.running[step.handler].user}
    else {}
  }

  /** The users whose referrer some handler found while the steps ran. */
  function Started(s: State, thresholds: seq<int>, steps: seq<Step>): set<Id>
    decreases |steps|
  {
    if steps == [] then {} else StartedBy(s, steps[0]) + Started(Next(s, thresholds, steps[0]), thresholds, steps[1..])
  }

  /** Payments are made only for users whose referrer was found; and for those they are made, or are under way. */
  ghost predicate Accounted(s: State, u: Id, started: bool) {
    && (forall h :: Paying(s, h, u) ==> started)
    && (RefereePaid(s.ledger, u) || ReferrerPaid(s.ledger, u) ==> started)
  }

  ghost predicate UnderWay(s: State, u: Id, started: bool) {
    started ==> Paid(s.ledger, u) || exists h :: InCharge(s, h, u) && Paying(s, h, u)
  }

  lemma StepKeepsAccounted(s: State, thresholds: seq<int>, step: Step, u: Id, started: bool)
    requires Accounted(s, u, started)
    ensures Accounted(Next(s, thresholds, step), u, started || u in StartedBy(s, step))
  {
    var next := Next(s, thresholds, step);
    forall h | Paying(next, h, u) ensures started || u in StartedBy(s, step) {
      assert Paying(s, h, u) ==> started;
    }
    if step.Continue? && step.handler in s.running && s.running[step.handler].user == u {
      assert Paying(s, step.handler, u) ==> started;
    } else {
      OnlyOwnHandlerPays(s, thresholds, step, u);
    }
  }

  lemma StepKeepsUnderWay(s: State, thresholds: seq<int>, step: Step, u: Id, started: bool)
    requires ReferralInv(s, thresholds) && Reliable(step) && UnderWay(s, u, started)
    ensures UnderWay(Next(s, thresholds, step), u, started || u in StartedBy(s, step))
  {
    var next := Next(s, thresholds, step);
    StepKeepsPaid(s, thresholds, step, u);
    if u in StartedBy(s, step) {
      assert InCharge(next, step.handler, u) && Paying(next, step.handler, u);
    } else if started && !Paid(s.ledger, u) {
      var h :| InCharge(s, h, u) && Paying(s, h, u);
      ChargeKept(s, thresholds, step, u, h);
    }
  }

  lemma {:induction false} RunKeepsAccounted(s: State, thresholds: seq<int>, steps: seq<Step>, u: Id, started: bool)
    requires Accounted(s, u, started)
    ensures Accounted(Run(s, thresholds, steps), u, started || u in Started(s, thresholds, steps))
    decreases |steps|
  {
    if steps != [] {
      StepKeepsAccounted(s, thresholds, steps[0], u, started);
      RunKeepsAccounted(Next(s, thresholds, steps[0]), thresholds, steps[1..], u,
                        started || u in StartedBy(s, steps[0]));
    }
  }

  lemma {:induction false} RunKeepsUnderWay(s: State, thresholds: seq<int>, steps: seq<Step>, u: Id, started: bool)
    requires ReferralInv(s, thresholds) && UnderWay(s, u, started)
    requires forall i | 0 <= i < |steps| :: Reliable(steps[i])
    ensures UnderWay(Run(s, thresholds, steps), u, started || u in Started(s, thresholds, steps))
    decreases |steps|
  {
    if steps != [] {
      StepKeepsInv(s, thresholds, steps[0]);
      StepKeepsUnderWay(s, thresholds, steps[0], u, started);
      assert forall i | 0 <= i < |steps[1..]| :: steps[1..][i] == steps[i + 1];
      RunKeepsUnderWay(Next(s, thresholds, steps[0]), thresholds, steps[1..], u,
                       started || u in StartedBy(s, steps[0]));
    }
  }

  /** When no call failed, whoever joins, leaves or closes what: a user with no handler running any more has been paid,
      and so has the referrer, if and only if some handler got as far as finding the referrer. */
  lemma PaidIffStarted(thresholds: seq<int>, steps: seq<Step>, u: Id)
    requires forall i | 0 <= i < |steps| :: Reliable(steps[i])
    ensures var s := Run(Initial(), thresholds, steps);
            Idle(s, u) ==> (Paid(s.ledger, u) <==> u in Started(Initial(), thresholds, steps))
  {
    InitialInv(thresholds);
    RunKeepsAccounted(Initial(), thresholds, steps, u, false);
    RunKeepsUnderWay(Initial(), thresholds, steps, u, false);
  }

  // ---- Runs with failures ------------------------------------------------------------------------------------

  /** The payment a step completes, by its key. */
  function CalledBy(s: State, step: Step): set<Key> {
    if step.Continue? && step.ok && step.handler in s.running then
      match s.running[step.handler]
      case PayReferee(u, _) => {RefereeKey(u)}
      case PayReferrer(u, _) => {ReferrerKey(u)}
      case _ => {}
    else {}
  }

  function Called(s: State, thresholds: seq<int>, steps: seq<Step>): set<Key>
    decreases |steps|
  {
    if steps == [] then {} else CalledBy(s, steps[0]) + Called(Next(s, thresholds, steps[0]), thresholds, steps[1..])
  }

  predicate ReferralKey(k: Key) { k.RefereeKey? || k.ReferrerKey? }

  lemma StepPaidIffCalled(s: State, thresholds: seq<int>, step: Step, k: Key)
    requires ReferralInv(s, thresholds) && ReferralKey(k)
    ensures HasKey(Next(s, thresholds, step).ledger.events, Render(k)) <==>
              HasKey(s.ledger.events, Render(k)) || k in CalledBy(s, step)
  {
    var e := AwardedBy(s, step);
    HasKeySnoc(s.ledger.events, e, Render(k));
    if step.Continue? && step.handler in s.running {
      var v := s.running[step.handler].user;
      assert PhaseKnown(s, step.handler) && ReferrerKnown(s.ledger, v);
      KeysNeverCollide(k, RefereeKey(v));
      KeysNeverCollide(k, ReferrerKey(v));
    } else if step.OtherAward? && OtherKey(step.key) {
      OtherEventJustified(s.ledger, e, step.key);
    }
  }

  lemma {:induction false} RunPaidIffCalled(s: State, thresholds: seq<int>, steps: seq<Step>, k: Key)
    requires ReferralInv(s, thresholds) && ReferralKey(k)
    ensures HasKey(Run(s, thresholds, steps).ledger.events, Render(k)) <==>
              HasKey(s.ledger.events, Render(k)) || k in Called(s, thresholds, steps)
    decreases |steps|
  {
    if steps != [] {
      StepPaidIffCalled(s, thresholds, steps[0], k);
      StepKeepsInv(s, thresholds, steps[0]);
      RunPaidIffCalled(Next(s, thresholds, steps[0]), thresholds, steps[1..], k);
    }
  }

  /** With failing calls, crashes and leaving members: a side is paid if and only if some payment call for it
      succeeded. No such call is ever refused, and nothing else pays it. */
  lemma SidePaidIffCalled(thresholds: seq<int>, steps: seq<Step>, u: Id)
    ensures var l := Run(Initial(), thresholds, steps).ledger;
            && (RefereePaid(l, u) <==> RefereeKey(u) in Called(Initial(), thresholds, steps))
            && (ReferrerPaid(l, u) <==> ReferrerKey(u) in Called(Initial(), thresholds, steps))
  {
    InitialInv(thresholds);
    RunPaidIffCalled(Initial(), thresholds, steps, RefereeKey(u));
    RunPaidIffCalled(Initial(), thresholds, steps, ReferrerKey(u));
  }

  // ---- Unpaid for good ------------------------------------------------------------------------------------------

  /** Settled: bound, owning an organization, and with no handler of the user running. */
  predicate AtRest(s: State, u: Id) { IsBound(s.ledger, u) && u in s.owners && Idle(s, u) }

  /** The user does not part with the last organization. */
  predicate KeepsOrg(step: Step, u: Id) {
    !(step.CloseOrg? && step.owner == u) && !(step.TransferOrg? && step.owner == u)
  }

  lemma StepKeepsAtRest(s: State, thresholds: seq<int>, step: Step, u: Id)
    requires AtRest(s, u) && KeepsOrg(step, u)
    ensures AtRest(Next(s, thresholds, step), u)
  {
  }

  /** What was not paid by then is never paid while the user owns an organization: no later handler starts a payment for
      that user. */
  lemma {:induction false} UnpaidForever(s: State, thresholds: seq<int>, steps: seq<Step>, u: Id)
    requires AtRest(s, u) && forall i | 0 <= i < |steps| :: KeepsOrg(steps[i], u)
    ensures var end := Run(s, thresholds, steps).ledger;
            RefereePaid(end, u) == RefereePaid(s.ledger, u) && ReferrerPaid(end, u) == ReferrerPaid(s.ledger, u)
    decreases |steps|
  {
    if steps != [] {
      OnlyOwnHandlerPays(s, thresholds, steps[0], u);
      StepKeepsAtRest(s, thresholds, steps[0], u);
      assert forall i | 0 <= i < |steps[1..]| :: steps[1..][i] == steps[i + 1];
      UnpaidForever(Next(s, thresholds, steps[0]), thresholds, steps[1..], u);
    }
  }

  /** A login from its bootstrap on. */
  function LoginSteps(h: nat, u: Id): seq<Step> {
    [Bootstrap(h, u), Continue(h, true, 5)] + [Continue(h, true, 5), Continue(h, true, 5)] + [Continue(h, true, 5)]
  }

  lemma LoginPays(s: State, thresholds: seq<int>, h: nat, u: Id)
    requires ReferralInv(s, thresholds) && IsBound(s.ledger, u) && u !in s.owners && h !in s.running
    ensures Paid(Run(s, thresholds, LoginSteps(h, u)).ledger, u)
  {
    var step := Continue(h, true, 5);
    var created := Next(Next(s, thresholds, Bootstrap(h, u)), thresholds, step);
    RunTwo(s, thresholds, Bootstrap(h, u), step);
    assert Run(s, thresholds, [Bootstrap(h, u), step]) == created;
    RunJoin(s, thresholds, [Bootstrap(h, u), step], [step, step]);
    RunTwo(created, thresholds, step, step);
    RunJoin(s, thresholds, [Bootstrap(h, u), step] + [step, step], [step]);
    var reading := Next(s, thresholds, Bootstrap(h, u));
    StepKeepsInv(s, thresholds, Bootstrap(h, u));
    StepKeepsInv(reading, thresholds, step);
    assert created.running[h] == ReadReferrer(u) && created.ledger == s.ledger;
    BothPayments(created, thresholds, h, u);
  }

  /** From reading the referrer on, three calls pay both sides. */
  lemma BothPayments(s: State, thresholds: seq<int>, h: nat, u: Id)
    requires ReferralInv(s, thresholds) && IsBound(s.ledger, u) && h in s.running && s.running[h] == ReadReferrer(u)
    ensures var step := Continue(h, true, 5);
            Paid(Run(Run(s, thresholds, [step, step]), thresholds, [step]).ledger, u)
  {
    var step := Continue(h, true, 5);
    var r := s.ledger.users[u].referrer.value;
    var s1 := Next(s, thresholds, step);
    var s2 := Next(s1, thresholds, step);
    RunTwo(s, thresholds, step, step);
    assert [step][1..] == [];
    assert Run(s2, thresholds, [step]) == Run(Next(s2, thresholds, step), thresholds, []);
    assert ReferrerKnown(s.ledger, u);
    StepKeepsInv(s, thresholds, step);
    assert InCharge(s1, h, u) && Paying(s1, h, u);
    assert s2.running[h] == PayReferrer(u, r);
    KeysNeverCollide(RefereeKey(u), RefereeKey(u));
    AwardPays(s1.ledger, thresholds, RefereeEvent(u, r, 5));
    StepKeepsInv(s1, thresholds, step);
    OwnStepKeepsCharge(s2, thresholds, h, 5, u);
  }

  /** Once the user has closed or handed over the last organization, the next login makes a new one and pays both
      sides after all, so that only an owner's referral stays unpaid. */
  lemma LaterLoginPays(s: State, thresholds: seq<int>, step: Step, h: nat, u: Id)
    requires ReferralInv(s, thresholds) && AtRest(s, u) && h !in s.running
    requires !KeepsOrg(step, u) && (step.TransferOrg? ==> step.to != u)
    ensures Paid(Run(s, thresholds, [step] + LoginSteps(h, u)).ledger, u)
  {
    StepKeepsInv(s, thresholds, step);
    LoginPays(Next(s, thresholds, step), thresholds, h, u);
    assert ([step] + LoginSteps(h, u))[1..] == LoginSteps(h, u);
  }

  lemma {:induction false} RunJoin(s: State, thresholds: seq<int>, a: seq<Step>, b: seq<Step>)
    ensures Run(s, thresholds, a + b) == Run(Run(s, thresholds, a), thresholds, b)
    decreases |a|
  {
    if a == [] {
      assert a + b == b;
    } else {
      assert (a + b)[1..] == a[1..] + b;
      RunJoin(Next(s, thresholds, a[0]), thresholds, a[1..], b);
    }
  }

  lemma RunTwo(s: State, thresholds: seq<int>, a: Step, b: Step)
    ensures Run(s, thresholds, [a, b]) == Next(Next(s, thresholds, a), thresholds, b)
  {
    assert [a, b][1..] == [b] && [b][1..] == [];
    assert Run(Next(s, thresholds, a), thresholds, [b]) ==
      Run(Next(Next(s, thresholds, a), thresholds, b), thresholds, []);
  }

  /** The user u stands at a phase of handler 0, bound to r, and nobody was paid yet. */
  predicate Stands(s: State, u: Id, r: Id, phase: Phase) {
    s.ledger.events == [] && r in s.ledger.users && Bound(s.ledger, u, r) && s.running == map[0 := phase]
  }

  /** Two users, the second bound to the first by an invite code. */
  function Redeemed(u: Id, r: Id): seq<Step> { [NewUser(r), NewUser(u)] + [Redeem(0, u, r)] }

  lemma RedeemedStands(thresholds: seq<int>, u: Id, r: Id)
    requires u != r
    ensures var s := Run(Initial(), thresholds, Redeemed(u, r)); Stands(s, u, r, CheckMember(u)) && s.members == {}
  {
    RunJoin(Initial(), thresholds, [NewUser(r), NewUser(u)], [Redeem(0, u, r)]);
    RunTwo(Initial(), thresholds, NewUser(r), NewUser(u));
    var s := Run(Initial(), thresholds, [NewUser(r), NewUser(u)]);
    assert [Redeem(0, u, r)][1..] == [];
    assert Run(s, thresholds, [Redeem(0, u, r)]) == Run(Next(s, thresholds, Redeem(0, u, r)), thresholds, []);
  }

  /** No call fails, and yet neither side is paid as long as the user keeps an organization: the code is redeemed before
      the user is a member anywhere, and the organization comes from outside the bootstrap. */
  lemma FoundedAfterRedeemUnpaid(thresholds: seq<int>, u: Id, r: Id, later: seq<Step>)
    requires u != r && forall i | 0 <= i < |later| :: KeepsOrg(later[i], u)
    ensures var steps := Redeemed(u, r) + [Continue(0, true, 5), FoundOrg(u)];
            && (forall i | 0 <= i < |steps| :: Reliable(steps[i]))
            && AtRest(Run(Initial(), thresholds, steps), u)
            && !RefereePaid(Run(Initial(), thresholds, steps + later).ledger, u)
            && !ReferrerPaid(Run(Initial(), thresholds, steps + later).ledger, u)
  {
    var tail := [Continue(0, true, 5), FoundOrg(u)];
    RedeemedStands(thresholds, u, r);
    RunJoin(Initial(), thresholds, Redeemed(u, r), tail);
    RunTwo(Run(Initial(), thresholds, Redeemed(u, r)), thresholds, Continue(0, true, 5), FoundOrg(u));
    RunJoin(Initial(), thresholds, Redeemed(u, r) + tail, later);
    UnpaidForever(Run(Initial(), thresholds, Redeemed(u, r) + tail), thresholds, later, u);
  }

  /** From the check, a member passes and reads the referrer; from there the payment of the referee fails. */
  lemma CheckedStands(s: State, thresholds: seq<int>, u: Id, r: Id)
    requires Stands(s, u, r, CheckMember(u))
    ensures Stands(Run(s, thresholds, [Join(u), Continue(0, true, 5)]), u, r, ReadReferrer(u))
  {
    RunTwo(s, thresholds, Join(u), Continue(0, true, 5));
  }

  lemma RefereeFailedStands(s: State, thresholds: seq<int>, u: Id, r: Id)
    requires Stands(s, u, r, ReadReferrer(u))
    ensures Stands(Run(s, thresholds, [Continue(0, true, 5), Continue(0, false, 5)]), u, r, PayReferrer(u, r))
  {
    RunTwo(s, thresholds, Continue(0, true, 5), Continue(0, false, 5));
  }

  lemma ReferrerPaidRests(s: State, thresholds: seq<int>, u: Id, r: Id)
    requires Stands(s, u, r, PayReferrer(u, r))
    ensures var end := Run(s, thresholds, [Continue(0, true, 5), FoundOrg(u)]);
            AtRest(end, u) && ReferrerPaid(end.ledger, u) && !RefereePaid(end.ledger, u)
  {
    RunTwo(s, thresholds, Continue(0, true, 5), FoundOrg(u));
    KeysNeverCollide(ReferrerKey(u), RefereeKey(u));
    HasKeySnoc([], ReferrerEvent(u, r, 5), Render(ReferrerKey(u)));
    HasKeySnoc([], ReferrerEvent(u, r, 5), Render(RefereeKey(u)));
  }

  /** The run in which the referee's payment fails. */
  function RefereeFails(u: Id, r: Id): seq<Step> {
    Redeemed(u, r) + [Join(u), Continue(0, true, 5)] + [Continue(0, true, 5), Continue(0, false, 5)] +
    [Continue(0, true, 5), FoundOrg(u)]
  }

  /** A failed payment is not tried again: the referrer is paid, the referee not while owning an organization. */
  lemma FailedPaymentUnpaid(thresholds: seq<int>, u: Id, r: Id, later: seq<Step>)
    requires u != r && forall i | 0 <= i < |later| :: KeepsOrg(later[i], u)
    ensures AtRest(Run(Initial(), thresholds, RefereeFails(u, r)), u)
    ensures ReferrerPaid(Run(Initial(), thresholds, RefereeFails(u, r) + later).ledger, u)
    ensures !RefereePaid(Run(Initial(), thresholds, RefereeFails(u, r) + later).ledger, u)
  {
    var a := Redeemed(u, r);
    var b := a + [Join(u), Continue(0, true, 5)];
    var c := b + [Continue(0, true, 5), Continue(0, false, 5)];
    RedeemedStands(thresholds, u, r);
    CheckedStands(Run(Initial(), thresholds, a), thresholds, u, r);
    RunJoin(Initial(), thresholds, a, [Join(u), Continue(0, true, 5)]);
    RefereeFailedStands(Run(Initial(), thresholds, b), thresholds, u, r);
    RunJoin(Initial(), thresholds, b, [Continue(0, true, 5), Continue(0, false, 5)]);
    ReferrerPaidRests(Run(Initial(), thresholds, c), thresholds, u, r);
    RunJoin(Initial(), thresholds, c, [Continue(0, true, 5), FoundOrg(u)]);
    RunJoin(Initial(), thresholds, RefereeFails(u, r), later);
    UnpaidForever(Run(Initial(), thresholds, RefereeFails(u, r)), thresholds, later, u);
  }
}
