/** The referral protocol: handlers interleave, each database call one step. */
module Referrals {
  import opened Wrappers
  import opened XpKeys
  import opened XpLedger

  /** Where a running handler stands. Redeeming an invite code binds and then checks membership; the first-login
      bootstrap creates the personal organization; both continue by reading the referrer and paying twice. */
  datatype Phase =
    | CheckMember(user: Id)
    | CreateOrg(user: Id)
    | ReadReferrer(user: Id)
    | PayReferee(user: Id, referrer: Id)
    | PayReferrer(user: Id, referrer: Id)

  /** Owners own some organization; created are those whose first-login bootstrap made one. */
  datatype State = State(ledger: Ledger, owners: set<Id>, created: set<Id>, members: set<Id>, running: map<nat, Phase>)

  /** CloseOrg deletes an owner's last organization, and gone are the users who were members of no other; TransferOrg
      hands it over. */
  datatype Step =
    | NewUser(user: Id)
    | Redeem(handler: nat, user: Id, referrer: Id)
    | Bootstrap(handler: nat, user: Id)
    | Continue(handler: nat, ok: bool, points: int)
    | Crash(handler: nat)
    | OtherAward(account: Id, kind: string, points: int, key: Option<Key>)
    | FoundOrg(user: Id)
    | Join(user: Id)
    | Leave(user: Id)
    | CloseOrg(owner: Id, gone: set<Id>)
    | TransferOrg(owner: Id, to: Id)

  function RefereeEvent(u: Id, r: Id, points: int): Event {
    Event(u, "referral_qualified", points, AsReferee(r), Render(RefereeKey(u)))
  }

  function ReferrerEvent(u: Id, r: Id, points: int): Event {
    Event(r, "referral_qualified", points, AsReferrer(u), Render(ReferrerKey(u)))
  }

  predicate CanBind(l: Ledger, u: Id, r: Id) { u != r && u in l.users && r in l.users && l.users[u].referrer == None }

  /** A referrer is written once, never to oneself and only to an existing user. */
  function Bind(l: Ledger, u: Id, r: Id): Ledger {
    if !CanBind(l, u, r) then l else l.(users := l.users[u := l.users[u].(referrer := Some(r))])
  }

  /** The keys of the other drivers: none, or their own. */
  predicate OtherKey(key: Option<Key>) {
    key.Some? ==> !key.value.RefereeKey? && !key.value.ReferrerKey? && Splittable(key.value)
  }

  function Done(s: State, h: nat): State { s.(running := s.running - {h}) }

  function Goes(s: State, h: nat, phase: Phase): State { s.(running := s.running[h := phase]) }

  function OwnOrg(s: State, u: Id): State { s.(owners := s.owners + {u}, members := s.members + {u}) }

  /** The next database call of a handler; a call that fails changes nothing. A failed payment is ignored and the
      handler goes on, any other failure ends it. */
  function Proceed(s: State, thresholds: seq<int>, h: nat, ok: bool, points: int): State
    requires h in s.running
  {
    match s.running[h]
    case CheckMember(u) => if ok && u in s.members then Goes(s, h, ReadReferrer(u)) else Done(s, h)
    case CreateOrg(u) =>
      if ok then Goes(OwnOrg(s, u).(created := s.created + {u}), h, ReadReferrer(u)) else Done(s, h)
    case ReadReferrer(u) =>
      if ok && u in s.ledger.users && s.ledger.users[u].referrer.Some?
      then Goes(s, h, PayReferee(u, s.ledger.users[u].referrer.value))
      else Done(s, h)
    case PayReferee(u, r) =>
      Goes(if ok then s.(ledger := Award(s.ledger, thresholds, RefereeEvent(u, r, points)))
        else s, h, PayReferrer(u, r))
    case PayReferrer(u, r) =>
      Done(if ok then s.(ledger := Award(s.ledger, thresholds, ReferrerEvent(u, r, points))) else s, h)
  }

  function Next(s: State, thresholds: seq<int>, step: Step): State {
    match step
    case NewUser(u) => s.(ledger := AddUser(s.ledger, u))
    case Redeem(h, u, r) =>
      if h in s.running || !CanBind(s.ledger, u, r) then s
      else Goes(s.(ledger := Bind(s.ledger, u, r)), h, CheckMember(u))
    case Bootstrap(h, u) => if h in s.running || u !in s.ledger.users || u in s.owners then s
      else Goes(s, h, CreateOrg(u))
    case Continue(h, ok, points) => if h in s.running then Proceed(s, thresholds, h, ok, points) else s
    case Crash(h) => Done(s, h)
    case OtherAward(u, kind, points, key) =>
      if OtherKey(key)
      then s.(ledger := Award(s.ledger, thresholds,
        Event(u, kind, points, NoMeta, if key.Some? then Render(key.value) else "")))
      else s
    case FoundOrg(u) => OwnOrg(s, u)
    case Join(u) => s.(members := s.members + {u})
    case Leave(u) => s.(members := s.members - {u})
    case CloseOrg(u, gone) => s.(owners := s.owners - {u}, members := s.members - gone)
    case TransferOrg(u, v) => OwnOrg(s.(owners := s.owners - {u}), v)
  }

  function Run(s: State, thresholds: seq<int>, steps: seq<Step>): State
    decreases |steps|
  {
    if steps == [] then s else Run(Next(s, thresholds, steps[0]), thresholds, steps[1..])
  }

  function Initial(): State { State(Ledger(map[], []), {}, {}, {}, map[]) }

  predicate Bound(l: Ledger, u: Id, r: Id) { u in l.users && l.users[u].referrer == Some(r) }

  // ---- What every step keeps ----------------------------------------------------------------------------

  predicate ReferrerKnown(l: Ledger, u: Id) {
    u in l.users && l.users[u].referrer.Some? ==> l.users[u].referrer.value in l.users && l.users[u].referrer.value != u
  }

  /** A referral event names the referrer its referee is bound to, and carries the key made for it. */
  ghost predicate EventJustified(l: Ledger, e: Event) {
    && (e.meta.AsReferee? ==> e.key == Render(RefereeKey(e.user)) && Bound(l, e.user, e.meta.referrer))
    && (e.meta.AsReferrer? ==> e.key == Render(ReferrerKey(e.meta.referee)) && Bound(l, e.meta.referee, e.user))
    && (!e.meta.NoMeta? ==> e.kind == "referral_qualified")
    && (e.meta.NoMeta? ==> forall u :: e.key != Render(RefereeKey(u)) && e.key != Render(ReferrerKey(u)))
  }

  ghost predicate Justified(l: Ledger, i: int) { 0 <= i < |l.events| ==> EventJustified(l, l.events[i]) }

  predicate PhaseKnown(s: State, h: nat) {
    h in s.running ==>
      && s.running[h].user in s.ledger.users
      && (s.running[h].PayReferee? || s.running[h].PayReferrer? ==>
        Bound(s.ledger, s.running[h].user, s.running[h].referrer))
  }

  ghost predicate ReferralInv(s: State, thresholds: seq<int>) {
    && XpLedger.Inv(s.ledger, thresholds)
    && (forall u :: ReferrerKnown(s.ledger, u))
    && (forall i :: Justified(s.ledger, i))
    && (forall h :: PhaseKnown(s, h))
  }

  /** Users stay, and a bound referrer stays. */
  ghost predicate Extends(a: Ledger, b: Ledger) { forall u, r | Bound(a, u, r) :: Bound(b, u, r) }

  /** The part of the invariant that speaks of the ledger alone. */
  ghost predicate LedgerInv(l: Ledger, thresholds: seq<int>) {
    && XpLedger.Inv(l, thresholds)
    && (forall u :: ReferrerKnown(l, u))
    && (forall i :: Justified(l, i))
  }

  lemma AwardKeepsLedger(l: Ledger, thresholds: seq<int>, e: Event)
    requires LedgerInv(l, thresholds) && EventJustified(l, e)
    ensures LedgerInv(Award(l, thresholds, e), thresholds)
    ensures Award(l, thresholds, e).users.Keys == l.users.Keys
    ensures forall u, r :: Bound(l, u, r) <==> Bound(Award(l, thresholds, e), u, r)
  {
    AwardKeepsInv(l, thresholds, e);
    var next := Award(l, thresholds, e);
    forall u ensures ReferrerKnown(next, u) { assert ReferrerKnown(l, u); }
    forall i ensures Justified(next, i) { assert Justified(l, i); }
  }

  lemma BindKeepsLedger(l: Ledger, thresholds: seq<int>, u: Id, r: Id)
    requires LedgerInv(l, thresholds)
    ensures LedgerInv(Bind(l, u, r), thresholds) && Extends(l, Bind(l, u, r)) &&
        Bind(l, u, r).users.Keys == l.users.Keys
  {
    var next := Bind(l, u, r);
    forall v ensures Balanced(next, v) && TierCached(next, thresholds, v) && ReferrerKnown(next, v) {
      assert Balanced(l, v) && TierCached(l, thresholds, v) && ReferrerKnown(l, v);
    }
    forall i ensures EventKnown(next, i) && Justified(next, i) { assert EventKnown(l, i) && Justified(l, i); }
  }

  lemma AddUserKeepsLedger(l: Ledger, thresholds: seq<int>, u: Id)
    requires LedgerInv(l, thresholds)
    ensures LedgerInv(AddUser(l, u), thresholds) && Extends(l, AddUser(l, u)) &&
        l.users.Keys <= AddUser(l, u).users.Keys
  {
    AddUserKeepsInv(l, thresholds, u);
    var next := AddUser(l, u);
    forall v ensures ReferrerKnown(next, v) { assert ReferrerKnown(l, v); }
    forall i ensures Justified(next, i) { assert Justified(l, i); }
  }

  lemma OtherEventJustified(l: Ledger, e: Event, key: Option<Key>)
    requires e.meta.NoMeta? && OtherKey(key) && e.key == (if key.Some? then Render(key.value) else "")
    ensures EventJustified(l, e)
  {
    forall u ensures e.key != Render(RefereeKey(u)) && e.key != Render(ReferrerKey(u)) {
      KeysNeverCollide(RefereeKey(u), if key.Some? then key.value else EmailKey(u));
      KeysNeverCollide(ReferrerKey(u), if key.Some? then key.value else EmailKey(u));
    }
  }

  lemma ProceedKeepsInv(s: State, thresholds: seq<int>, h: nat, ok: bool, points: int)
    requires ReferralInv(s, thresholds) && h in s.running
    ensures ReferralInv(Proceed(s, thresholds, h, ok, points), thresholds)
    ensures Extends(s.ledger, Proceed(s, thresholds, h, ok, points).ledger)
  {
    assert PhaseKnown(s, h);
    var next := Proceed(s, thresholds, h, ok, points);
    match s.running[h] {
      case PayReferee(u, r) => AwardKeepsLedger(s.ledger, thresholds, RefereeEvent(u, r, points));
      case PayReferrer(u, r) => AwardKeepsLedger(s.ledger, thresholds, ReferrerEvent(u, r, points));
      case CheckMember(_) =>
      case CreateOrg(_) =>
      case ReadReferrer(_) =>
    }
    forall k ensures PhaseKnown(next, k) { assert PhaseKnown(s, k); }
  }

  lemma StepKeepsInv(s: State, thresholds: seq<int>, step: Step)
    requires ReferralInv(s, thresholds)
    ensures ReferralInv(Next(s, thresholds, step), thresholds) && Extends(s.ledger, Next(s, thresholds, step).ledger)
  {
    var next := Next(s, thresholds, step);
    match step
    case Continue(h, ok, points) =>
      if h in s.running { ProceedKeepsInv(s, thresholds, h, ok, points); }
    case NewUser(u) =>
      AddUserKeepsLedger(s.ledger, thresholds, u);
      forall k ensures PhaseKnown(next, k) { assert PhaseKnown(s, k); }
    case Redeem(h, u, r) =>
      BindKeepsLedger(s.ledger, thresholds, u, r);
      forall k ensures PhaseKnown(next, k) { assert PhaseKnown(s, k); }
    case OtherAward(u, kind, points, key) =>
      if OtherKey(key) {
        var e := Event(u, kind, points, NoMeta, if key.Some? then Render(key.value) else "");
        OtherEventJustified(s.ledger, e, key);
        AwardKeepsLedger(s.ledger, thresholds, e);
      }
      forall k ensures PhaseKnown(next, k) { assert PhaseKnown(s, k); }
    case Bootstrap(_, _) => forall k ensures PhaseKnown(next, k) { assert PhaseKnown(s, k); }
    case Crash(_) => forall k ensures PhaseKnown(next, k) { assert PhaseKnown(s, k); }
    case FoundOrg(_) => forall k ensures PhaseKnown(next, k) { assert PhaseKnown(s, k); }
    case Join(_) => forall k ensures PhaseKnown(next, k) { assert PhaseKnown(s, k); }
    case Leave(_) => forall k ensures PhaseKnown(next, k) { assert PhaseKnown(s, k); }
    case CloseOrg(_, _) => forall k ensures PhaseKnown(next, k) { assert PhaseKnown(s, k); }
    case TransferOrg(_, _) => forall k ensures PhaseKnown(next, k) { assert PhaseKnown(s, k); }
  }

  /** Whatever interleaves and whatever fails: the ledger keeps its invariant, every referral event is justified,
      and a referrer, once bound, never changes. */
  lemma {:induction false} RunKeepsInv(s: State, thresholds: seq<int>, steps: seq<Step>)
    requires ReferralInv(s, thresholds)
    ensures ReferralInv(Run(s, thresholds, steps), thresholds) && Extends(s.ledger, Run(s, thresholds, steps).ledger)
    decreases |steps|
  {
    if steps != [] {
      StepKeepsInv(s, thresholds, steps[0]);
      RunKeepsInv(Next(s, thresholds, steps[0]), thresholds, steps[1..]);
    }
  }

  lemma InitialInv(thresholds: seq<int>)
    ensures ReferralInv(Initial(), thresholds)
  {
  }

  // ---- Pay once, and never more than the bound users ------------------------------------------------------

  /** The users a referrer was paid for. */
  function PaidReferees(events: seq<Event>, r: Id): (paid: set<Id>) {
    if events == [] then {}
    else
      var e := events[|events| - 1];
      PaidReferees(events[..|events| - 1], r) + if e.meta.AsReferrer? && e.user == r then {e.meta.referee} else {}
  }

  /** What the leaderboard counts: the referrer's events of kind referral_qualified with the role "referrer". */
  function ReferrerEvents(events: seq<Event>, r: Id): nat {
    if events == [] then 0
    else
      var e := events[|events| - 1];
      ReferrerEvents(events[..|events| - 1], r) +
      if e.kind == "referral_qualified" && e.meta.AsReferrer? && e.user == r then 1 else 0
  }

  function BoundTo(l: Ledger, r: Id): set<Id> { set u | u in l.users && l.users[u].referrer == Some(r) }

  lemma {:induction false} PaidRefereesHaveKeys(l: Ledger, n: nat, r: Id, u: Id)
    requires n <= |l.events| && (forall i :: Justified(l, i)) && u in PaidReferees(l.events[..n], r)
    ensures Bound(l, u, r) && HasKey(l.events[..n], Render(ReferrerKey(u)))
  {
    var before := l.events[..n - 1];
    assert before == l.events[..n][..n - 1];
    assert Justified(l, n - 1);
    HasKeySnoc(before, l.events[n - 1], Render(ReferrerKey(u)));
    assert before + [l.events[n - 1]] == l.events[..n];
    if u in PaidReferees(before, r) { PaidRefereesHaveKeys(l, n - 1, r, u); }
  }

  lemma {:induction false} CountIsPaidReferees(l: Ledger, thresholds: seq<int>, n: nat, r: Id)
    requires LedgerInv(l, thresholds) && n <= |l.events|
    ensures ReferrerEvents(l.events[..n], r) == |PaidReferees(l.events[..n], r)|
  {
    if n > 0 {
      var before := l.events[..n - 1];
      assert before == l.events[..n][..n - 1];
      CountIsPaidReferees(l, thresholds, n - 1, r);
      var e := l.events[n - 1];
      if e.meta.AsReferrer? && e.user == r { NewReferee(l, thresholds, n, r); }
    }
  }

  /** An event for a referrer is the first for its referee. */
  lemma NewReferee(l: Ledger, thresholds: seq<int>, n: nat, r: Id)
    requires LedgerInv(l, thresholds) && 0 < n <= |l.events|
    requires l.events[n - 1].meta.AsReferrer? && l.events[n - 1].user == r
    ensures l.events[n - 1].meta.referee !in PaidReferees(l.events[..n - 1], r)
    ensures l.events[n - 1].kind == "referral_qualified"
  {
    var before, e := l.events[..n - 1], l.events[n - 1];
    assert Justified(l, n - 1);
    KeysNeverCollide(ReferrerKey(e.meta.referee), ReferrerKey(e.meta.referee));
    forall i | 0 <= i < n - 1 ensures before[i].key != e.key { assert KeyOnce(l.events, i, n - 1); }
    if e.meta.referee in PaidReferees(before, r) { PaidRefereesHaveKeys(l, n - 1, r, e.meta.referee); }
  }

  /** In every reachable state a user's referrer events are no more than the users bound to that user, so the
      referral leaderboard never counts a referee twice or one that was never bound. */
  lemma LeaderboardWithinBound(thresholds: seq<int>, steps: seq<Step>, r: Id)
    ensures var l := Run(Initial(), thresholds, steps).ledger;
            ReferrerEvents(l.events, r) <= |BoundTo(l, r)|
  {
    InitialInv(thresholds);
    RunKeepsInv(Initial(), thresholds, steps);
    var l := Run(Initial(), thresholds, steps).ledger;
    assert l.events[..|l.events|] == l.events;
    CountIsPaidReferees(l, thresholds, |l.events|, r);
    forall u | u in PaidReferees(l.events, r) ensures u in BoundTo(l, r) { PaidRefereesHaveKeys(l, |l.events|, r, u); }
    SubsetSize(PaidReferees(l.events, r), BoundTo(l, r));
  }

  lemma SubsetSize<T>(a: set<T>, b: set<T>)
    requires a <= b
    ensures |a| <= |b|
  {
    assert |b| == |a| + |b - a| by { assert b == a + (b - a); }
  }

  /** In every reachable state two events never pay the same referee in the same role. */
  lemma PaidAtMostOnce(thresholds: seq<int>, steps: seq<Step>, i: nat, j: nat)
    ensures var events := Run(Initial(), thresholds, steps).ledger.events;
            i < j < |events| ==>
              && !(events[i].meta.AsReferrer? && events[j].meta.AsReferrer? &&
                events[i].meta.referee == events[j].meta.referee)
              && !(events[i].meta.AsReferee? && events[j].meta.AsReferee? && events[i].user == events[j].user)
  {
    InitialInv(thresholds);
    RunKeepsInv(Initial(), thresholds, steps);
    var l := Run(Initial(), thresholds, steps).ledger;
    if i < j < |l.events| {
      assert Justified(l, i) && Justified(l, j) && KeyOnce(l.events, i, j);
      KeysNeverCollide(ReferrerKey(l.events[i].user), ReferrerKey(l.events[i].user));
      KeysNeverCollide(RefereeKey(l.events[i].user), RefereeKey(l.events[i].user));
      if l.events[i].meta.AsReferrer? {
        KeysNeverCollide(ReferrerKey(l.events[i].meta.referee), ReferrerKey(l.events[i].meta.referee));
      }
    }
  }
}
