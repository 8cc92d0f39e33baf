/** The XP ledger: events, cached totals and cached tiers. */
module XpLedger {
  import opened Wrappers
  import opened XpKeys

  // ---- Tiers ------------------------------------------------------------------------------------------

  /** The highest tier whose threshold is met; 0 when none is. */
  function TierFor(xp: int, thresholds: seq<int>): (tier: nat)
    ensures tier == 0 || (tier < |thresholds| && thresholds[tier] <= xp)
    ensures forall j | tier < j < |thresholds| :: xp < thresholds[j]
  {
    if thresholds == [] then 0
    else if xp >= thresholds[|thresholds| - 1] then |thresholds| - 1
    else TierFor(xp, thresholds[..|thresholds| - 1])
  }

  /** The index of the first threshold strictly above xp, or the number of thresholds. */
  function NextIndex(xp: int, thresholds: seq<int>): (i: nat)
    ensures i <= |thresholds|
    ensures forall j | 0 <= j < i :: thresholds[j] <= xp
    ensures i < |thresholds| ==> thresholds[i] > xp
  {
    if thresholds == [] || thresholds[0] > xp then 0 else 1 + NextIndex(xp, thresholds[1..])
  }

  function Above0(t: int): int { if t < 0 then 0 else t }

  /** Thresholds a user can climb: the first is met by everyone, and seen from zero none is below the one before. */
  predicate Ladder(thresholds: seq<int>) {
    && |thresholds| > 0 && thresholds[0] <= 0
    && forall i | 0 < i < |thresholds| :: Above0(thresholds[i - 1]) <= Above0(thresholds[i])
  }

  lemma {:induction false} LadderClimbs(thresholds: seq<int>, i: nat, j: nat)
    requires Ladder(thresholds) && i <= j < |thresholds|
    ensures Above0(thresholds[i]) <= Above0(thresholds[j])
    decreases j - i
  {
    if i < j { LadderClimbs(thresholds, i, j - 1); }
  }

  /** For every lifetime total, the threshold reported as the next one is the one of the next tier, and it is
      missing exactly at the top tier: this holds if and only if the configured thresholds form a ladder. */
  lemma NextTierFollowsIff(thresholds: seq<int>)
    requires thresholds != []
    ensures (forall xp: nat :: NextIndex(xp, thresholds) == TierFor(xp, thresholds) + 1) <==> Ladder(thresholds)
  {
    if Ladder(thresholds) {
      forall xp: nat ensures NextIndex(xp, thresholds) == TierFor(xp, thresholds) + 1 {
        NextFollows(xp, thresholds);
      }
    } else if thresholds[0] > 0 {
      assert NextIndex(0, thresholds) == 0;
    } else {
      var i :| 0 < i < |thresholds| && Above0(thresholds[i - 1]) > Above0(thresholds[i]);
      var xp: nat := Above0(thresholds[i]);
      assert thresholds[i] <= xp < thresholds[i - 1];
      assert TierFor(xp, thresholds) >= i;
      assert NextIndex(xp, thresholds) < i;
    }
  }

  /** Thresholds that fall: at 60 points the user is in the top tier, and yet 100 is reported as the next one. */
  lemma FallingThresholdsMislead()
    ensures TierFor(60, [0, 100, 50]) == 2 && NextIndex(60, [0, 100, 50]) == 1
  {
    var t := [0, 100, 50];
    assert t[1..] == [100, 50];
  }

  lemma NextFollows(xp: nat, thresholds: seq<int>)
    requires Ladder(thresholds)
    ensures NextIndex(xp, thresholds) == TierFor(xp, thresholds) + 1
  {
    var t, n := TierFor(xp, thresholds), NextIndex(xp, thresholds);
    assert thresholds[t] <= xp;
    if n <= t {
      LadderClimbs(thresholds, n, t);
      assert false;
    }
    assert t + 1 < |thresholds| ==> xp < thresholds[t + 1];
  }

  // ---- The ledger ---------------------------------------------------------------------------------------

  datatype Meta = NoMeta | AsReferee(referrer: Id) | AsReferrer(referee: Id)

  /** An empty key is an award without dedup. */
  datatype Event = Event(user: Id, kind: string, points: int, meta: Meta, key: string)

  datatype User = User(earned: int, tier: nat, referrer: Option<Id>)

  datatype Ledger = Ledger(users: map<Id, User>, events: seq<Event>)

  predicate HasKey(events: seq<Event>, key: string) { exists i | 0 <= i < |events| :: events[i].key == key }

  predicate HasEvent(events: seq<Event>, u: Id) { exists i | 0 <= i < |events| :: events[i].user == u }

  function Points(events: seq<Event>, u: Id): int {
    if events == [] then 0
    else Points(events[..|events| - 1], u) + if events[|events| - 1].user == u then events[|events| - 1].points else 0
  }

  predicate Accepts(l: Ledger, e: Event) { e.user in l.users && (e.key == "" || !HasKey(l.events, e.key)) }

  /** The transaction: nothing for a used key or a missing user, else the event, the new total and the new tier. */
  function Award(l: Ledger, thresholds: seq<int>, e: Event): Ledger {
    if !Accepts(l, e) then l
    else
      var u := l.users[e.user];
      Ledger(l.users[e.user := u.(earned := u.earned + e.points, tier := TierFor(u.earned + e.points, thresholds))],
             l.events + [e])
  }

  function AddUser(l: Ledger, u: Id): Ledger {
    if u in l.users then l else l.(users := l.users[u := User(0, 0, None)])
  }

  // ---- The invariant ------------------------------------------------------------------------------------

  predicate Balanced(l: Ledger, u: Id) { u in l.users ==> l.users[u].earned == Points(l.events, u) }

  /** A user's tier is the one of the total, except that a user never paid keeps the tier 0 of a new row. */
  predicate TierCached(l: Ledger, thresholds: seq<int>, u: Id) {
    u in l.users ==>
      l.users[u].tier == if HasEvent(l.events, u) then TierFor(l.users[u].earned, thresholds) else 0
  }

  predicate KeyOnce(events: seq<Event>, i: int, j: int) {
    0 <= i < j < |events| && events[i].key != "" ==> events[i].key != events[j].key
  }

  predicate EventKnown(l: Ledger, i: int) { 0 <= i < |l.events| ==> l.events[i].user in l.users }

  ghost predicate Inv(l: Ledger, thresholds: seq<int>) {
    && (forall u :: Balanced(l, u))
    && (forall u :: TierCached(l, thresholds, u))
    && (forall i, j :: KeyOnce(l.events, i, j))
    && (forall i :: EventKnown(l, i))
  }

  lemma PointsSnoc(events: seq<Event>, e: Event, u: Id)
    ensures Points(events + [e], u) == Points(events, u) + if e.user == u then e.points else 0
    ensures HasEvent(events + [e], u) <==> HasEvent(events, u) || e.user == u
  {
    var all := events + [e];
    assert all[..|events|] == events;
    if HasEvent(events, u) {
      var i :| 0 <= i < |events| && events[i].user == u;
      assert all[i].user == u;
    }
    if e.user == u { assert all[|events|].user == u; }
  }

  lemma HasKeySnoc(events: seq<Event>, e: Event, key: string)
    ensures HasKey(events + [e], key) <==> HasKey(events, key) || e.key == key
  {
    var all := events + [e];
    if HasKey(events, key) {
      var i :| 0 <= i < |events| && events[i].key == key;
      assert all[i].key == key;
    }
    if e.key == key { assert all[|events|].key == key; }
  }

  lemma AwardKeepsInv(l: Ledger, thresholds: seq<int>, e: Event)
    requires Inv(l, thresholds)
    ensures Inv(Award(l, thresholds, e), thresholds)
  {
    var next := Award(l, thresholds, e);
    if next != l {
      forall u ensures Balanced(next, u) && TierCached(next, thresholds, u) {
        PointsSnoc(l.events, e, u);
        assert Balanced(l, u) && TierCached(l, thresholds, u);
      }
      forall i, j ensures KeyOnce(next.events, i, j) { assert KeyOnce(l.events, i, j); }
      forall i ensures EventKnown(next, i) { assert EventKnown(l, i); }
    }
  }

  lemma {:induction false} NoEventNoPoints(events: seq<Event>, u: Id)
    requires !HasEvent(events, u)
    ensures Points(events, u) == 0
  {
    if events != [] {
      var before := events[..|events| - 1];
      forall i | 0 <= i < |before| ensures before[i].user != u { assert before[i] == events[i]; }
      assert events[|events| - 1].user != u;
      NoEventNoPoints(before, u);
    }
  }

  lemma AddUserKeepsInv(l: Ledger, thresholds: seq<int>, u: Id)
    requires Inv(l, thresholds)
    ensures Inv(AddUser(l, u), thresholds)
  {
    var next := AddUser(l, u);
    if next != l {
      forall i | 0 <= i < |l.events| ensures l.events[i].user != u { assert EventKnown(l, i); }
      NoEventNoPoints(l.events, u);
      forall v ensures Balanced(next, v) && TierCached(next, thresholds, v) {
        assert Balanced(l, v) && TierCached(l, thresholds, v);
      }
      forall i ensures EventKnown(next, i) { assert EventKnown(l, i); }
    }
  }

  predicate TierCurrent(l: Ledger, thresholds: seq<int>, u: Id) {
    u in l.users ==> l.users[u].tier == TierFor(Points(l.events, u), thresholds)
  }

  lemma TierIsCurrent(l: Ledger, thresholds: seq<int>, u: Id)
    requires Inv(l, thresholds) && TierFor(0, thresholds) == 0
    ensures TierCurrent(l, thresholds, u)
  {
    assert Balanced(l, u) && TierCached(l, thresholds, u);
    if !HasEvent(l.events, u) { NoEventNoPoints(l.events, u); }
  }

  /** The cached tier is the tier of the summed events, for every ledger the invariant allows and every user, if
      and only if the thresholds put a total of 0 in tier 0. */
  lemma TiersCurrentIff(thresholds: seq<int>)
    ensures (forall l, u | Inv(l, thresholds) :: TierCurrent(l, thresholds, u)) <==> TierFor(0, thresholds) == 0
  {
    if TierFor(0, thresholds) == 0 {
      forall l, u | Inv(l, thresholds) ensures TierCurrent(l, thresholds, u) { TierIsCurrent(l, thresholds, u); }
    } else {
      var l := Ledger(map["new" := User(0, 0, None)], []);
      assert Inv(l, thresholds) by {
        forall u ensures Balanced(l, u) && TierCached(l, thresholds, u) {}
      }
      assert !TierCurrent(l, thresholds, "new");
    }
  }

  /** An award happens once per key: a second award with the same key changes nothing, whatever its user, kind
      and points. */
  lemma AwardOncePerKey(l: Ledger, thresholds: seq<int>, e: Event, again: Event)
    requires e.key != "" && again.key == e.key && e.user in l.users
    ensures HasKey(Award(l, thresholds, e).events, e.key)
    ensures Award(Award(l, thresholds, e), thresholds, again) == Award(l, thresholds, e)
  {
    HasKeySnoc(l.events, e, e.key);
  }
}
