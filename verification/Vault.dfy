/** The vault's optimistic versioning: no write is lost silently. */
module Vault {
  import opened Wrappers

  type UserId = nat

  datatype Profile = Profile(version: nat, vault: string)

  function VersionOf(profiles: map<UserId, Profile>, user: UserId): nat {
    if user in profiles then profiles[user].version else 0
  }

  /** The rows, and for each request between its read and its write, the version it read. */
  datatype State = State(profiles: map<UserId, Profile>, seen: map<nat, (UserId, nat)>)

  datatype Step =
    | Read(request: nat, user: UserId)
    | Put(request: nat, vault: string)

  predicate Wins(s: State, step: Step) {
    step.Put? && step.request in s.seen &&
    s.seen[step.request].1 == VersionOf(s.profiles, s.seen[step.request].0)
  }

  predicate WinsFor(s: State, step: Step, user: UserId) { Wins(s, step) && s.seen[step.request].0 == user }

  function Next(s: State, step: Step): State {
    match step
    case Read(r, user) => s.(seen := s.seen[r := (user, VersionOf(s.profiles, user))])
    case Put(r, vault) =>
      if r !in s.seen then s
      else
        var user := s.seen[r].0;
        s.(seen := s.seen - {r},
           profiles := if Wins(s, step) then s.profiles[user := Profile(VersionOf(s.profiles, user) + 1, vault)]
                       else s.profiles)
  }

  function Run(s: State, steps: seq<Step>): State
    decreases |steps|
  {
    if steps == [] then s else Run(Next(s, steps[0]), steps[1..])
  }

  function WinCount(s: State, steps: seq<Step>, user: UserId): nat
    decreases |steps|
  {
    if steps == [] then 0
    else (if WinsFor(s, steps[0], user) then 1 else 0) + WinCount(Next(s, steps[0]), steps[1..], user)
  }

  /** The stored version counts the successful writes. */
  lemma {:induction false} VersionCountsWins(s: State, steps: seq<Step>, user: UserId)
    ensures VersionOf(Run(s, steps).profiles, user) == VersionOf(s.profiles, user) + WinCount(s, steps, user)
    decreases |steps|
  {
    if steps != [] {
      VersionCountsWins(Next(s, steps[0]), steps[1..], user);
    }
  }

  lemma {:induction false} OthersKeepRead(s: State, steps: seq<Step>, request: nat)
    requires request in s.seen && forall i | 0 <= i < |steps| :: steps[i].request != request
    ensures request in Run(s, steps).seen && Run(s, steps).seen[request] == s.seen[request]
    decreases |steps|
  {
    if steps != [] {
      assert forall i | 0 <= i < |steps[1..]| :: steps[1..][i] == steps[i + 1];
      OthersKeepRead(Next(s, steps[0]), steps[1..], request);
    }
  }

  /** A write succeeds exactly when no other write of that user succeeded since its version was read, whatever
      ran in between; a refused write leaves every profile as it was. */
  lemma WriteSucceedsIffUndisturbed(s: State, steps: seq<Step>, request: nat, user: UserId, vault: string)
    requires forall i | 0 <= i < |steps| :: steps[i].request != request
    ensures var mid := Run(Next(s, Read(request, user)), steps);
            var end := Next(mid, Put(request, vault));
            && (WinsFor(mid, Put(request, vault), user) <==> WinCount(Next(s, Read(request, user)), steps, user) == 0)
            && (WinsFor(mid, Put(request, vault), user) ==>
                  end.profiles == mid.profiles[user := Profile(VersionOf(s.profiles, user) + 1, vault)])
            && (!WinsFor(mid, Put(request, vault), user) ==> end.profiles == mid.profiles)
  {
    var read := Next(s, Read(request, user));
    OthersKeepRead(read, steps, request);
    VersionCountsWins(read, steps, user);
  }

  /** Of two requests that read the same version, at most one write goes through. */
  lemma NoLostUpdate(s: State, a: nat, b: nat, user: UserId, va: string, vb: string)
    requires a != b
    ensures var both := Next(Next(s, Read(a, user)), Read(b, user));
            var end := Next(Next(both, Put(a, va)), Put(b, vb));
            end.profiles == s.profiles[user := Profile(VersionOf(s.profiles, user) + 1, va)]
  {
  }

  /** The first write of a user is version 1, and each one after it the next. */
  lemma VersionsFromOne(s: State, user: UserId, vault: string)
    ensures var end := Next(Next(s, Read(0, user)), Put(0, vault)).profiles;
            && user in end && end[user].vault == vault
            && end[user].version == (if user in s.profiles then s.profiles[user].version + 1 else 1)
            && (forall u | u in s.profiles && u != user :: u in end && end[u] == s.profiles[u])
  {
  }

  /** The steps of handlers that run one after another: each reads the version and writes at once. */
  function BackToBack(writes: seq<(UserId, string)>): seq<Step> {
    if writes == [] then []
    else [Read(0, writes[0].0), Put(0, writes[0].1)] + BackToBack(writes[1..])
  }

  function WritesOf(writes: seq<(UserId, string)>, user: UserId): nat {
    if writes == [] then 0 else (if writes[0].0 == user then 1 else 0) + WritesOf(writes[1..], user)
  }

  /** Handlers that do not overlap never refuse a write, whatever version the client had seen: every write counts
      and the last one stays. The conflict answer guards only the gap between a handler's own read and its write. */
  lemma {:induction false} BackToBackWritesAllWin(s: State, writes: seq<(UserId, string)>, user: UserId)
    ensures WinCount(s, BackToBack(writes), user) == WritesOf(writes, user)
    ensures writes != [] && writes[|writes| - 1].0 == user ==>
              var p := Run(s, BackToBack(writes)).profiles;
              user in p && p[user] ==
                Profile(VersionOf(s.profiles, user) + WritesOf(writes, user), writes[|writes| - 1].1)
    decreases |writes|
  {
    if writes != [] {
      var (u, vault) := writes[0];
      var steps := BackToBack(writes);
      var read := Next(s, Read(0, u));
      var put := Next(read, Put(0, vault));
      assert steps[1..] == [Put(0, vault)] + BackToBack(writes[1..]);
      assert steps[1..][1..] == BackToBack(writes[1..]);
      assert Run(s, steps) == Run(put, BackToBack(writes[1..]));
      BackToBackWritesAllWin(put, writes[1..], user);
    }
  }

  class VaultStore {
    var profiles: map<UserId, Profile>

    constructor ()
      ensures profiles == map[]
    {
      profiles := map[];
    }

    method GetDropCryptoProfile(user: UserId) returns (r: Option<Profile>)
      ensures r.Some? <==> user in profiles
      ensures r.Some? ==> r.value == profiles[user]
    {
      if user in profiles { return Some(profiles[user]); }
      return None;
    }

    /** The write goes through only when the expected version is the stored one. */
    method PutDropCryptoProfile(user: UserId, vault: string, expected: int) returns (r: Option<Profile>)
      modifies this
      ensures r.Some? <==> expected == VersionOf(old(profiles), user)
      ensures r.Some? ==> r.value == Profile(expected + 1, vault) && profiles == old(profiles)[user := r.value]
      ensures r.None? ==> profiles == old(profiles)
    {
      var current := 0;
      if user in profiles {
        current := profiles[user].version;
      }
      if current != expected {
        return None;
      }
      var next := Profile(current + 1, vault);
      profiles := profiles[user := next];
      return Some(next);
    }

    /** The handler alone: its read and its write are the two steps, and nothing comes between. */
    method HandleDropPutVault(user: UserId, vault: string) returns (ok: bool)
      modifies this
      ensures ok
      ensures profiles == Run(State(old(profiles), map[]), [Read(0, user), Put(0, vault)]).profiles
    {
      var current := GetDropCryptoProfile(user);
      var expected := if current.Some? then current.value.version else 0;
      var saved := PutDropCryptoProfile(user, vault, expected);
      ok := saved.Some?;
      ghost var start := State(old(profiles), map[]);
      assert [Read(0, user), Put(0, vault)][1..] == [Put(0, vault)];
      assert Run(Next(start, Read(0, user)), [Put(0, vault)]) ==
             Run(Next(Next(start, Read(0, user)), Put(0, vault)), []);
    }
  }
}
