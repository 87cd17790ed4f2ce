/** Lease exclusivity: the registry of browser/session.py under the validator of browser/auth.py. */
module SessionLeases {
  import opened Text
  import opened Wrappers

  datatype Ref = Ref(value: string)

  // Two leases are the same to the registry when these four values agree.
  datatype Lease = Lease(ref: Ref, owner: string, acquired: real, expires: real)

  datatype LeaseError = BadOwner | BadTtl | Conflict

  type Leases = map<Ref, Lease>

  predicate Expired(lease: Lease, now: real) {
    now >= lease.expires
  }

  predicate CompactOwner(owner: string) {
    owner != [] && forall i | 0 <= i < |owner| :: !IsSpace(owner[i])
  }

  // ----- the registry -----

  function Acquire(leases: Leases, ref: Ref, owner: string, ttl: real, now: real): Result<Lease, LeaseError> {
    if !CompactOwner(owner) then Err(BadOwner)
    else if ttl <= 0.0 then Err(BadTtl)
    else if ref in leases && !Expired(leases[ref], now) then Err(Conflict)
    else Ok(Lease(ref, owner, now, now + ttl))
  }

  predicate IsCurrent(leases: Leases, lease: Lease) {
    lease.ref in leases && leases[lease.ref] == lease
  }

  class SessionLeaseRegistry {
    var leases: Leases

    constructor ()
      ensures leases == map[]
    {
      leases := map[];
    }

    method AcquireLease(ref: Ref, owner: string, ttl: real, now: real) returns (r: Result<Lease, LeaseError>)
      modifies this
      ensures r == Acquire(old(leases), ref, owner, ttl, now)
      ensures leases == if r.Ok? then old(leases)[ref := r.value] else old(leases)
      ensures r.Ok? <==> CompactOwner(owner) && ttl > 0.0 && (ref in old(leases) ==> now >= old(leases)[ref].expires)
      ensures r.Ok? ==> r.value == Lease(ref, owner, now, now + ttl)
      ensures r == Err(BadOwner) <==> !CompactOwner(owner)
      ensures r == Err(BadTtl) <==> CompactOwner(owner) && ttl <= 0.0
    {
      if !CompactOwner(owner) {
        return Err(BadOwner);
      }
      if ttl <= 0.0 {
        return Err(BadTtl);
      }
      if ref in leases && !Expired(leases[ref], now) {
        return Err(Conflict);
      }
      var lease := Lease(ref, owner, now, now + ttl);
      leases := leases[ref := lease];
      return Ok(lease);
    }

    method Release(lease: Lease) returns (released: bool)
      modifies this
      ensures released == IsCurrent(old(leases), lease)
      ensures leases == if released then old(leases) - {lease.ref} else old(leases)
    {
      if lease.ref !in leases || leases[lease.ref] != lease {
        return false;
      }
      leases := leases - {lease.ref};
      return true;
    }

    method RecoverStale(now: real) returns (count: nat)
      modifies this
      ensures leases == map ref | ref in old(leases) && !Expired(old(leases)[ref], now) :: old(leases)[ref]
      ensures count == |old(leases)| - |leases|
    {
      var stale := set ref | ref in leases && Expired(leases[ref], now);
      ghost var before := leases;
      leases := leases - stale;
      assert before.Keys == leases.Keys + stale;
      return |stale|;
    }
  }

  // ----- runs of the validator -----

  // A session that validation handed out, and whether releasing it has succeeded.
  datatype Session = Session(lease: Lease, released: bool)

  datatype State = State(now: real, leases: Leases, sessions: seq<Session>)

  // What the store answers after the lease is taken: fine, no record (the lease is given back), or an exception.
  datatype StoreAnswer = Present | Missing | StoreRaises

  datatype Action =
    | Wait(time: real)
    | Validate(ref: Ref, owner: string, ttl: real, admitted: bool, mark: StoreAnswer, reread: StoreAnswer)
    | ReleaseSession(index: nat)
    | Recover

  function Validated(s: State, a: Action): State
    requires a.Validate?
  {
    match Acquire(s.leases, a.ref, a.owner, a.ttl, s.now)
    case Err(_) => s
    case Ok(lease) =>
      if !a.admitted then s
      else if a.mark.StoreRaises? || (a.mark.Present? && a.reread.StoreRaises?)
      then s.(leases := s.leases[a.ref := lease])
      else if a.mark.Missing? || a.reread.Missing? then s.(leases := s.leases - {a.ref})
      else s.(leases := s.leases[a.ref := lease], sessions := s.sessions + [Session(lease, false)])
  }

  function Released(s: State, i: nat): State {
    if i >= |s.sessions| || !IsCurrent(s.leases, s.sessions[i].lease) then s
    else s.(leases := s.leases - {s.sessions[i].lease.ref},
            sessions := s.sessions[i := s.sessions[i].(released := true)])
  }

  function Step(s: State, a: Action): State {
    match a
    case Wait(time) => if time >= 0.0 then s.(now := s.now + time) else s
    case Validate(_, _, _, _, _, _) => Validated(s, a)
    case ReleaseSession(i) => Released(s, i)
    case Recover => s.(leases := map ref | ref in s.leases && !Expired(s.leases[ref], s.now) :: s.leases[ref])
  }

  function Run(s: State, actions: seq<Action>): State {
    if actions == [] then s else Step(Run(s, actions[..|actions| - 1]), actions[|actions| - 1])
  }

  /** A session whose lease has neither lapsed nor been given back. */
  predicate Holds(s: State, i: nat) {
    i < |s.sessions| && !s.sessions[i].released && !Expired(s.sessions[i].lease, s.now)
  }

  ghost predicate Exclusive(s: State) {
    forall i: nat, j: nat | i < j && Holds(s, i) && Holds(s, j) :: s.sessions[i].lease.ref != s.sessions[j].lease.ref
  }

  /** The registry knows every holder. */
  ghost predicate Registered(s: State) {
    forall i: nat | Holds(s, i) :: IsCurrent(s.leases, s.sessions[i].lease)
  }

  ghost predicate Keyed(s: State) {
    forall ref | ref in s.leases :: s.leases[ref].ref == ref
  }

  /** Releasing session i takes no lease away from another holder. */
  predicate Harmless(s: State, i: nat) {
    i < |s.sessions| && s.sessions[i].released ==>
      forall j | 0 <= j < |s.sessions| && Holds(s, j) :: s.sessions[j].lease != s.sessions[i].lease
  }

  ghost predicate HarmlessRun(s: State, actions: seq<Action>) {
    actions == [] ||
    var n := |actions| - 1;
    HarmlessRun(s, actions[..n])
    && (actions[n].ReleaseSession? ==> Harmless(Run(s, actions[..n]), actions[n].index))
  }

  /**
   * What a validation leaves: a session and its lease when everything goes through; the lease alone when the store
   * raises; and otherwise the registry as it was, but for a lapsed lease that it may have cleared.
   */
  lemma ValidationMeans(s: State, a: Action)
    requires a.Validate?
    ensures var t := Validated(s, a);
            var free := a.ref in s.leases ==> s.now >= s.leases[a.ref].expires;
            var leased := CompactOwner(a.owner) && a.ttl > 0.0 && free && a.admitted;
            var lease := Lease(a.ref, a.owner, s.now, s.now + a.ttl);
            && t.now == s.now
            && (t.sessions != s.sessions <==> leased && a.mark.Present? && a.reread.Present?)
            && (t.sessions != s.sessions ==>
                  t.sessions == s.sessions + [Session(lease, false)] && t.leases == s.leases[a.ref := lease])
            && (leased && (a.mark.StoreRaises? || (a.mark.Present? && a.reread.StoreRaises?)) ==>
                  t == s.(leases := s.leases[a.ref := lease]))
            && (leased && (a.mark.Missing? || (a.mark.Present? && a.reread.Missing?)) ==>
                  t == s.(leases := s.leases - {a.ref}))
            && (!leased ==> t == s)
  {
    assert |s.sessions + [Session(Lease(a.ref, a.owner, s.now, s.now + a.ttl), false)]| != |s.sessions|;
  }

  lemma ValidateKeeps(s: State, a: Action)
    requires a.Validate? && Exclusive(s) && Registered(s) && Keyed(s)
    ensures Exclusive(Validated(s, a)) && Registered(Validated(s, a)) && Keyed(Validated(s, a))
  {
    var t := Validated(s, a);
    if Acquire(s.leases, a.ref, a.owner, a.ttl, s.now).Ok? {
      forall i: nat | Holds(s, i) ensures s.sessions[i].lease.ref != a.ref {
        assert IsCurrent(s.leases, s.sessions[i].lease);
      }
      forall i: nat | Holds(t, i) && i < |s.sessions| ensures Holds(s, i) && IsCurrent(t.leases, t.sessions[i].lease) {
        assert Holds(s, i);
      }
    }
  }

  /** A release keeps the registry right exactly when it is harmless. */
  lemma ReleaseKeepsIffHarmless(s: State, i: nat)
    requires Exclusive(s) && Registered(s) && Keyed(s)
    ensures Exclusive(Released(s, i)) && Keyed(Released(s, i))
    ensures Registered(Released(s, i)) <==> Harmless(s, i)
  {
    var t := Released(s, i);
    forall j: nat | Holds(t, j) ensures Holds(s, j) {
    }
    if i < |s.sessions| && IsCurrent(s.leases, s.sessions[i].lease) {
      if Harmless(s, i) {
        forall j: nat | Holds(t, j) ensures IsCurrent(t.leases, t.sessions[j].lease) {
          assert Holds(s, j) && IsCurrent(s.leases, s.sessions[j].lease);
        }
      } else {
        var j :| 0 <= j < |s.sessions| && Holds(s, j) && s.sessions[j].lease == s.sessions[i].lease;
        assert Holds(t, j);
        assert !IsCurrent(t.leases, t.sessions[j].lease);
      }
    } else if i < |s.sessions| && s.sessions[i].released {
      forall j | 0 <= j < |s.sessions| && Holds(s, j) ensures s.sessions[j].lease != s.sessions[i].lease {
        assert IsCurrent(s.leases, s.sessions[j].lease);
      }
    }
  }

  lemma {:induction false} HarmlessRunKeeps(s: State, actions: seq<Action>)
    requires Exclusive(s) && Registered(s) && Keyed(s) && HarmlessRun(s, actions)
    ensures Exclusive(Run(s, actions)) && Registered(Run(s, actions)) && Keyed(Run(s, actions))
  {
    if actions != [] {
      var n := |actions| - 1;
      HarmlessRunKeeps(s, actions[..n]);
      var before := Run(s, actions[..n]);
      match actions[n]
      case Validate(_, _, _, _, _, _) => ValidateKeeps(before, actions[n]);
      case ReleaseSession(i) => ReleaseKeepsIffHarmless(before, i);
      case Wait(_) => ClockKeeps(before, actions[n]);
      case Recover => ClockKeeps(before, actions[n]);
    }
  }

  lemma ClockKeeps(s: State, a: Action)
    requires (a.Wait? || a.Recover?) && Exclusive(s) && Registered(s) && Keyed(s)
    ensures Exclusive(Step(s, a)) && Registered(Step(s, a)) && Keyed(Step(s, a))
  {
  }

  function Start(now: real): State {
    State(now, map[], [])
  }

  /** Exclusivity over every run, clock moving forward, in which no release takes away another holder's lease. */
  lemma LeasesAreExclusive(now: real, actions: seq<Action>)
    requires HarmlessRun(Start(now), actions)
    ensures Exclusive(Run(Start(now), actions))
  {
    HarmlessRunKeeps(Start(now), actions);
  }

  ghost predicate OnlyValidates(actions: seq<Action>) {
    forall i | 0 <= i < |actions| :: actions[i].Validate?
  }

  /** No prefix of the run, followed by validations, gives one session to two holders. */
  ghost predicate NeverShared(now: real, actions: seq<Action>) {
    forall n: nat, more | n <= |actions| && OnlyValidates(more) :: Exclusive(Run(Start(now), actions[..n] + more))
  }

  lemma {:induction false} HarmlessExtended(s: State, actions: seq<Action>, more: seq<Action>)
    requires HarmlessRun(s, actions) && OnlyValidates(more)
    ensures HarmlessRun(s, actions + more)
  {
    if more == [] {
      assert actions + more == actions;
    } else {
      HarmlessExtended(s, actions, more[..|more| - 1]);
      assert (actions + more)[..|actions + more| - 1] == actions + more[..|more| - 1];
    }
  }

  lemma {:induction false} HarmlessPrefix(s: State, actions: seq<Action>, n: nat)
    requires HarmlessRun(s, actions) && n <= |actions|
    ensures HarmlessRun(s, actions[..n])
  {
    if n == |actions| {
      assert actions[..n] == actions;
    } else {
      HarmlessPrefix(s, actions[..|actions| - 1], n);
      assert actions[..|actions| - 1][..n] == actions[..n];
    }
  }

  /** A harmful release frees a ref that another session still holds; the next validation of it shares the session. */
  lemma HarmfulReleaseShares(s: State, i: nat) returns (a: Action)
    requires Exclusive(s) && Registered(s) && Keyed(s) && !Harmless(s, i)
    ensures a.Validate? && !Exclusive(Step(Released(s, i), a))
  {
    var j :| 0 <= j < |s.sessions| && Holds(s, j) && s.sessions[j].lease == s.sessions[i].lease;
    assert IsCurrent(s.leases, s.sessions[j].lease);
    var t := Released(s, i);
    a := Validate(s.sessions[j].lease.ref, ['x'], 1.0, true, Present, Present);
    var u := Step(t, a);
    assert Holds(u, j) && Holds(u, |t.sessions|);
  }

  /** The harmless runs are exactly those none of whose prefixes, followed by validations, shares a session. */
  lemma {:induction false} HarmlessIffNeverShared(now: real, actions: seq<Action>)
    ensures HarmlessRun(Start(now), actions) <==> NeverShared(now, actions)
  {
    var s := Start(now);
    if HarmlessRun(s, actions) {
      forall n: nat, more | n <= |actions| && OnlyValidates(more) ensures Exclusive(Run(s, actions[..n] + more)) {
        HarmlessPrefix(s, actions, n);
        HarmlessExtended(s, actions[..n], more);
        LeasesAreExclusive(now, actions[..n] + more);
      }
    } else {
      var n := |actions| - 1;
      var init := actions[..n];
      HarmlessIffNeverShared(now, init);
      if NeverShared(now, init) {
        HarmlessRunKeeps(s, init);
        var a := HarmfulReleaseShares(Run(s, init), actions[n].index);
        assert actions[..|actions|] == actions;
        RunSnoc(s, actions, a);
        assert OnlyValidates([a]) && !Exclusive(Run(s, actions[..|actions|] + [a]));
      } else {
        var k: nat, more :| k <= |init| && OnlyValidates(more) && !Exclusive(Run(s, init[..k] + more));
        assert init[..k] == actions[..k];
      }
    }
  }

  ghost predicate ReleasedAtMostOnce(s: State, actions: seq<Action>) {
    actions == [] ||
    var n := |actions| - 1;
    var before := Run(s, actions[..n]);
    ReleasedAtMostOnce(s, actions[..n])
    && (actions[n].ReleaseSession? && actions[n].index < |before.sessions| ==>
          !before.sessions[actions[n].index].released)
  }

  /** Callers that never release a session again after that succeeded are safe. */
  lemma {:induction false} ReleasingOnceIsHarmless(s: State, actions: seq<Action>)
    requires ReleasedAtMostOnce(s, actions)
    ensures HarmlessRun(s, actions)
  {
    if actions != [] {
      ReleasingOnceIsHarmless(s, actions[..|actions| - 1]);
    }
  }

  lemma RunSnoc(s: State, actions: seq<Action>, a: Action)
    ensures Run(s, actions + [a]) == Step(Run(s, actions), a)
  {
  }

  /**
   * Leases compare by value: the same owner leasing the same session twice at one clock reading gets equal leases,
   * so releasing the first session again frees the second one's lease, and a third caller gets in beside it.
   */
  lemma DoubleReleaseSharesSession(now: real, ref: Ref, owner: string, other: string, ttl: real)
    requires CompactOwner(owner) && CompactOwner(other) && ttl > 0.0
    ensures var v := Validate(ref, owner, ttl, true, Present, Present);
            var w := Validate(ref, other, ttl, true, Present, Present);
            !Exclusive(Run(Start(now), [v, ReleaseSession(0), v, ReleaseSession(0), w]))
  {
    var v := Validate(ref, owner, ttl, true, Present, Present);
    var w := Validate(ref, other, ttl, true, Present, Present);
    var lease := Lease(ref, owner, now, now + ttl);
    var s := Start(now);
    var r := ReleaseSession(0);
    RunSnoc(s, [], v);
    assert [] + [v] == [v] && [v] + [r] == [v, r] && [v, r] + [v] == [v, r, v];
    assert [v, r, v] + [r] == [v, r, v, r] && [v, r, v, r] + [w] == [v, r, v, r, w];
    RunSnoc(s, [v], r);
    RunSnoc(s, [v, r], v);
    RunSnoc(s, [v, r, v], r);
    RunSnoc(s, [v, r, v, r], w);
    var gone, kept := Session(lease, true), Session(lease, false);
    assert Run(s, [v]) == State(now, map[ref := lease], [kept]);
    assert Run(s, [v, r]) == State(now, map[], [gone]);
    assert Run(s, [v, r, v]) == State(now, map[ref := lease], [gone, kept]);
    assert Run(s, [v, r, v, r]) == State(now, map[], [gone, kept]) by {
      assert [gone, kept][0 := gone] == [gone, kept];
    }
    var t := Run(s, [v, r, v, r, w]);
    assert Holds(t, 1) && Holds(t, 2) && t.sessions[1].lease.ref == t.sessions[2].lease.ref;
  }
}
