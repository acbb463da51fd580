/**
 * What removals, revocations and logouts achieve in the relay, for every run: which requests can still be dispatched
 * once they have returned, and exactly when.
 */
module RelayRaces {
  import opened Common
  import opened Relay

  // ----- Removals -----

  /**
   * After a member's removal has returned, a request that took its generation before the revocation passes the
   * dispatch check only on an orphan: a tunnel that some revocation of the same installation has taken out of the
   * registry and not stopped yet, and only if such an orphan existed when the removal looked its tunnel up. Replaced
   * tunnels and members invited again make no difference.
   */
  lemma RemovedMembersAreShutOut(s: State, m: nat, r: nat)
    requires Reachable(s) && m in s.removals && s.removals[m].at.Returned? && r in s.removals[m].stale
    ensures r in s.requests && s.requests[r].tunnel in s.tunnels
    ensures Passes(s, r) ==> !s.removals[m].clean && Orphan(s.revocations, s.requests[r].tunnel)
  {
    ReachableInv(s);
    assert RemovalOk(s, s.removals[m]) && StaleOk(s, s.removals[m], r);
  }

  /**
   * Any request of that member that passes, orphans aside, took its generation later, was admitted after the removal
   * had committed, and only because the member had been given a role again.
   */
  lemma OnlyNewRolesPass(s: State, m: nat, r: nat)
    requires Reachable(s) && m in s.removals && s.removals[m].at.Returned? && r in s.requests
    requires s.requests[r].installation == s.removals[m].installation && s.requests[r].account == s.removals[m].account
    requires PastRoleCheck(s.requests[r].stage)
    ensures s.requests[r].tunnel in s.tunnels
    ensures Passes(s, r) && !Orphan(s.revocations, s.requests[r].tunnel) ==>
              r !in s.removals[m].stale && m in s.requests[r].after && s.removals[m].reinvited
  {
    ReachableInv(s);
    assert RequestOk(s.tunnels, s.requests[r]) && AdmissionOk(s, m, r);
    if r in s.removals[m].stale { RemovedMembersAreShutOut(s, m, r); }
  }

  // ----- Which requests can still be dispatched -----

  /** Some continuation dispatches the request. */
  ghost predicate Dispatches(s: State, r: nat) {
    exists run :: Runs(s, run) && IsDispatched(End(s, run), r)
  }

  ghost predicate IsDispatched(s: State, r: nat) {
    r in s.requests && s.requests[r].stage.Dispatched?
  }

  /** The request is under way on a tunnel in the state. */
  ghost predicate Underway(s: State, r: nat) {
    r in s.requests && s.requests[r].tunnel in s.tunnels && !s.requests[r].stage.Found? && !s.requests[r].stage.Dispatched?
  }

  /**
   * Nothing stands in its way: its tunnel is not stopped and still at its generation, its session lives if that is yet
   * to be checked, its stream is open if it has one, and a tunnel that is yet to be rechecked holds the current token.
   */
  ghost predicate Unhindered(s: State, r: nat)
    requires Underway(s, r)
  {
    var q := s.requests[r];
    var t := s.tunnels[q.tunnel];
    && !t.stop && Generation(t, q.account) == q.generation && !q.stage.Failed?
    && (!PastSessionCheck(q.stage) ==> q.session in s.sessions)
    && (q.streaming && (q.stage.Opened? || PastSessionCheck(q.stage)) ==> IsOpen(t, r))
    && (!t.phase.Serving? ==> t.installation in s.owned && s.owned[t.installation] == t.token)
  }

  /** Sessions and tokens are never handed out twice. */
  ghost predicate Known(s: State) {
    && (forall r :: r in s.requests ==> s.requests[r].session in s.sessions + s.pastSessions)
    && (forall t :: t in s.tunnels ==> s.tunnels[t].token in s.tokens)
    && TokensOk(s) && s.sessions !! s.pastSessions
  }

  lemma KeepsKnown(s: State, a: Action, s': State)
    requires Known(s) && Enabled(s, a)
    requires s'.requests == Requests(s, a) && s'.tunnels == Tunnels(s, a) && s'.owned == Owned(s, a)
    requires s'.tokens == Tokens(s, a) && s'.sessions == Sessions(s, a) && s'.pastSessions == PastSessions(s, a)
    ensures Known(s')
  {
    forall r | r in s'.requests ensures s'.requests[r].session in s'.sessions + s'.pastSessions {
      if r in s.requests { RequestsKeepTheirTerms(s, a, r); }
    }
    forall t | t in s'.tunnels ensures s'.tunnels[t].token in s'.tokens {
      if t in s.tunnels { TunnelsOnlyAdvance(s, a, t); }
    }
  }

  lemma {:induction false} RunsKeepKnown(s: State, run: seq<Action>)
    requires Known(s) && Runs(s, run)
    ensures Known(End(s, run))
    decreases |run|
  {
    if run != [] {
      KeepsKnown(s, run[0], Apply(s, run[0]));
      RunsKeepKnown(Apply(s, run[0]), run[1..]);
    }
  }

  lemma ReachableKnown(s: State)
    requires Reachable(s)
    ensures Known(s)
  {
    var run :| Runs(INITIAL, run) && End(INITIAL, run) == s;
    RunsKeepKnown(INITIAL, run);
  }

  // ----- What hinders a request hinders it for good -----

  lemma StreamsStayShut(s: State, a: Action, r: nat)
    requires Enabled(s, a) && Underway(s, r) && (s.requests[r].stage.Opened? || PastSessionCheck(s.requests[r].stage))
    requires !IsOpen(s.tunnels[s.requests[r].tunnel], r)
    ensures s.requests[r].tunnel in Tunnels(s, a) && !IsOpen(Tunnels(s, a)[s.requests[r].tunnel], r)
  {
    TunnelsOnlyAdvance(s, a, s.requests[r].tunnel);
  }

  /** A tunnel that is not serving yet, with a token that is not current, never serves unstopped. */
  lemma OutdatedTunnelsStay(s: State, a: Action, t: nat, s': State)
    requires Known(s) && Enabled(s, a) && t in s.tunnels && s'.tunnels == Tunnels(s, a) && s'.owned == Owned(s, a)
    requires !s.tunnels[t].phase.Serving? && !s.tunnels[t].phase.Negotiated?
    requires !(s.tunnels[t].installation in s.owned && s.owned[s.tunnels[t].installation] == s.tunnels[t].token)
    ensures t in s'.tunnels
    ensures var u := s'.tunnels[t];
            u.stop || (!u.phase.Serving? && !(u.installation in s'.owned && s'.owned[u.installation] == u.token))
  {
    TunnelsOnlyAdvance(s, a, t);
  }

  /** A step of another actor, or of the request itself, leaves a hindered request hindered and undispatched. */
  lemma StaysHindered(s: State, a: Action, r: nat, s': State)
    requires Known(s) && Basics(s) && Enabled(s, a) && Underway(s, r) && !Unhindered(s, r)
    requires s'.tunnels == Tunnels(s, a) && s'.requests == Requests(s, a)
    requires s'.owned == Owned(s, a) && s'.sessions == Sessions(s, a)
    ensures Underway(s', r) && !Unhindered(s', r)
  {
    var q := s.requests[r];
    var t := q.tunnel;
    RequestsKeepTheirTerms(s, a, r);
    TunnelsOnlyAdvance(s, a, t);
    assert RequestOk(s.tunnels, q) && TunnelOk(s.registry, s.tunnels, s.revocations, t);
    HinderedIsNotDispatched(s, a, r);
    if s.tunnels[t].stop || Generation(s.tunnels[t], q.account) != q.generation || q.stage.Failed? {
    } else if q.streaming && (q.stage.Opened? || PastSessionCheck(q.stage)) && !IsOpen(s.tunnels[t], r) {
      StreamsStayShut(s, a, r);
      StagesGoOn(s, a, r);
    } else if !PastSessionCheck(q.stage) && q.session !in s.sessions {
      StagesGoOn(s, a, r);
    } else {
      OutdatedTunnelsStay(s, a, t, s');
    }
  }

  lemma HinderedIsNotDispatched(s: State, a: Action, r: nat)
    requires Enabled(s, a) && Underway(s, r) && !Unhindered(s, r)
    ensures r in Requests(s, a) && !Requests(s, a)[r].stage.Found? && !Requests(s, a)[r].stage.Dispatched?
  {
  }

  /** Stages only go on: a request opened stays so, and one past its session check had a live session. */
  lemma StagesGoOn(s: State, a: Action, r: nat)
    requires Enabled(s, a) && Underway(s, r)
    ensures r in Requests(s, a)
    ensures var q, q' := s.requests[r], Requests(s, a)[r];
            && (q.stage.Opened? || PastSessionCheck(q.stage) ==> q'.stage.Opened? || PastSessionCheck(q'.stage) || q'.stage.Failed?)
            && (q.stage.Failed? ==> q'.stage.Failed?)
            && (PastSessionCheck(q'.stage) && !PastSessionCheck(q.stage) ==> q.session in s.sessions)
  {
  }

  lemma {:induction false} HinderedForGood(s: State, run: seq<Action>, r: nat)
    requires Known(s) && Inv(s) && Runs(s, run) && Underway(s, r) && !Unhindered(s, r)
    ensures !IsDispatched(End(s, run), r)
    decreases |run|
  {
    if run != [] {
      var s' := Apply(s, run[0]);
      StaysHindered(s, run[0], r, s');
      KeepsKnown(s, run[0], s');
      KeepsInv(s, run[0], s');
      HinderedForGood(s', run[1..], r);
    }
  }

  // ----- A request that nothing hinders is dispatched in some continuation -----

  lemma {:induction false} Bounded(ids: set<nat>) returns (bound: nat)
    ensures forall n :: n in ids ==> n < bound
  {
    if ids == {} {
      bound := 0;
    } else {
      var n :| n in ids;
      var rest := Bounded(ids - {n});
      bound := if n < rest then rest else n + 1;
      assert forall x :: x in ids ==> x == n || x in ids - {n};
    }
  }

  lemma UnusedExists(ids: set<nat>)
    ensures exists n: nat :: n !in ids
  {
    var bound := Bounded(ids);
    assert bound !in ids;
  }

  ghost function Unused(ids: set<nat>): (n: nat)
    ensures n !in ids
  {
    UnusedExists(ids);
    var n: nat :| n !in ids;
    n
  }

  /** The step that brings the request forward. A member without a role is invited again. */
  ghost function Onward(s: State, r: nat): Action
    requires Underway(s, r)
  {
    var q := s.requests[r];
    if q.stage.Snapped? then
      if (q.installation, q.account) in s.roles then Admit(r)
      else if q.installation in s.owned then Accept(q.installation, q.account)
      else Claim(q.installation, Unused(s.tokens))
    else if q.stage.Admitted? then Open(r)
    else if q.stage.Opened? then Confirm(r)
    else if q.stage.Confirmed? then Enqueue(r)
    else if s.tunnels[q.tunnel].phase.Serving? then Dispatch(r)
    else Recheck(q.tunnel, true)
  }

  ghost function StepsLeft(s: State, r: nat): nat
    requires Underway(s, r)
  {
    var q := s.requests[r];
    if q.stage.Snapped? then
      if (q.installation, q.account) in s.roles then 6 else if q.installation in s.owned then 7 else 8
    else if q.stage.Admitted? then 5
    else if q.stage.Opened? then 4
    else if q.stage.Confirmed? then 3
    else if s.tunnels[q.tunnel].phase.Serving? then 1
    else 2
  }

  ghost predicate Closer(s: State, r: nat, s': State)
    requires Underway(s, r)
  {
    IsDispatched(s', r) || (Underway(s', r) && Unhindered(s', r) && StepsLeft(s', r) < StepsLeft(s, r))
  }

  /** A queued request waits at most for its tunnel to be rechecked. */
  lemma OnwardInTunnelIsEnabled(s: State, r: nat)
    requires Basics(s) && Underway(s, r) && Unhindered(s, r) && s.requests[r].stage.Queued?
    ensures Enabled(s, Onward(s, r))
  {
    assert RequestOk(s.tunnels, s.requests[r]);
    assert TunnelOk(s.registry, s.tunnels, s.revocations, s.requests[r].tunnel);
  }

  lemma OnwardIsEnabled(s: State, r: nat)
    requires Basics(s) && Underway(s, r) && Unhindered(s, r)
    ensures Enabled(s, Onward(s, r))
  {
    if s.requests[r].stage.Queued? { OnwardInTunnelIsEnabled(s, r); }
  }

  lemma OnwardAdmits(s: State, r: nat)
    requires Basics(s) && Underway(s, r) && Unhindered(s, r) && s.requests[r].stage.Snapped?
    requires (s.requests[r].installation, s.requests[r].account) in s.roles
    ensures Closer(s, r, Apply(s, Admit(r)))
  {
    assert RequestOk(s.tunnels, s.requests[r]);
  }

  lemma OnwardInvites(s: State, r: nat)
    requires Basics(s) && Underway(s, r) && Unhindered(s, r) && s.requests[r].stage.Snapped?
    requires (s.requests[r].installation, s.requests[r].account) !in s.roles && Enabled(s, Onward(s, r))
    ensures Closer(s, r, Apply(s, Onward(s, r)))
  {
    assert RequestOk(s.tunnels, s.requests[r]);
  }

  lemma OnwardInSend(s: State, r: nat)
    requires Underway(s, r) && Unhindered(s, r) && (s.requests[r].stage.Admitted? || s.requests[r].stage.Opened?)
    requires Enabled(s, Onward(s, r))
    ensures Closer(s, r, Apply(s, Onward(s, r)))
  {
  }

  lemma OnwardInQueue(s: State, r: nat)
    requires Underway(s, r) && Unhindered(s, r) && (s.requests[r].stage.Confirmed? || s.requests[r].stage.Queued?)
    requires Enabled(s, Onward(s, r))
    ensures Closer(s, r, Apply(s, Onward(s, r)))
  {
  }

  lemma OnwardIsCloser(s: State, r: nat)
    requires Basics(s) && Underway(s, r) && Unhindered(s, r)
    ensures Enabled(s, Onward(s, r)) && Closer(s, r, Apply(s, Onward(s, r)))
  {
    OnwardIsEnabled(s, r);
    if s.requests[r].stage.Snapped? {
      if (s.requests[r].installation, s.requests[r].account) in s.roles { OnwardAdmits(s, r); } else { OnwardInvites(s, r); }
    } else if s.requests[r].stage.Admitted? || s.requests[r].stage.Opened? {
      OnwardInSend(s, r);
    } else {
      OnwardInQueue(s, r);
    }
  }

  lemma {:induction false} UnhinderedDispatches(s: State, r: nat)
    requires Inv(s) && Underway(s, r) && Unhindered(s, r)
    ensures Dispatches(s, r)
    decreases StepsLeft(s, r)
  {
    OnwardIsCloser(s, r);
    var a := Onward(s, r);
    var s' := Apply(s, a);
    if IsDispatched(s', r) {
      DispatchedAtOnce(s', r);
    } else {
      KeepsInv(s, a, s');
      UnhinderedDispatches(s', r);
    }
    DispatchesBefore(s, a, r);
  }

  lemma DispatchedAtOnce(s: State, r: nat)
    requires IsDispatched(s, r)
    ensures Dispatches(s, r)
  {
    assert Runs(s, []) && End(s, []) == s;
  }

  lemma DispatchesBefore(s: State, a: Action, r: nat)
    requires Enabled(s, a) && Dispatches(Apply(s, a), r)
    ensures Dispatches(s, r)
  {
    var run :| Runs(Apply(s, a), run) && IsDispatched(End(Apply(s, a), run), r);
    RunsCons(s, a, run);
  }

  lemma RunsCons(s: State, a: Action, run: seq<Action>)
    requires Enabled(s, a) && Runs(Apply(s, a), run)
    ensures Runs(s, [a] + run) && End(s, [a] + run) == End(Apply(s, a), run)
  {
    assert ([a] + run)[0] == a && ([a] + run)[1..] == run;
  }

  /** Exactly: in a reachable state, some continuation dispatches a request under way unless something hinders it. */
  lemma DispatchesIffUnhindered(s: State, r: nat)
    requires Reachable(s) && Underway(s, r)
    ensures Dispatches(s, r) <==> Unhindered(s, r)
  {
    ReachableInv(s);
    ReachableKnown(s);
    if Unhindered(s, r) {
      UnhinderedDispatches(s, r);
    } else {
      forall run | Runs(s, run) ensures !IsDispatched(End(s, run), r) { HinderedForGood(s, run, r); }
    }
  }

  // ----- What removals, revocations and logouts leave possible -----

  /**
   * Once a removal has returned, some continuation still dispatches a request that took its generation in time if and
   * only if its tunnel is an orphan and nothing else hinders it.
   */
  lemma RemovalLeavesOrphans(s: State, m: nat, r: nat)
    requires Reachable(s) && m in s.removals && s.removals[m].at.Returned? && r in s.removals[m].stale
    requires Underway(s, r)
    ensures Dispatches(s, r) <==> Orphan(s.revocations, s.requests[r].tunnel) && Unhindered(s, r)
  {
    ReachableInv(s);
    DispatchesIffUnhindered(s, r);
    assert RemovalOk(s, s.removals[m]) && StaleOk(s, s.removals[m], r);
  }

  /**
   * After a detach, forget or token rotation has returned, no tunnel that authenticated with the revoked token
   * dispatches a request, unless another revocation holds it as an orphan.
   */
  lemma RevokedIdentitiesDispatchNothing(s: State, v: nat, r: nat)
    requires Reachable(s) && v in s.revocations && s.revocations[v].at.Done? && Enabled(s, Dispatch(r))
    requires s.tunnels[s.requests[r].tunnel].installation == s.revocations[v].installation
    requires s.tunnels[s.requests[r].tunnel].token == s.revocations[v].token
    ensures Passes(s, r) ==> Orphan(s.revocations, s.requests[r].tunnel)
  {
    ReachableInv(s);
    assert IdentityOk(s, s.revocations[v]) && SilentTunnel(s, s.revocations[v], s.requests[r].tunnel);
  }

  /** Exactly: some continuation dispatches a request on such a tunnel iff it is an orphan and nothing hinders it. */
  lemma RevocationLeavesOrphans(s: State, v: nat, r: nat)
    requires Reachable(s) && v in s.revocations && s.revocations[v].at.Done? && Underway(s, r)
    requires s.tunnels[s.requests[r].tunnel].installation == s.revocations[v].installation
    requires s.tunnels[s.requests[r].tunnel].token == s.revocations[v].token
    ensures Dispatches(s, r) <==> Orphan(s.revocations, s.requests[r].tunnel) && Unhindered(s, r)
  {
    ReachableInv(s);
    DispatchesIffUnhindered(s, r);
    assert IdentityOk(s, s.revocations[v]) && SilentTunnel(s, s.revocations[v], s.requests[r].tunnel);
  }

  /** After a logout has returned, no stream of its session is dispatched or open, orphans again aside. */
  lemma LoggedOutStreamsAreSilent(s: State, l: nat, r: nat)
    requires Reachable(s) && l in s.logouts && s.logouts[l].returned && r in s.requests
    requires s.requests[r].session == s.logouts[l].session && s.requests[r].streaming
    ensures s.requests[r].tunnel in s.tunnels
    ensures PastSessionCheck(s.requests[r].stage) && Passes(s, r) ==> Orphan(s.revocations, s.requests[r].tunnel)
  {
    ReachableInv(s);
    assert LogoutOk(s, s.logouts[l]) && LoggedOut(s, s.logouts[l], r);
  }

  /** Exactly: some continuation dispatches a stream of that session iff it is on an orphan and nothing hinders it. */
  lemma LogoutLeavesOrphans(s: State, l: nat, r: nat)
    requires Reachable(s) && l in s.logouts && s.logouts[l].returned && Underway(s, r)
    requires s.requests[r].session == s.logouts[l].session && s.requests[r].streaming
    ensures Dispatches(s, r) <==> Orphan(s.revocations, s.requests[r].tunnel) && Unhindered(s, r)
  {
    ReachableInv(s);
    DispatchesIffUnhindered(s, r);
    assert LogoutOk(s, s.logouts[l]) && LoggedOut(s, s.logouts[l], r);
  }

  // ----- The registry -----

  /** The steps that end a tunnel's registration: its replacement, a revocation, a shutdown, or its own end. */
  predicate Displaces(s: State, a: Action, t: nat)
    requires Enabled(s, a) && t in s.tunnels
  {
    match a
    case Register(u) => u != t && s.tunnels[u].installation == s.tunnels[t].installation
    case RevocationTake(v) => s.revocations[v].installation == s.tunnels[t].installation
    case EndLoop(u) => u == t
    case Unregister(u) => u == t
    case Shutdown => true
    case _ => false
  }

  ghost predicate Undisturbed(s: State, run: seq<Action>, t: nat)
    requires Runs(s, run)
    decreases |run|
  {
    run == [] || (t in s.tunnels && !Displaces(s, run[0], t) && Undisturbed(Apply(s, run[0]), run[1..], t))
  }

  /**
   * A registered tunnel stays registered over every run in which it is not replaced, revoked, shut down or ended
   * itself; the end of any other connection, such as the one it replaced, never removes it.
   */
  lemma {:induction false} RegisteredTunnelsStay(s: State, run: seq<Action>, t: nat)
    requires Basics(s) && Runs(s, run) && t in s.tunnels && Listed(s.registry, s.tunnels, t) && Undisturbed(s, run, t)
    ensures t in End(s, run).tunnels && Listed(End(s, run).registry, End(s, run).tunnels, t)
    decreases |run|
  {
    if run != [] {
      var s' := Apply(s, run[0]);
      TunnelsOnlyAdvance(s, run[0], t);
      KeepsBasics(s, run[0], s');
      RegisteredTunnelsStay(s', run[1..], t);
    }
  }

  // ----- The race happens -----

  lemma {:induction false} RunsSnoc(s: State, run: seq<Action>, a: Action)
    requires Runs(s, run) && Enabled(End(s, run), a)
    ensures Runs(s, run + [a]) && End(s, run + [a]) == Apply(End(s, run), a)
    decreases |run|
  {
    if run != [] {
      RunsSnoc(Apply(s, run[0]), run[1..], a);
      assert (run + [a])[1..] == run[1..] + [a];
    } else {
      assert [a][1..] == [];
    }
  }

  lemma Reach(s: State, a: Action, s': State)
    requires Reachable(s) && Enabled(s, a) && Apply(s, a) == s'
    ensures Reachable(s')
  {
    var run :| Runs(INITIAL, run) && End(INITIAL, run) == s;
    RunsSnoc(INITIAL, run, a);
    assert Runs(INITIAL, run + [a]) && End(INITIAL, run + [a]) == s';
  }

  // Installation 1 holds token 10; account 7 is a member, signed in as session 3; tunnel 0 serves.

  ghost const CLAIMED := INITIAL.(owned := map[1 := 10], tokens := {10})
  ghost const SIGNED_IN := CLAIMED.(roles := {(1, 7)}, sessions := {3})

  lemma ClaimedIsReachable()
    ensures Reachable(CLAIMED)
  {
    assert Runs(INITIAL, []) && End(INITIAL, []) == INITIAL;
    Reach(INITIAL, Claim(1, 10), CLAIMED);
  }

  lemma AcceptedIsReachable()
    ensures Reachable(CLAIMED.(roles := {(1, 7)}))
  {
    ClaimedIsReachable();
    Reach(CLAIMED, Accept(1, 7), CLAIMED.(roles := {(1, 7)}));
  }

  lemma SignedInIsReachable()
    ensures Reachable(SIGNED_IN)
  {
    AcceptedIsReachable();
    Reach(CLAIMED.(roles := {(1, 7)}), SignIn(3), SIGNED_IN);
  }

  /** The tunnel at some phase, before and after it is registered. */
  ghost function Connecting(phase: Phase): State {
    SIGNED_IN.(tunnels := map[0 := Tunnel(1, 10, phase, false, map[], map[])],
               registry := if phase.Negotiated? then map[] else map[1 := 0])
  }

  lemma NegotiatedIsReachable()
    ensures Reachable(Connecting(Negotiated))
  {
    SignedInIsReachable();
    Reach(SIGNED_IN, Negotiate(0, 1, 10), Connecting(Negotiated));
  }

  lemma RegisteredIsReachable()
    ensures Reachable(Connecting(Registered))
  {
    NegotiatedIsReachable();
    Reach(Connecting(Negotiated), Register(0), Connecting(Registered));
  }

  lemma ServingIsReachable()
    ensures Reachable(Connecting(Serving))
  {
    RegisteredIsReachable();
    Reach(Connecting(Registered), Recheck(0, true), Connecting(Serving));
  }

  /** The member's streaming request at some stage, on the serving tunnel. */
  ghost function Asking(stage: Stage): State {
    Connecting(Serving).(
      requests := map[0 := Request(1, 7, 3, true, 0, 0, stage, {})],
      tunnels := map[0 := Tunnel(1, 10, Serving, false, map[],
                                 if PastRoleCheck(stage) && !stage.Admitted? then map[0 := Stream(7, 3, false)] else map[])])
  }

  lemma FoundIsReachable()
    ensures Reachable(Asking(Found))
  {
    ServingIsReachable();
    Reach(Connecting(Serving), Find(0, Request(1, 7, 3, true, 0, 0, Found, {})), Asking(Found));
  }

  lemma SnappingStep()
    ensures Enabled(Asking(Found), Snap(0)) && Apply(Asking(Found), Snap(0)) == Asking(Snapped)
  {
  }

  lemma SnappedIsReachable()
    ensures Reachable(Asking(Snapped))
  {
    FoundIsReachable();
    SnappingStep();
    Reach(Asking(Found), Snap(0), Asking(Snapped));
  }

  lemma AdmittingStep()
    ensures Enabled(Asking(Snapped), Admit(0)) && Apply(Asking(Snapped), Admit(0)) == Asking(Admitted)
  {
    assert Asking(Snapped).removals.Keys == {};
  }

  lemma AdmittedIsReachable()
    ensures Reachable(Asking(Admitted))
  {
    SnappedIsReachable();
    AdmittingStep();
    Reach(Asking(Snapped), Admit(0), Asking(Admitted));
  }

  lemma OpenedIsReachable()
    ensures Reachable(Asking(Opened))
  {
    AdmittedIsReachable();
    OpeningStep();
    Reach(Asking(Admitted), Open(0), Asking(Opened));
  }

  lemma OpeningStep()
    ensures Enabled(Asking(Admitted), Open(0)) && Apply(Asking(Admitted), Open(0)) == Asking(Opened)
  {
  }

  lemma ConfirmedIsReachable()
    ensures Reachable(Asking(Confirmed))
  {
    OpenedIsReachable();
    ConfirmingStep();
    Reach(Asking(Opened), Confirm(0), Asking(Confirmed));
  }

  lemma ConfirmingStep()
    ensures Enabled(Asking(Opened), Confirm(0)) && Apply(Asking(Opened), Confirm(0)) == Asking(Confirmed)
  {
  }

  lemma QueueingStep()
    ensures Enabled(Asking(Confirmed), Enqueue(0)) && Apply(Asking(Confirmed), Enqueue(0)) == Asking(Queued)
  {
  }

  lemma QueuedIsReachable()
    ensures Reachable(Asking(Queued))
  {
    ConfirmedIsReachable();
    QueueingStep();
    Reach(Asking(Confirmed), Enqueue(0), Asking(Queued));
  }

  /** The installation's token is rotated, and then rotated again before the first rotation goes on. */
  ghost const ROTATED :=
    Asking(Queued).(owned := map[1 := 11], tokens := {10, 11}, revocations := map[0 := Revocation(1, 10, Recorded)])

  ghost function Rotating(first: RevocationStep, second: RevocationStep): State {
    Asking(Queued).(owned := map[1 := 12], tokens := {10, 11, 12},
                    revocations := map[0 := Revocation(1, 10, first), 1 := Revocation(1, 11, second)],
                    registry := if second.Recorded? then map[1 := 0] else map[])
  }

  lemma RotatedIsReachable()
    ensures Reachable(ROTATED)
  {
    QueuedIsReachable();
    Reach(Asking(Queued), RevocationCommit(0, 1, Some(11)), ROTATED);
  }

  lemma RecordedIsReachable()
    ensures Reachable(Rotating(Recorded, Recorded))
  {
    RotatedIsReachable();
    Reach(ROTATED, RevocationCommit(1, 1, Some(12)), Rotating(Recorded, Recorded));
  }

  /** The second rotation has taken the tunnel out of the registry and is interrupted before stopping it. */
  ghost const TAKEN := Rotating(Recorded, Taken(0))

  lemma TakenIsReachable()
    ensures Reachable(TAKEN)
  {
    RecordedIsReachable();
    Reach(Rotating(Recorded, Recorded), RevocationTake(1), TAKEN);
  }

  /** The first rotation finds no tunnel and returns; a tunnel with its revoked token still dispatches. */
  lemma RotationRace()
    ensures Reachable(Rotating(Done, Taken(0)))
    ensures Enabled(Rotating(Done, Taken(0)), Dispatch(0)) && Passes(Rotating(Done, Taken(0)), 0)
  {
    TakenIsReachable();
    Reach(TAKEN, RevocationTake(0), Rotating(Done, Taken(0)));
  }

  ghost function Removing(at: RemovalStep): State {
    TAKEN.(roles := {}, removals := map[0 := Removal(1, 7, {0}, false, false, at)])
  }

  lemma RemovingIsReachable()
    ensures Reachable(Removing(Committed))
  {
    TakenIsReachable();
    assert Snapshots(TAKEN, 1, 7) == {0};
    Reach(TAKEN, RemovalCommit(0, 1, 7), Removing(Committed));
  }

  lemma LookupStep()
    ensures Enabled(Removing(Committed), RemovalLookup(0)) && Apply(Removing(Committed), RemovalLookup(0)) == Removing(Returned)
  {
    assert Removing(Committed).revocations[1] == Revocation(1, 11, Taken(0));
    assert !Tidy(Removing(Committed), 1);
    assert Snapshots(Removing(Committed), 1, 7) == {0} && {0} + {0} == {0};
  }

  /** The member's removal finds no tunnel and returns; the member's request still passes. */
  lemma RemovalRace()
    ensures Reachable(Removing(Returned)) && Enabled(Removing(Returned), Dispatch(0)) && Passes(Removing(Returned), 0)
  {
    RemovingIsReachable();
    LookupStep();
    Reach(Removing(Committed), RemovalLookup(0), Removing(Returned));
  }

  ghost function LoggingOut(returned: bool): State {
    TAKEN.(sessions := {}, pastSessions := {3}, logouts := map[0 := Logout(3, returned)])
  }

  lemma LoggingOutIsReachable()
    ensures Reachable(LoggingOut(false))
  {
    TakenIsReachable();
    Reach(TAKEN, LogoutCommit(0, 3), LoggingOut(false));
  }

  lemma LogoutStep()
    ensures Enabled(LoggingOut(false), LogoutRevoke(0)) && Apply(LoggingOut(false), LogoutRevoke(0)) == LoggingOut(true)
  {
  }

  /** The logout passes the tunnel over and returns; the session's stream is still open and dispatched. */
  lemma LogoutRace()
    ensures Reachable(LoggingOut(true)) && Enabled(LoggingOut(true), Dispatch(0)) && Passes(LoggingOut(true), 0)
  {
    LoggingOutIsReachable();
    LogoutStep();
    Reach(LoggingOut(false), LogoutRevoke(0), LoggingOut(true));
  }
}
