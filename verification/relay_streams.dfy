/**
 * What revocations in the relay touch and what they leave alone (crates/beacon/src/relay.rs): exactly which steps
 * close a stream, move a generation or stop a tunnel, and so who is barred by whose removal.
 */
module RelayStreams {
  import opened Common
  import opened Relay

  // ----- One step -----

  /** The stream is opened: its request passes the last access check on this tunnel. */
  ghost predicate Opens(s: State, a: Action, t: nat, stream: nat)
    requires Enabled(s, a) && t in s.tunnels
  {
    && a == Open(stream) && s.requests[stream].tunnel == t && s.requests[stream].streaming
    && Generation(s.tunnels[t], s.requests[stream].account) == s.requests[stream].generation && !s.tunnels[t].stop
  }

  /**
   * What closes an open stream: a removal of its account that holds this tunnel, the logout of its session while the
   * tunnel is registered, a failed check of its own session, or its own drop.
   */
  ghost predicate Closes(s: State, a: Action, t: nat, stream: nat)
    requires Enabled(s, a) && t in s.tunnels && stream in s.tunnels[t].streams
  {
    var open := s.tunnels[t].streams[stream];
    match a
    case RemovalBump(m) => s.removals[m].at == Holding(t) && s.removals[m].account == open.account
    case LogoutRevoke(l) =>
      && s.tunnels[t].installation in s.registry && s.registry[s.tunnels[t].installation] == t
      && s.logouts[l].session == open.session
    case Confirm(r) => r == stream && s.requests[r].tunnel == t && s.requests[r].session !in s.sessions
    case DropBody(r) => r == stream && s.requests[r].tunnel == t
    case _ => false
  }

  lemma TunnelsOfStep(s: State, a: Action)
    requires Enabled(s, a)
    ensures Apply(s, a).tunnels == Tunnels(s, a)
  {
  }

  /** Whether the step works on this tunnel. */
  ghost predicate WorksOn(s: State, a: Action, t: nat)
    requires Enabled(s, a)
  {
    a.LogoutRevoke? || a.Shutdown? || Touched(s, a) == Some(t)
  }

  lemma StreamsOfStep(s: State, a: Action, t: nat)
    requires Enabled(s, a) && t in s.tunnels
    ensures t in Tunnels(s, a)
    ensures Tunnels(s, a)[t].streams == if WorksOn(s, a, t) then Advance(s, a, t).streams else s.tunnels[t].streams
  {
  }

  lemma OpenAfterAdvance(s: State, a: Action, t: nat, stream: nat)
    requires Enabled(s, a) && t in s.tunnels && WorksOn(s, a, t)
    ensures IsOpen(Advance(s, a, t), stream) <==>
            Opens(s, a, t, stream) || (IsOpen(s.tunnels[t], stream) && !Closes(s, a, t, stream))
  {
  }

  lemma StreamAdvances(s: State, a: Action, t: nat, stream: nat)
    requires Enabled(s, a) && t in s.tunnels
    ensures t in Tunnels(s, a)
    ensures IsOpen(Tunnels(s, a)[t], stream) <==>
            Opens(s, a, t, stream) || (IsOpen(s.tunnels[t], stream) && !Closes(s, a, t, stream))
  {
    StreamsOfStep(s, a, t);
    if WorksOn(s, a, t) { OpenAfterAdvance(s, a, t, stream); }
  }

  /** Exactly those steps open and close a stream; every other stream is left alone. */
  lemma StreamNext(s: State, a: Action, t: nat, stream: nat)
    requires Enabled(s, a) && t in s.tunnels
    ensures t in Apply(s, a).tunnels
    ensures IsOpen(Apply(s, a).tunnels[t], stream) <==>
            Opens(s, a, t, stream) || (IsOpen(s.tunnels[t], stream) && !Closes(s, a, t, stream))
  {
    TunnelsOfStep(s, a);
    StreamAdvances(s, a, t, stream);
  }

  lemma OwnerAdvances(s: State, a: Action, t: nat, stream: nat)
    requires Enabled(s, a) && t in s.tunnels && IsOpen(s.tunnels[t], stream) && !Opens(s, a, t, stream)
    requires t in Tunnels(s, a) && IsOpen(Tunnels(s, a)[t], stream)
    ensures Tunnels(s, a)[t].streams[stream] == s.tunnels[t].streams[stream]
  {
    StreamsOfStep(s, a, t);
  }

  /** An open stream keeps its account and its session. */
  lemma StreamKeepsItsOwner(s: State, a: Action, t: nat, stream: nat)
    requires Enabled(s, a) && t in s.tunnels && IsOpen(s.tunnels[t], stream) && !Opens(s, a, t, stream)
    requires t in Apply(s, a).tunnels && IsOpen(Apply(s, a).tunnels[t], stream)
    ensures Apply(s, a).tunnels[t].streams[stream] == s.tunnels[t].streams[stream]
  {
    TunnelsOfStep(s, a);
    OwnerAdvances(s, a, t, stream);
  }

  /** A removal of the account bumps its generation on this tunnel. */
  ghost predicate Bumps(s: State, a: Action, t: nat, account: nat)
    requires Enabled(s, a)
  {
    a.RemovalBump? && s.removals[a.id].at == Holding(t) && s.removals[a.id].account == account
  }

  lemma GenerationAdvances(s: State, a: Action, t: nat, account: nat)
    requires Enabled(s, a) && t in s.tunnels
    ensures t in Tunnels(s, a)
    ensures Generation(Tunnels(s, a)[t], account)
            == Generation(s.tunnels[t], account) + if Bumps(s, a, t, account) then 1 else 0
  {
  }

  /** A generation moves only with a removal of its own account that holds the tunnel, and then by one. */
  lemma GenerationNext(s: State, a: Action, t: nat, account: nat)
    requires Enabled(s, a) && t in s.tunnels
    ensures t in Apply(s, a).tunnels
    ensures Generation(Apply(s, a).tunnels[t], account)
            == Generation(s.tunnels[t], account) + if Bumps(s, a, t, account) then 1 else 0
  {
    TunnelsOfStep(s, a);
    GenerationAdvances(s, a, t, account);
  }

  /**
   * What stops a tunnel: the revocation that took it, the registration of its replacement, a failed recheck of its
   * identity, the end of its loop, or a shutdown while it is registered.
   */
  ghost predicate Stops(s: State, a: Action, t: nat)
    requires Enabled(s, a) && t in s.tunnels
  {
    var i := s.tunnels[t].installation;
    var registered := i in s.registry && s.registry[i] == t;
    match a
    case RevocationStop(v) => s.revocations[v].at == Taken(t)
    case Register(u) => u != t && s.tunnels[u].installation in s.registry && s.registry[s.tunnels[u].installation] == t
    case Recheck(u, answered) => u == t && !(answered && i in s.owned && s.owned[i] == s.tunnels[t].token)
    case EndLoop(u) => u == t
    case Shutdown => registered
    case _ => false
  }

  lemma StopAdvances(s: State, a: Action, t: nat)
    requires Enabled(s, a) && t in s.tunnels
    ensures t in Tunnels(s, a)
    ensures Tunnels(s, a)[t].stop <==> s.tunnels[t].stop || Stops(s, a, t)
  {
  }

  /** Exactly those steps stop a tunnel. */
  lemma StopNext(s: State, a: Action, t: nat)
    requires Enabled(s, a) && t in s.tunnels
    ensures t in Apply(s, a).tunnels
    ensures Apply(s, a).tunnels[t].stop <==> s.tunnels[t].stop || Stops(s, a, t)
  {
    TunnelsOfStep(s, a);
    StopAdvances(s, a, t);
  }

  // ----- Whole runs -----

  /** The states a run goes through. */
  ghost predicate Trace(states: seq<State>, run: seq<Action>) {
    && |states| == |run| + 1 && states[0] == INITIAL
    && forall i :: 0 <= i < |run| ==> Enabled(states[i], run[i]) && states[i + 1] == Apply(states[i], run[i])
  }

  lemma {:induction false} EveryRunHasATrace(s: State, run: seq<Action>) returns (states: seq<State>)
    requires Runs(s, run)
    ensures |states| == |run| + 1 && states[0] == s && states[|run|] == End(s, run)
    ensures forall i :: 0 <= i < |run| ==> Enabled(states[i], run[i]) && states[i + 1] == Apply(states[i], run[i])
    decreases |run|
  {
    if run == [] {
      states := [s];
    } else {
      var rest := EveryRunHasATrace(Apply(s, run[0]), run[1..]);
      states := [s] + rest;
    }
  }

  ghost predicate IsOpenAt(states: seq<State>, n: nat, t: nat, stream: nat)
    requires n < |states|
  {
    t in states[n].tunnels && IsOpen(states[n].tunnels[t], stream)
  }

  ghost predicate OpenedAt(states: seq<State>, run: seq<Action>, i: nat, t: nat, stream: nat)
    requires Trace(states, run) && i < |run|
  {
    t in states[i].tunnels && Opens(states[i], run[i], t, stream)
  }

  ghost predicate ClosedAt(states: seq<State>, run: seq<Action>, k: nat, t: nat, stream: nat)
    requires Trace(states, run) && k < |run|
  {
    t in states[k].tunnels && stream in states[k].tunnels[t].streams && Closes(states[k], run[k], t, stream)
  }

  lemma NewTunnelsHaveNoStreams(s: State, a: Action, t: nat, stream: nat)
    requires Enabled(s, a) && t !in s.tunnels && t in Apply(s, a).tunnels
    ensures !IsOpen(Apply(s, a).tunnels[t], stream)
  {
  }

  lemma OpenAtNext(states: seq<State>, run: seq<Action>, n: nat, t: nat, stream: nat)
    requires Trace(states, run) && n < |run|
    ensures IsOpenAt(states, n + 1, t, stream) <==>
            OpenedAt(states, run, n, t, stream)
            || (IsOpenAt(states, n, t, stream) && !ClosedAt(states, run, n, t, stream))
  {
    if t in states[n].tunnels {
      StreamNext(states[n], run[n], t, stream);
    } else if t in states[n + 1].tunnels {
      NewTunnelsHaveNoStreams(states[n], run[n], t, stream);
    }
  }

  /** Step i opened the stream and nothing has closed it since. */
  ghost predicate OpenSince(states: seq<State>, run: seq<Action>, i: nat, n: nat, t: nat, stream: nat)
    requires Trace(states, run) && n <= |run|
  {
    i < n && OpenedAt(states, run, i, t, stream) && forall k :: i < k < n ==> !ClosedAt(states, run, k, t, stream)
  }

  /**
   * Over every run: a stream is open exactly if it was opened and since then neither its account was removed, nor its
   * session ended or its own check failed, nor was it dropped.
   */
  lemma {:induction false} StreamIsOpenIff(states: seq<State>, run: seq<Action>, n: nat, t: nat, stream: nat)
    requires Trace(states, run) && n <= |run|
    ensures IsOpenAt(states, n, t, stream) <==> exists i: nat :: OpenSince(states, run, i, n, t, stream)
  {
    if n > 0 {
      var m := n - 1;
      StreamIsOpenIff(states, run, m, t, stream);
      OpenAtNext(states, run, m, t, stream);
      OpenSinceNext(states, run, m, n, t, stream);
    }
  }

  lemma OpenSinceNext(states: seq<State>, run: seq<Action>, m: nat, n: nat, t: nat, stream: nat)
    requires Trace(states, run) && m < |run| && n == m + 1
    ensures (exists i: nat :: OpenSince(states, run, i, n, t, stream)) <==>
            OpenedAt(states, run, m, t, stream)
            || ((exists i: nat :: OpenSince(states, run, i, m, t, stream)) && !ClosedAt(states, run, m, t, stream))
  {
    if i: nat :| OpenSince(states, run, i, m, t, stream) && !ClosedAt(states, run, m, t, stream) {
      assert OpenSince(states, run, i, n, t, stream);
    }
    if i: nat :| OpenSince(states, run, i, n, t, stream) {
      if i < m { assert OpenSince(states, run, i, m, t, stream); }
    }
    if OpenedAt(states, run, m, t, stream) { assert OpenSince(states, run, m, n, t, stream); }
  }

  // ----- Whose stream it is -----

  /** A stream has the account and the session of the request it was opened for. */
  ghost predicate Theirs(s: State) {
    forall t, r :: t in s.tunnels && r in s.tunnels[t].streams ==> Its(s, t, r)
  }

  ghost predicate Its(s: State, t: nat, r: nat)
    requires t in s.tunnels && r in s.tunnels[t].streams
  {
    && r in s.requests
    && s.tunnels[t].streams[r].account == s.requests[r].account
    && s.tunnels[t].streams[r].session == s.requests[r].session
  }

  lemma StreamsComeFromRequests(s: State, a: Action, t: nat, r: nat)
    requires Enabled(s, a) && t in Tunnels(s, a) && r in Tunnels(s, a)[t].streams
    ensures var stream := Tunnels(s, a)[t].streams[r];
            || (t in s.tunnels && r in s.tunnels[t].streams && stream.account == s.tunnels[t].streams[r].account
                && stream.session == s.tunnels[t].streams[r].session)
            || (a == Open(r) && stream.account == s.requests[r].account && stream.session == s.requests[r].session)
  {
    if t in s.tunnels { StreamsOfStep(s, a, t); }
  }

  lemma StreamIsStillIts(s: State, a: Action, t: nat, r: nat)
    requires Enabled(s, a) && Theirs(s) && t in Apply(s, a).tunnels && r in Apply(s, a).tunnels[t].streams
    ensures Its(Apply(s, a), t, r)
  {
    TunnelsOfStep(s, a);
    StreamsComeFromRequests(s, a, t, r);
    if t in s.tunnels && r in s.tunnels[t].streams { assert Its(s, t, r); }
    RequestsKeepTheirTerms(s, a, r);
  }

  lemma {:induction false} StreamsAreTheirs(states: seq<State>, run: seq<Action>, n: nat)
    requires Trace(states, run) && n <= |run|
    ensures Theirs(states[n])
  {
    if n > 0 {
      var m := n - 1;
      StreamsAreTheirs(states, run, m);
      forall t, r | t in states[n].tunnels && r in states[n].tunnels[t].streams ensures Its(states[n], t, r) {
        assert m + 1 == n;
        StreamIsStillIts(states[m], run[m], t, r);
      }
    }
  }

  /**
   * A removal closes streams of its own account only: if a stream closes at a step of a removal, its request's account
   * is the one removed, and if it closes at a logout, its request's session is the one logged out.
   */
  lemma OthersAreSpared(states: seq<State>, run: seq<Action>, n: nat, t: nat, stream: nat)
    requires Trace(states, run) && n < |run| && IsOpenAt(states, n, t, stream) && !IsOpenAt(states, n + 1, t, stream)
    ensures stream in states[n].requests
    ensures run[n].RemovalBump? ==> states[n].removals[run[n].id].account == states[n].requests[stream].account
    ensures run[n].LogoutRevoke? ==> states[n].logouts[run[n].id].session == states[n].requests[stream].session
    ensures run[n].RemovalBump? || run[n].LogoutRevoke? || run[n] == Confirm(stream) || run[n] == DropBody(stream)
  {
    StreamsAreTheirs(states, run, n);
    assert Its(states[n], t, stream);
    OpenAtNext(states, run, n, t, stream);
  }

  /** How often a removal of the account has held the tunnel: its generation, over every run. */
  ghost function Removals(states: seq<State>, run: seq<Action>, n: nat, t: nat, account: nat): nat
    requires Trace(states, run) && n <= |run|
  {
    if n == 0 then 0
    else
      Removals(states, run, n - 1, t, account) + if Bumps(states[n - 1], run[n - 1], t, account) then 1 else 0
  }

  lemma {:induction false} GenerationsCountRemovals(states: seq<State>, run: seq<Action>, n: nat, t: nat, account: nat)
    requires Trace(states, run) && n <= |run|
    ensures t in states[n].tunnels ==> Generation(states[n].tunnels[t], account) == Removals(states, run, n, t, account)
    ensures t !in states[n].tunnels ==> Removals(states, run, n, t, account) == 0
  {
    if n > 0 {
      var m := n - 1;
      GenerationsCountRemovals(states, run, m, t, account);
      assert states[m + 1] == Apply(states[m], run[m]);
      if t in states[m].tunnels { GenerationNext(states[m], run[m], t, account); }
    }
  }

  // ----- The registry and the database -----

  /** What unregisters a tunnel: a revocation of its installation, its replacement, its own end, or a shutdown. */
  ghost predicate Delists(s: State, a: Action, installation: nat, t: nat)
    requires Enabled(s, a)
  {
    match a
    case RevocationTake(v) => s.revocations[v].installation == installation
    case Register(u) => u != t && s.tunnels[u].installation == installation
    case Unregister(u) => u == t && s.tunnels[u].installation == installation
    case Shutdown => true
    case _ => false
  }

  /** Exactly those steps do, and only its own registration puts it there. */
  lemma RegisteredNext(s: State, a: Action, installation: nat, t: nat)
    requires Enabled(s, a)
    ensures var before, after := s.registry, Apply(s, a).registry;
            installation in after && after[installation] == t <==>
              || (a == Register(t) && s.tunnels[t].installation == installation)
              || (installation in before && before[installation] == t && !Delists(s, a, installation, t))
  {
  }

  /** A role is given by accepting an invitation, and ends with the member's removal or with the installation. */
  lemma RoleNext(s: State, a: Action, installation: nat, account: nat)
    requires Enabled(s, a)
    ensures (installation, account) in Apply(s, a).roles <==>
              || a == Accept(installation, account)
              || ((installation, account) in s.roles
                  && !(a.RemovalCommit? && a.installation == installation && a.account == account)
                  && !(a.RevocationCommit? && a.installation == installation && a.replacement.None?))
  {
  }

  /** A session begins with its sign-in and ends with its logout. */
  lemma SessionNext(s: State, a: Action, session: nat)
    requires Enabled(s, a)
    ensures session in Apply(s, a).sessions <==>
              a == SignIn(session) || (session in s.sessions && !(a.LogoutCommit? && a.session == session))
  {
  }

  /** An installation is owned, with one token, from its claim to its detach; a rotation replaces the token. */
  lemma OwnedNext(s: State, a: Action, installation: nat, token: nat)
    requires Enabled(s, a)
    ensures var after := Apply(s, a).owned;
            installation in after && after[installation] == token <==>
              || a == Claim(installation, token)
              || (a.RevocationCommit? && a.installation == installation && a.replacement == Some(token))
              || (installation in s.owned && s.owned[installation] == token
                  && !(a.RevocationCommit? && a.installation == installation))
  {
  }
}
