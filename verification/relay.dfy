/**
 * Access to installations through the relay (crates/beacon/src/relay.rs) as a step system: each database
 * transaction and each section run under one lock is one step, and every actor may be interrupted between
 * two of its steps.
 *
 * The actors are browser requests (`forward` and `send`), tunnels (`serve_socket`), member removals
 * (`remove_membership`), installation revocations (`detach`, `forget` and `rotate_token`, which all end in
 * `revoke_access(installation, None)`) and logouts.
 */
module Relay {
  import opened Common

  datatype Stream = Stream(account: nat, session: nat, revoked: bool)

  /** `Negotiated` is not registered yet; `Serving` has rechecked its identity and runs its socket loop. */
  datatype Phase = Negotiated | Registered | Serving | Ended

  datatype Tunnel = Tunnel(
    installation: nat, token: nat, phase: Phase, stop: bool,
    generations: map<nat, nat>, streams: map<nat, Stream>
  )

  /** How far a browser request has come. */
  datatype Stage = Found | Snapped | Admitted | Opened | Confirmed | Queued | Dispatched | Failed

  /** `after` records, at its admission, which removals had been committed. */
  datatype Request = Request(
    installation: nat, account: nat, session: nat, streaming: bool,
    tunnel: nat, generation: nat, stage: Stage, after: set<nat>
  )

  /**
   * `stale` records the requests that took their generation before the revocation: before the lookup, or on the
   * tunnel looked up before its bump. `reinvited` records that the member was given a role again since the commit.
   * For `clean`, see `RemovalLookup`.
   */
  datatype Removal = Removal(
    installation: nat, account: nat, stale: set<nat>, reinvited: bool, clean: bool, at: RemovalStep
  )
  datatype RemovalStep = Committed | Holding(tunnel: nat) | Returned

  datatype Revocation = Revocation(installation: nat, token: nat, at: RevocationStep)
  datatype RevocationStep = Recorded | Taken(tunnel: nat) | Done

  datatype Logout = Logout(session: nat, returned: bool)

  datatype State = State(
    // The database.
    owned: map<nat, nat>,           // installation -> token digest, while it has an owner
    tokens: set<nat>,               // every token digest ever issued
    roles: set<(nat, nat)>,         // (installation, account) pairs with a role
    sessions: set<nat>,
    pastSessions: set<nat>,
    // The relay.
    registry: map<nat, nat>,
    closing: bool,
    tunnels: map<nat, Tunnel>,
    // The other actors.
    requests: map<nat, Request>,
    removals: map<nat, Removal>,
    revocations: map<nat, Revocation>,
    logouts: map<nat, Logout>
  )

  const INITIAL := State(map[], {}, {}, {}, {}, map[], false, map[], map[], map[], map[], map[])

  datatype Action =
    // Database transactions that grant something.
    | Claim(installation: nat, token: nat)
    | Accept(installation: nat, account: nat)
    | SignIn(session: nat)
    // A member removal: commit, then `revoke_access(installation, Some(account))`.
    | RemovalCommit(id: nat, installation: nat, account: nat)
    | RemovalLookup(id: nat)
    | RemovalBump(id: nat)
    // An installation revocation: commit, then `revoke_access(installation, None)`.
    | RevocationCommit(id: nat, installation: nat, replacement: Option<nat>)
    | RevocationTake(id: nat)
    | RevocationStop(id: nat)
    // A logout: commit, then `revoke_session`.
    | LogoutCommit(id: nat, session: nat)
    | LogoutRevoke(id: nat)
    // Tunnels.
    | Negotiate(id: nat, installation: nat, token: nat)
    | Register(id: nat)
    | Recheck(id: nat, answered: bool)
    | EndLoop(id: nat)
    | Unregister(id: nat)
    | Reap(id: nat)
    | Shutdown
    // Browser requests.
    | Find(id: nat, request: Request)
    | Snap(id: nat)
    | Admit(id: nat)
    | Open(id: nat)
    | Confirm(id: nat)
    | Enqueue(id: nat)
    | Dispatch(id: nat)
    | DropBody(id: nat)

  // ----- Reading the state -----

  function Generation(t: Tunnel, account: nat): nat {
    if account in t.generations then t.generations[account] else 0
  }

  /** `Tunnel::access_revoked`. */
  predicate AccessRevoked(t: Tunnel, account: nat, generation: nat) {
    Generation(t, account) != generation || t.stop
  }

  predicate IsOpen(t: Tunnel, stream: nat) {
    stream in t.streams && !t.streams[stream].revoked
  }

  /** The check the socket loop makes before it dispatches a queued request. */
  predicate Passes(s: State, id: nat)
    requires id in s.requests && s.requests[id].tunnel in s.tunnels
  {
    var r := s.requests[id];
    var t := s.tunnels[r.tunnel];
    !AccessRevoked(t, r.account, r.generation) && (r.streaming ==> IsOpen(t, id))
  }

  predicate Listed(registry: map<nat, nat>, tunnels: map<nat, Tunnel>, t: nat)
    requires t in tunnels
  {
    tunnels[t].installation in registry && registry[tunnels[t].installation] == t
  }

  /** The requests of an account that have taken their generation. */
  function Snapshots(s: State, installation: nat, account: nat): set<nat> {
    set id | id in s.requests && s.requests[id].installation == installation && s.requests[id].account == account
             && !s.requests[id].stage.Found?
  }

  /** Those of them on one tunnel. */
  function SnapshotsOn(s: State, removal: Removal, t: nat): set<nat> {
    set id | id in Snapshots(s, removal.installation, removal.account) && s.requests[id].tunnel == t
  }

  predicate PastRoleCheck(stage: Stage) {
    stage.Admitted? || stage.Opened? || stage.Confirmed? || stage.Queued? || stage.Dispatched?
  }

  predicate PastSessionCheck(stage: Stage) {
    stage.Confirmed? || stage.Queued? || stage.Dispatched?
  }

  // ----- Writing the state -----

  function RevokeStreams(t: Tunnel, account: nat): map<nat, Stream> {
    map id | id in t.streams ::
      if t.streams[id].account == account then t.streams[id].(revoked := true) else t.streams[id]
  }

  /** `revoke_access` for one account, under the tunnel's access lock. */
  function Bump(t: Tunnel, account: nat): Tunnel {
    t.(generations := t.generations[account := Generation(t, account) + 1], streams := RevokeStreams(t, account))
  }

  function RevokeSession(t: Tunnel, session: nat): Tunnel {
    t.(streams := map id | id in t.streams ::
         if t.streams[id].session == session then t.streams[id].(revoked := true) else t.streams[id])
  }

  function Reaped(t: Tunnel): Tunnel {
    t.(streams := map id | id in t.streams && !t.streams[id].revoked :: t.streams[id])
  }

  /** Dropping a `BrowserStream` revokes its stream. */
  function RevokeOne(t: Tunnel, stream: nat): Tunnel {
    if stream in t.streams then t.(streams := t.streams[stream := t.streams[stream].(revoked := true)]) else t
  }

  // ----- Steps -----

  predicate Enabled(s: State, a: Action) {
    match a
    case Claim(i, token) => i !in s.owned && token !in s.tokens
    case Accept(i, _) => i in s.owned
    case SignIn(session) => session !in s.sessions && session !in s.pastSessions
    case RemovalCommit(m, i, account) => m !in s.removals && (i, account) in s.roles
    case RemovalLookup(m) => m in s.removals && s.removals[m].at.Committed?
    case RemovalBump(m) => m in s.removals && s.removals[m].at.Holding? && s.removals[m].at.tunnel in s.tunnels
    case RevocationCommit(v, i, replacement) =>
      v !in s.revocations && i in s.owned && (replacement.Some? ==> replacement.value !in s.tokens)
    case RevocationTake(v) => v in s.revocations && s.revocations[v].at.Recorded?
    case RevocationStop(v) => v in s.revocations && s.revocations[v].at.Taken? && s.revocations[v].at.tunnel in s.tunnels
    case LogoutCommit(l, session) => l !in s.logouts && session in s.sessions
    case LogoutRevoke(l) => l in s.logouts && !s.logouts[l].returned
    case Negotiate(t, i, token) => t !in s.tunnels && i in s.owned && s.owned[i] == token
    case Register(t) => t in s.tunnels && s.tunnels[t].phase.Negotiated? && !s.closing
    case Recheck(t, _) => t in s.tunnels && s.tunnels[t].phase.Registered?
    case EndLoop(t) => t in s.tunnels && s.tunnels[t].phase.Serving?
    case Unregister(t) => t in s.tunnels && s.tunnels[t].phase.Ended?
    case Reap(t) => t in s.tunnels && s.tunnels[t].phase.Serving?
    case Shutdown => true
    case Find(r, request) =>
      && r !in s.requests && request.session in s.sessions && request.stage.Found? && request.after == {}
      && request.installation in s.registry && s.registry[request.installation] == request.tunnel
    case Snap(r) => At(s, r, Found)
    case Admit(r) => At(s, r, Snapped)
    case Open(r) => At(s, r, Admitted)
    case Confirm(r) => At(s, r, Opened)
    case Enqueue(r) => At(s, r, Confirmed)
    case Dispatch(r) => At(s, r, Queued) && s.tunnels[s.requests[r].tunnel].phase.Serving?
    case DropBody(r) => r in s.requests && s.requests[r].tunnel in s.tunnels && PastSessionCheck(s.requests[r].stage)
  }

  predicate At(s: State, r: nat, stage: Stage) {
    r in s.requests && s.requests[r].stage == stage && s.requests[r].tunnel in s.tunnels
  }

  /** Who owns what, as each transaction leaves it. */
  function Owned(s: State, a: Action): map<nat, nat> {
    match a
    case Claim(i, token) => s.owned[i := token]
    case RevocationCommit(_, i, None) => s.owned - {i}
    case RevocationCommit(_, i, Some(token)) => s.owned[i := token]
    case _ => s.owned
  }

  function Tokens(s: State, a: Action): set<nat> {
    match a
    case Claim(_, token) => s.tokens + {token}
    case RevocationCommit(_, _, Some(token)) => s.tokens + {token}
    case _ => s.tokens
  }

  /** Detach and forget end every role of the installation; a token rotation keeps them. */
  function Roles(s: State, a: Action): set<(nat, nat)> {
    match a
    case Accept(i, account) => s.roles + {(i, account)}
    case RemovalCommit(_, i, account) => s.roles - {(i, account)}
    case RevocationCommit(_, i, None) => set role | role in s.roles && role.0 != i
    case _ => s.roles
  }

  function Sessions(s: State, a: Action): set<nat> {
    match a
    case SignIn(session) => s.sessions + {session}
    case LogoutCommit(_, session) => s.sessions - {session}
    case _ => s.sessions
  }

  function PastSessions(s: State, a: Action): set<nat> {
    match a
    case LogoutCommit(_, session) => s.pastSessions + {session}
    case _ => s.pastSessions
  }

  /** The registry, always changed under its lock. An ended tunnel removes only its own entry. */
  function Registry(s: State, a: Action): map<nat, nat>
    requires Enabled(s, a)
  {
    match a
    case RevocationTake(v) => s.registry - {s.revocations[v].installation}
    case Register(t) => s.registry[s.tunnels[t].installation := t]
    case Unregister(t) => if Listed(s.registry, s.tunnels, t) then s.registry - {s.tunnels[t].installation} else s.registry
    case Shutdown => map[]
    case _ => s.registry
  }

  function Tunnels(s: State, a: Action): map<nat, Tunnel>
    requires Enabled(s, a)
  {
    if a.Negotiate? then
      s.tunnels[a.id := Tunnel(a.installation, a.token, Negotiated, false, map[], map[])]
    else if a.LogoutRevoke? || a.Shutdown? then
      map t | t in s.tunnels :: Advance(s, a, t)
    else if Touched(s, a).Some? then
      var t := Touched(s, a).value;
      (if a.Register? then StopPrevious(s, t) else s.tunnels)[t := Advance(s, a, t)]
    else
      s.tunnels
  }

  /** Registering a tunnel stops the one it replaces, under the registry lock. */
  function StopPrevious(s: State, t: nat): map<nat, Tunnel>
    requires t in s.tunnels
  {
    var i := s.tunnels[t].installation;
    if i in s.registry && s.registry[i] in s.tunnels then
      s.tunnels[s.registry[i] := s.tunnels[s.registry[i]].(stop := true)]
    else
      s.tunnels
  }

  /** The one tunnel a step works on, if any. */
  function Touched(s: State, a: Action): (touched: Option<nat>)
    requires Enabled(s, a)
    ensures touched.Some? ==> touched.value in s.tunnels
  {
    match a
    case RemovalBump(m) => Some(s.removals[m].at.tunnel)
    case RevocationStop(v) => Some(s.revocations[v].at.tunnel)
    case Register(t) => Some(t)
    case Recheck(t, _) => Some(t)
    case EndLoop(t) => Some(t)
    case Reap(t) => Some(t)
    case Open(r) => Some(s.requests[r].tunnel)
    case Confirm(r) => Some(s.requests[r].tunnel)
    case DropBody(r) => Some(s.requests[r].tunnel)
    case _ => None
  }

  /** What a step does to a tunnel it works on. */
  function Advance(s: State, a: Action, id: nat): Tunnel
    requires Enabled(s, a) && id in s.tunnels
  {
    var t := s.tunnels[id];
    match a
    case RemovalBump(m) => Bump(t, s.removals[m].account)
    case RevocationStop(_) => t.(stop := true)
    case LogoutRevoke(l) => if Listed(s.registry, s.tunnels, id) then RevokeSession(t, s.logouts[l].session) else t
    case Register(_) => t.(phase := Registered)
    case Recheck(_, answered) =>
      var current := answered && t.installation in s.owned && s.owned[t.installation] == t.token;
      t.(phase := Serving, stop := t.stop || !current)
    case EndLoop(_) => t.(phase := Ended, stop := true)
    case Reap(_) => Reaped(t)
    case Shutdown => if Listed(s.registry, s.tunnels, id) then t.(stop := true) else t
    case Open(r) => OpenStream(t, r, s.requests[r])
    case Confirm(r) => if s.requests[r].session in s.sessions then t else RevokeOne(t, r)
    case DropBody(r) => RevokeOne(t, r)
    case _ => t
  }

  /** The last access check of `send`, which registers a stream under the same lock. */
  function OpenStream(t: Tunnel, id: nat, r: Request): Tunnel {
    if AccessRevoked(t, r.account, r.generation) || !r.streaming then t
    else t.(streams := t.streams[id := Stream(r.account, r.session, false)])
  }

  function Requests(s: State, a: Action): map<nat, Request>
    requires Enabled(s, a)
  {
    match a
    case Find(r, request) => s.requests[r := request]
    case Snap(r) => s.requests[r := Proceed(s, a, r)]
    case Admit(r) => s.requests[r := Proceed(s, a, r)]
    case Open(r) => s.requests[r := Proceed(s, a, r)]
    case Confirm(r) => s.requests[r := Proceed(s, a, r)]
    case Enqueue(r) => s.requests[r := Proceed(s, a, r)]
    case Dispatch(r) => s.requests[r := Proceed(s, a, r)]
    case _ => s.requests
  }

  /** The next stage of a request. */
  function Proceed(s: State, a: Action, id: nat): Request
    requires Enabled(s, a) && id in s.requests && s.requests[id].tunnel in s.tunnels
  {
    var r := s.requests[id];
    var t := s.tunnels[r.tunnel];
    match a
    case Snap(_) => r.(generation := Generation(t, r.account), stage := Snapped)
    case Admit(_) =>
      if (r.installation, r.account) in s.roles then r.(stage := Admitted, after := s.removals.Keys) else r.(stage := Failed)
    case Open(_) => r.(stage := if AccessRevoked(t, r.account, r.generation) then Failed else Opened)
    case Confirm(_) => r.(stage := if r.session in s.sessions then Confirmed else Failed)
    case Enqueue(_) => r.(stage := Queued)
    case Dispatch(_) => r.(stage := if Passes(s, id) then Dispatched else Failed)
    case _ => r
  }

  /** A removal's lookup finds the registered tunnel, or returns at once when there is none. */
  function Removals(s: State, a: Action): map<nat, Removal>
    requires Enabled(s, a)
  {
    match a
    case Accept(i, account) =>
      map m | m in s.removals ::
        if s.removals[m].installation == i && s.removals[m].account == account then s.removals[m].(reinvited := true)
        else s.removals[m]
    case RemovalCommit(m, i, account) =>
      s.removals[m := Removal(i, account, Snapshots(s, i, account), false, false, Committed)]
    case RemovalLookup(m) => s.removals[m := LookedUp(s, s.removals[m])]
    case RemovalBump(m) =>
      var removal := s.removals[m];
      s.removals[m := removal.(stale := removal.stale + SnapshotsOn(s, removal, removal.at.tunnel), at := Returned)]
    case _ => s.removals
  }

  function LookedUp(s: State, removal: Removal): Removal {
    var i := removal.installation;
    removal.(stale := removal.stale + Snapshots(s, i, removal.account), clean := Tidy(s, i),
             at := if i in s.registry then Holding(s.registry[i]) else Returned)
  }

  function Revocations(s: State, a: Action): map<nat, Revocation>
    requires Enabled(s, a)
  {
    match a
    case RevocationCommit(v, i, _) => s.revocations[v := Revocation(i, s.owned[i], Recorded)]
    case RevocationTake(v) =>
      var i := s.revocations[v].installation;
      s.revocations[v := s.revocations[v].(at := if i in s.registry then Taken(s.registry[i]) else Done)]
    case RevocationStop(v) => s.revocations[v := s.revocations[v].(at := Done)]
    case _ => s.revocations
  }

  function Logouts(s: State, a: Action): map<nat, Logout>
    requires Enabled(s, a)
  {
    match a
    case LogoutCommit(l, session) => s.logouts[l := Logout(session, false)]
    case LogoutRevoke(l) => s.logouts[l := s.logouts[l].(returned := true)]
    case _ => s.logouts
  }

  function Apply(s: State, a: Action): State
    requires Enabled(s, a)
  {
    State(Owned(s, a), Tokens(s, a), Roles(s, a), Sessions(s, a), PastSessions(s, a),
          Registry(s, a), s.closing || a.Shutdown?, Tunnels(s, a),
          Requests(s, a), Removals(s, a), Revocations(s, a), Logouts(s, a))
  }

  /** Whether no revocation holds a tunnel of the installation between the registry and its stop. */
  predicate Tidy(s: State, installation: nat) {
    forall v :: v in s.revocations && s.revocations[v].installation == installation ==> !s.revocations[v].at.Taken?
  }

  ghost predicate Runs(s: State, run: seq<Action>)
    decreases |run|
  {
    run == [] || (Enabled(s, run[0]) && Runs(Apply(s, run[0]), run[1..]))
  }

  ghost function End(s: State, run: seq<Action>): State
    requires Runs(s, run)
    decreases |run|
  {
    if run == [] then s else End(Apply(s, run[0]), run[1..])
  }

  ghost predicate Reachable(s: State) {
    exists run :: Runs(INITIAL, run) && End(INITIAL, run) == s
  }

  // ----- What only ever moves one way -----

  /** A tunnel keeps its identity, never restarts, and its generations never decrease. */
  ghost predicate Later(t: Tunnel, t': Tunnel) {
    && t'.installation == t.installation && t'.token == t.token
    && (t.stop ==> t'.stop)
    && (t'.phase.Negotiated? ==> t.phase.Negotiated?)
    && (forall account :: Generation(t', account) >= Generation(t, account))
  }

  lemma AdvanceIsLater(s: State, a: Action, t: nat)
    requires Enabled(s, a) && t in s.tunnels
    ensures Later(s.tunnels[t], Advance(s, a, t))
  {
  }

  lemma TunnelsOnlyAdvance(s: State, a: Action, t: nat)
    requires Enabled(s, a) && t in s.tunnels
    ensures t in Tunnels(s, a) && Later(s.tunnels[t], Tunnels(s, a)[t])
  {
    AdvanceIsLater(s, a, t);
  }

  lemma RequestsKeepTheirTerms(s: State, a: Action, r: nat)
    requires Enabled(s, a) && r in s.requests
    ensures r in Requests(s, a)
    ensures var q, q' := s.requests[r], Requests(s, a)[r];
            && q'.installation == q.installation && q'.account == q.account && q'.session == q.session
            && q'.streaming == q.streaming && q'.tunnel == q.tunnel && (!q.stage.Snapped? ==> q'.after == q.after)
            && (!q.stage.Found? ==> q'.generation == q.generation && !q'.stage.Found?)
            && (PastRoleCheck(q.stage) || q.stage.Failed? ==> PastRoleCheck(q'.stage) || q'.stage.Failed?)
  {
  }

  /** Taken out of the registry by a revocation that has not stopped it yet. */
  ghost predicate Orphan(revocations: map<nat, Revocation>, t: nat) {
    exists v :: v in revocations && revocations[v].at == Taken(t)
  }

  /** Outside the registry, a tunnel is stopped or about to be stopped by the revocation that took it. */
  ghost predicate Removed(tunnels: map<nat, Tunnel>, revocations: map<nat, Revocation>, t: nat)
    requires t in tunnels
  {
    tunnels[t].stop || Orphan(revocations, t)
  }

  lemma RemovedForGood(s: State, a: Action, t: nat)
    requires Enabled(s, a) && t in s.tunnels && Removed(s.tunnels, s.revocations, t)
    ensures t in Tunnels(s, a) && Removed(Tunnels(s, a), Revocations(s, a), t)
  {
    TunnelsOnlyAdvance(s, a, t);
    if Orphan(s.revocations, t) {
      var v :| v in s.revocations && s.revocations[v].at == Taken(t);
      if a != RevocationStop(v) {
        assert v in Revocations(s, a) && Revocations(s, a)[v].at == Taken(t);
      }
    }
  }

  // ----- The shape of every reachable state -----

  ghost predicate RegistryOk(registry: map<nat, nat>, tunnels: map<nat, Tunnel>) {
    forall i :: i in registry ==>
      && registry[i] in tunnels && tunnels[registry[i]].installation == i
      && !tunnels[registry[i]].phase.Negotiated?
  }

  ghost predicate TunnelOk(
    registry: map<nat, nat>, tunnels: map<nat, Tunnel>, revocations: map<nat, Revocation>, t: nat
  )
    requires t in tunnels
  {
    !tunnels[t].phase.Negotiated? ==>
      && (Listed(registry, tunnels, t) || Removed(tunnels, revocations, t))
      && (tunnels[t].phase.Ended? ==> tunnels[t].stop)
  }

  ghost predicate RequestOk(tunnels: map<nat, Tunnel>, q: Request) {
    && q.tunnel in tunnels
    && tunnels[q.tunnel].installation == q.installation && !tunnels[q.tunnel].phase.Negotiated?
    && (!q.stage.Found? ==> q.generation <= Generation(tunnels[q.tunnel], q.account))
  }

  ghost predicate RevocationOk(tunnels: map<nat, Tunnel>, v: Revocation) {
    v.at.Taken? ==> v.at.tunnel in tunnels && tunnels[v.at.tunnel].installation == v.installation
  }

  ghost predicate StreamsOk(t: Tunnel, requests: map<nat, Request>) {
    forall r :: r in t.streams ==> r in requests && t.streams[r].session == requests[r].session
  }

  ghost predicate Basics(s: State) {
    && RegistryOk(s.registry, s.tunnels)
    && (forall t :: t in s.tunnels ==> TunnelOk(s.registry, s.tunnels, s.revocations, t))
    && (forall t :: t in s.tunnels ==> StreamsOk(s.tunnels[t], s.requests))
    && (forall r :: r in s.requests ==> RequestOk(s.tunnels, s.requests[r]))
    && (forall v :: v in s.revocations ==> RevocationOk(s.tunnels, s.revocations[v]))
  }

  lemma KeepsRegistryOk(s: State, a: Action)
    requires RegistryOk(s.registry, s.tunnels) && Enabled(s, a)
    ensures RegistryOk(Registry(s, a), Tunnels(s, a))
  {
    forall i | i in Registry(s, a)
      ensures Registry(s, a)[i] in Tunnels(s, a) && Tunnels(s, a)[Registry(s, a)[i]].installation == i
      ensures !Tunnels(s, a)[Registry(s, a)[i]].phase.Negotiated?
    {
      TunnelsOnlyAdvance(s, a, Registry(s, a)[i]);
    }
  }

  /** A tunnel leaves the registry stopped, or in the hands of a revocation. */
  lemma LeavingTheRegistry(s: State, a: Action, t: nat)
    requires Basics(s) && Enabled(s, a) && t in s.tunnels && t in Tunnels(s, a)
    requires Listed(s.registry, s.tunnels, t) && !Listed(Registry(s, a), Tunnels(s, a), t)
    ensures Removed(Tunnels(s, a), Revocations(s, a), t)
  {
    TunnelsOnlyAdvance(s, a, t);
    assert TunnelOk(s.registry, s.tunnels, s.revocations, t);
    if a.RevocationTake? {
      assert Revocations(s, a)[a.id].at == Taken(t);
    }
  }

  lemma KeepsTunnelOk(s: State, a: Action, t: nat)
    requires Basics(s) && Enabled(s, a) && t in Tunnels(s, a)
    ensures TunnelOk(Registry(s, a), Tunnels(s, a), Revocations(s, a), t)
  {
    if t in s.tunnels {
      TunnelsOnlyAdvance(s, a, t);
      if Removed(s.tunnels, s.revocations, t) {
        RemovedForGood(s, a, t);
      } else if Listed(s.registry, s.tunnels, t) && !Listed(Registry(s, a), Tunnels(s, a), t) {
        LeavingTheRegistry(s, a, t);
      }
    }
  }

  lemma KeepsStreamsOk(s: State, a: Action, t: nat)
    requires Enabled(s, a) && t in Tunnels(s, a) && (t in s.tunnels ==> StreamsOk(s.tunnels[t], s.requests))
    ensures StreamsOk(Tunnels(s, a)[t], Requests(s, a))
  {
    if t in s.tunnels {
      forall r | r in Tunnels(s, a)[t].streams
        ensures r in Requests(s, a) && Tunnels(s, a)[t].streams[r].session == Requests(s, a)[r].session
      {
        RequestsKeepTheirTerms(s, a, r);
      }
    }
  }

  lemma KeepsRequestOk(s: State, a: Action, r: nat)
    requires Basics(s) && Enabled(s, a) && r in Requests(s, a)
    ensures RequestOk(Tunnels(s, a), Requests(s, a)[r])
  {
    TunnelsOnlyAdvance(s, a, Requests(s, a)[r].tunnel);
    if r in s.requests {
      RequestsKeepTheirTerms(s, a, r);
    }
  }

  lemma KeepsRevocationOk(s: State, a: Action, v: nat)
    requires Basics(s) && Enabled(s, a) && v in Revocations(s, a)
    ensures RevocationOk(Tunnels(s, a), Revocations(s, a)[v])
  {
    if Revocations(s, a)[v].at.Taken? {
      TunnelsOnlyAdvance(s, a, Revocations(s, a)[v].at.tunnel);
    }
  }

  lemma KeepsBasics(s: State, a: Action, s': State)
    requires Basics(s) && Enabled(s, a)
    requires s'.registry == Registry(s, a) && s'.tunnels == Tunnels(s, a) && s'.requests == Requests(s, a)
    requires s'.revocations == Revocations(s, a)
    ensures Basics(s')
  {
    KeepsRegistryOk(s, a);
    forall t | t in s'.tunnels
      ensures TunnelOk(s'.registry, s'.tunnels, s'.revocations, t) && StreamsOk(s'.tunnels[t], s'.requests)
    {
      KeepsTunnelOk(s, a, t);
      KeepsStreamsOk(s, a, t);
    }
    forall r | r in s'.requests ensures RequestOk(s'.tunnels, s'.requests[r]) { KeepsRequestOk(s, a, r); }
    forall v | v in s'.revocations ensures RevocationOk(s'.tunnels, s'.revocations[v]) { KeepsRevocationOk(s, a, v); }
  }

  // ----- Removals -----

  /** The tunnel refuses the request from now on: it is stopped, or its generation has moved past. */
  ghost predicate Barred(tunnels: map<nat, Tunnel>, q: Request)
    requires q.tunnel in tunnels
  {
    tunnels[q.tunnel].stop || Generation(tunnels[q.tunnel], q.account) > q.generation
  }

  ghost predicate Refused(tunnels: map<nat, Tunnel>, revocations: map<nat, Revocation>, q: Request)
    requires q.tunnel in tunnels
  {
    Barred(tunnels, q) || Orphan(revocations, q.tunnel)
  }

  /** What a removal has achieved for one request of its account. */
  ghost predicate Outdated(
    tunnels: map<nat, Tunnel>, revocations: map<nat, Revocation>, removal: Removal, q: Request
  )
    requires q.tunnel in tunnels
  {
    match removal.at
    case Committed => true
    case Holding(t) =>
      q.tunnel == t || (if removal.clean then tunnels[q.tunnel].stop else Removed(tunnels, revocations, q.tunnel))
    case Returned => if removal.clean then Barred(tunnels, q) else Refused(tunnels, revocations, q)
  }

  /** Steps other than the removal's own keep what it has achieved. */
  lemma OutdatedStays(s: State, a: Action, removal: Removal, r: nat)
    requires Enabled(s, a) && r in s.requests && s.requests[r].tunnel in s.tunnels && !s.requests[r].stage.Found?
    requires Outdated(s.tunnels, s.revocations, removal, s.requests[r])
    ensures r in Requests(s, a) && Requests(s, a)[r].tunnel in Tunnels(s, a)
    ensures Outdated(Tunnels(s, a), Revocations(s, a), removal, Requests(s, a)[r])
  {
    var t := s.requests[r].tunnel;
    TunnelsOnlyAdvance(s, a, t);
    RequestsKeepTheirTerms(s, a, r);
    if Removed(s.tunnels, s.revocations, t) {
      RemovedForGood(s, a, t);
    }
  }

  /** The lookup holds the request's own tunnel, or that tunnel has left the registry. */
  lemma LookupCatches(s: State, m: nat, r: nat)
    requires Basics(s) && Enabled(s, RemovalLookup(m)) && r in s.requests
    requires s.requests[r].installation == s.removals[m].installation
    ensures Outdated(s.tunnels, s.revocations, Removals(s, RemovalLookup(m))[m], s.requests[r])
  {
    var t := s.requests[r].tunnel;
    assert RequestOk(s.tunnels, s.requests[r]) && TunnelOk(s.registry, s.tunnels, s.revocations, t);
    if Orphan(s.revocations, t) {
      var v :| v in s.revocations && s.revocations[v].at == Taken(t);
      assert RevocationOk(s.tunnels, s.revocations[v]);
    }
  }

  ghost predicate StaleOk(s: State, removal: Removal, r: nat) {
    && r in s.requests && s.requests[r].tunnel in s.tunnels
    && !s.requests[r].stage.Found?
    && s.requests[r].installation == removal.installation && s.requests[r].account == removal.account
    && Outdated(s.tunnels, s.revocations, removal, s.requests[r])
  }

  ghost predicate RemovalOk(s: State, removal: Removal) {
    forall r :: r in removal.stale ==> StaleOk(s, removal, r)
  }

  /** Only the removal's own lookup and bump change it, but for noting a new role. */
  lemma OtherStepsLeaveRemoval(s: State, a: Action, m: nat)
    requires Enabled(s, a) && m in s.removals && a != RemovalLookup(m) && a != RemovalBump(m)
    ensures m in Removals(s, a) && (s.removals[m].reinvited ==> Removals(s, a)[m].reinvited)
    ensures Removals(s, a)[m] == s.removals[m].(reinvited := Removals(s, a)[m].reinvited)
  {
  }

  lemma NextOutdated(s: State, a: Action, m: nat, r: nat)
    requires Basics(s) && Enabled(s, a) && m in s.removals && StaleOk(s, s.removals[m], r)
    ensures r in Requests(s, a) && Requests(s, a)[r].tunnel in Tunnels(s, a) && m in Removals(s, a)
    ensures Outdated(Tunnels(s, a), Revocations(s, a), Removals(s, a)[m], Requests(s, a)[r])
  {
    if a == RemovalLookup(m) {
      LookupCatches(s, m, r);
    } else if a == RemovalBump(m) {
      BumpBars(s, m, r);
    } else {
      OtherStepsLeaveRemoval(s, a, m);
      OutdatedStays(s, a, s.removals[m], r);
    }
  }

  lemma KeepsStaleOk(s: State, a: Action, m: nat, r: nat, s': State)
    requires Basics(s) && Enabled(s, a) && m in s.removals && StaleOk(s, s.removals[m], r)
    requires s'.tunnels == Tunnels(s, a) && s'.requests == Requests(s, a)
    requires s'.revocations == Revocations(s, a) && s'.removals == Removals(s, a)
    ensures m in s'.removals && StaleOk(s', s'.removals[m], r)
  {
    RequestsKeepTheirTerms(s, a, r);
    NextOutdated(s, a, m, r);
  }

  lemma KeepsRemovalOk(s: State, a: Action, m: nat, s': State)
    requires Basics(s) && Enabled(s, a) && m in s'.removals
    requires s'.tunnels == Tunnels(s, a) && s'.requests == Requests(s, a)
    requires s'.revocations == Revocations(s, a) && s'.removals == Removals(s, a)
    requires m in s.removals ==> RemovalOk(s, s.removals[m])
    ensures RemovalOk(s', s'.removals[m])
  {
    forall r | r in s'.removals[m].stale ensures StaleOk(s', s'.removals[m], r) {
      if m !in s.removals {
        assert RequestOk(s.tunnels, s.requests[r]);
      } else if r in s.removals[m].stale {
        assert StaleOk(s, s.removals[m], r);
        KeepsStaleOk(s, a, m, r, s');
      } else {
        BecomesStale(s, a, m, r, s');
      }
    }
  }

  /** A request that took its generation in time is barred, or the removal's tunnel will bar it. */
  lemma BecomesStale(s: State, a: Action, m: nat, r: nat, s': State)
    requires Basics(s) && Enabled(s, a) && m in s.removals && m in s'.removals
    requires r in s'.removals[m].stale && r !in s.removals[m].stale
    requires s'.tunnels == Tunnels(s, a) && s'.requests == Requests(s, a)
    requires s'.revocations == Revocations(s, a) && s'.removals == Removals(s, a)
    ensures StaleOk(s', s'.removals[m], r)
  {
    if a == RemovalLookup(m) {
      assert RequestOk(s.tunnels, s.requests[r]);
      LookupCatches(s, m, r);
    } else if a == RemovalBump(m) {
      assert RequestOk(s.tunnels, s.requests[r]);
    } else {
      OtherStepsLeaveRemoval(s, a, m);
    }
  }

  lemma BumpBars(s: State, m: nat, r: nat)
    requires Basics(s) && Enabled(s, RemovalBump(m)) && StaleOk(s, s.removals[m], r)
    ensures var a := RemovalBump(m);
            && r in Requests(s, a) && Requests(s, a)[r].tunnel in Tunnels(s, a)
            && Outdated(Tunnels(s, a), Revocations(s, a), Removals(s, a)[m], Requests(s, a)[r])
  {
    var a := RemovalBump(m);
    assert RequestOk(s.tunnels, s.requests[r]);
    RequestsKeepTheirTerms(s, a, r);
    TunnelsOnlyAdvance(s, a, s.requests[r].tunnel);
    if Removed(s.tunnels, s.revocations, s.requests[r].tunnel) {
      RemovedForGood(s, a, s.requests[r].tunnel);
    }
  }

  // ----- Admissions -----

  /** Since a removal's commit, its account has a role only if it was given one again. */
  ghost predicate RolesOk(s: State) {
    forall m :: m in s.removals && (s.removals[m].installation, s.removals[m].account) in s.roles ==> s.removals[m].reinvited
  }

  /** A request admitted outside the stale ones was admitted after the commit, and after a new invitation. */
  ghost predicate AdmissionOk(s: State, m: nat, r: nat)
    requires m in s.removals && r in s.requests
  {
    var removal, q := s.removals[m], s.requests[r];
    PastRoleCheck(q.stage) && q.installation == removal.installation && q.account == removal.account ==>
      r in removal.stale || (m in q.after && removal.reinvited)
  }

  lemma KeepsRolesOk(s: State, a: Action, s': State)
    requires RolesOk(s) && Enabled(s, a) && s'.removals == Removals(s, a) && s'.roles == Roles(s, a)
    ensures RolesOk(s')
  {
  }

  lemma KeepsAdmissionOk(s: State, a: Action, m: nat, r: nat, s': State)
    requires RolesOk(s) && Enabled(s, a) && s'.removals == Removals(s, a) && s'.requests == Requests(s, a)
    requires m in s'.removals && r in s'.requests
    requires m in s.removals && r in s.requests ==> AdmissionOk(s, m, r)
    ensures AdmissionOk(s', m, r)
  {
    if r in s.requests { RequestsKeepTheirTerms(s, a, r); }
    if m in s.removals && a != RemovalLookup(m) && a != RemovalBump(m) { OtherStepsLeaveRemoval(s, a, m); }
  }

  // ----- Revocations of an installation's identity -----

  /** A revoked token is never current again, and its tunnels no longer serve. */
  ghost predicate IdentityOk(s: State, v: Revocation) {
    && v.token in s.tokens
    && (v.installation in s.owned ==> s.owned[v.installation] != v.token)
    && (!v.at.Recorded? ==> forall t :: t in s.tunnels ==> SilentTunnel(s, v, t))
  }

  ghost predicate SilentTunnel(s: State, v: Revocation, t: nat)
    requires t in s.tunnels
  {
    s.tunnels[t].installation == v.installation && s.tunnels[t].token == v.token && s.tunnels[t].phase.Serving? ==>
      Removed(s.tunnels, s.revocations, t)
  }

  ghost predicate TokensOk(s: State) {
    forall i :: i in s.owned ==> s.owned[i] in s.tokens
  }

  /** A tunnel starts to serve only under the current token. */
  lemma OnlyTheCurrentServe(s: State, a: Action, v: Revocation, t: nat)
    requires Enabled(s, a) && IdentityOk(s, v) && t in s.tunnels && t in Tunnels(s, a)
    requires s.tunnels[t].installation == v.installation && s.tunnels[t].token == v.token
    requires Tunnels(s, a)[t].phase.Serving? && !s.tunnels[t].phase.Serving?
    ensures Tunnels(s, a)[t].stop
  {
  }

  lemma KeepsSilentTunnel(s: State, a: Action, v: nat, t: nat, s': State)
    requires Basics(s) && Enabled(s, a) && v in s.revocations && IdentityOk(s, s.revocations[v])
    requires s'.tunnels == Tunnels(s, a) && s'.revocations == Revocations(s, a)
    requires v in s'.revocations && !s'.revocations[v].at.Recorded? && t in s'.tunnels && t in s.tunnels
    requires s.tunnels[t].installation == s.revocations[v].installation && s.tunnels[t].token == s.revocations[v].token
    ensures SilentTunnel(s', s'.revocations[v], t)
  {
    TunnelsOnlyAdvance(s, a, t);
    assert !s.revocations[v].at.Recorded? ==> SilentTunnel(s, s.revocations[v], t);
    if Removed(s.tunnels, s.revocations, t) {
      RemovedForGood(s, a, t);
    } else if s'.tunnels[t].phase.Serving? {
      if !s.tunnels[t].phase.Serving? {
        OnlyTheCurrentServe(s, a, s.revocations[v], t);
      } else {
        assert TunnelOk(s.registry, s.tunnels, s.revocations, t);
        assert s'.revocations[v].at == Taken(t);
      }
    }
  }

  lemma KeepsIdentityOk(s: State, a: Action, v: nat, s': State)
    requires Basics(s) && TokensOk(s) && Enabled(s, a) && v in s'.revocations
    requires s'.tunnels == Tunnels(s, a) && s'.revocations == Revocations(s, a)
    requires s'.owned == Owned(s, a) && s'.tokens == Tokens(s, a)
    requires v in s.revocations ==> IdentityOk(s, s.revocations[v])
    ensures IdentityOk(s', s'.revocations[v])
  {
    if v in s.revocations && !s'.revocations[v].at.Recorded? {
      forall t | t in s'.tunnels ensures SilentTunnel(s', s'.revocations[v], t) {
        if t in s.tunnels {
          TunnelsOnlyAdvance(s, a, t);
          if s.tunnels[t].installation == s.revocations[v].installation && s.tunnels[t].token == s.revocations[v].token {
            KeepsSilentTunnel(s, a, v, t, s');
          }
        }
      }
    }
  }

  // ----- Logouts -----

  /** The stream delivers nothing: it is closed, or its tunnel is stopped or about to be. */
  ghost predicate SilentStream(s: State, r: nat)
    requires r in s.requests && s.requests[r].tunnel in s.tunnels
  {
    var t := s.requests[r].tunnel;
    !IsOpen(s.tunnels[t], r) || Removed(s.tunnels, s.revocations, t)
  }

  ghost predicate LoggedOut(s: State, l: Logout, r: nat)
    requires r in s.requests && s.requests[r].tunnel in s.tunnels
  {
    var q := s.requests[r];
    q.session == l.session && q.streaming && PastSessionCheck(q.stage) ==> SilentStream(s, r)
  }

  ghost predicate LogoutOk(s: State, l: Logout) {
    && l.session in s.pastSessions && l.session !in s.sessions
    && (l.returned ==> forall r :: r in s.requests ==> s.requests[r].tunnel in s.tunnels && LoggedOut(s, l, r))
  }

  /** Once its session check is past, a stream is never opened again. */
  lemma StreamsStayClosed(s: State, a: Action, r: nat)
    requires Enabled(s, a) && r in s.requests && s.requests[r].tunnel in s.tunnels
    requires PastSessionCheck(s.requests[r].stage) && !IsOpen(s.tunnels[s.requests[r].tunnel], r)
    ensures s.requests[r].tunnel in Tunnels(s, a) && !IsOpen(Tunnels(s, a)[s.requests[r].tunnel], r)
  {
    TunnelsOnlyAdvance(s, a, s.requests[r].tunnel);
  }

  /** Revoking a session closes its streams on every registered tunnel. */
  lemma RevokingCloses(s: State, l: nat, r: nat)
    requires Basics(s) && Enabled(s, LogoutRevoke(l)) && r in s.requests && s.requests[r].session == s.logouts[l].session
    ensures var t := s.requests[r].tunnel;
            t in s.tunnels && t in Tunnels(s, LogoutRevoke(l)) &&
            (!IsOpen(Tunnels(s, LogoutRevoke(l))[t], r) || Removed(s.tunnels, s.revocations, t))
  {
    var t := s.requests[r].tunnel;
    assert RequestOk(s.tunnels, s.requests[r]);
    assert TunnelOk(s.registry, s.tunnels, s.revocations, t) && StreamsOk(s.tunnels[t], s.requests);
  }

  /** A session that has ended confirms no further stream. */
  lemma EndedSessionsConfirmNothing(s: State, a: Action, r: nat)
    requires Enabled(s, a) && r in Requests(s, a) && PastSessionCheck(Requests(s, a)[r].stage)
    requires Requests(s, a)[r].session !in s.sessions
    ensures r in s.requests && PastSessionCheck(s.requests[r].stage)
  {
  }

  lemma KeepsLoggedOut(s: State, a: Action, l: nat, r: nat, s': State)
    requires Basics(s) && Enabled(s, a) && l in s.logouts && LogoutOk(s, s.logouts[l])
    requires s'.tunnels == Tunnels(s, a) && s'.revocations == Revocations(s, a) && s'.requests == Requests(s, a)
    requires s'.logouts == Logouts(s, a) && l in s'.logouts && s'.logouts[l].returned && r in s'.requests
    requires s'.requests[r].session == s.logouts[l].session && s'.requests[r].streaming
    requires PastSessionCheck(s'.requests[r].stage)
    ensures s'.requests[r].tunnel in s'.tunnels && SilentStream(s', r)
  {
    EndedSessionsConfirmNothing(s, a, r);
    RequestsKeepTheirTerms(s, a, r);
    var t := s.requests[r].tunnel;
    assert RequestOk(s.tunnels, s.requests[r]);
    TunnelsOnlyAdvance(s, a, t);
    if Removed(s.tunnels, s.revocations, t) {
      RemovedForGood(s, a, t);
    } else if !s.logouts[l].returned {
      RevokingCloses(s, l, r);
    } else {
      StreamsStayClosed(s, a, r);
    }
  }

  lemma KeepsLogoutOk(s: State, a: Action, l: nat, s': State)
    requires Basics(s) && Enabled(s, a) && l in s'.logouts
    requires s'.tunnels == Tunnels(s, a) && s'.revocations == Revocations(s, a) && s'.requests == Requests(s, a)
    requires s'.logouts == Logouts(s, a) && s'.sessions == Sessions(s, a) && s'.pastSessions == PastSessions(s, a)
    requires l in s.logouts ==> LogoutOk(s, s.logouts[l])
    ensures LogoutOk(s', s'.logouts[l])
  {
    if l in s.logouts && s'.logouts[l].returned {
      forall r | r in s'.requests ensures s'.requests[r].tunnel in s'.tunnels && LoggedOut(s', s'.logouts[l], r) {
        KeepsRequestOk(s, a, r);
        var q := s'.requests[r];
        if q.session == s'.logouts[l].session && q.streaming && PastSessionCheck(q.stage) {
          KeepsLoggedOut(s, a, l, r, s');
        }
      }
    }
  }

  // ----- Every run -----

  ghost predicate Inv(s: State) {
    && Basics(s) && TokensOk(s) && RolesOk(s)
    && (forall m :: m in s.removals ==> RemovalOk(s, s.removals[m]))
    && (forall m, r :: m in s.removals && r in s.requests ==> AdmissionOk(s, m, r))
    && (forall v :: v in s.revocations ==> IdentityOk(s, s.revocations[v]))
    && (forall l :: l in s.logouts ==> LogoutOk(s, s.logouts[l]))
  }

  lemma KeepsInv(s: State, a: Action, s': State)
    requires Inv(s) && Enabled(s, a) && s' == Apply(s, a)
    ensures Inv(s')
  {
    KeepsBasics(s, a, s');
    KeepsRolesOk(s, a, s');
    forall m, r | m in s'.removals && r in s'.requests ensures AdmissionOk(s', m, r) { KeepsAdmissionOk(s, a, m, r, s'); }
    forall m | m in s'.removals ensures RemovalOk(s', s'.removals[m]) { KeepsRemovalOk(s, a, m, s'); }
    forall v | v in s'.revocations ensures IdentityOk(s', s'.revocations[v]) { KeepsIdentityOk(s, a, v, s'); }
    forall l | l in s'.logouts ensures LogoutOk(s', s'.logouts[l]) { KeepsLogoutOk(s, a, l, s'); }
  }

  lemma {:induction false} EveryRun(s: State, run: seq<Action>)
    requires Inv(s) && Runs(s, run)
    ensures Inv(End(s, run))
    decreases |run|
  {
    if run != [] {
      KeepsInv(s, run[0], Apply(s, run[0]));
      EveryRun(Apply(s, run[0]), run[1..]);
    }
  }

  lemma ReachableInv(s: State)
    requires Reachable(s)
    ensures Inv(s)
  {
    var run :| Runs(INITIAL, run) && End(INITIAL, run) == s;
    EveryRun(INITIAL, run);
  }
}
