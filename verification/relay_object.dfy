/**
 * The relay's objects (crates/beacon/src/relay.rs): tunnels with their access tables, and the registry of current
 * tunnels. Each method is a section that the source runs under one lock, so each is one step of the protocol.
 */
module RelayObject {
  import opened Common
  import Spec = Relay
  type Stream = Spec.Stream

  /** `Tunnel`, as far as access is concerned. */
  class Tunnel {
    const installation: nat
    const token: nat
    ghost var phase: Spec.Phase
    var stop: bool
    var generations: map<nat, nat>
    var streams: map<nat, Stream>

    ghost function View(): Spec.Tunnel
      reads this
    {
      Spec.Tunnel(installation, token, phase, stop, generations, streams)
    }

    constructor (installation: nat, token: nat)
      ensures View() == Spec.Tunnel(installation, token, Spec.Negotiated, false, map[], map[])
    {
      this.installation, this.token := installation, token;
      phase, stop, generations, streams := Spec.Negotiated, false, map[], map[];
    }

    /** The generation a request remembers before its role is checked. */
    method Snapshot(account: nat) returns (generation: nat)
      ensures generation == Spec.Generation(View(), account) && (stop || !Spec.AccessRevoked(View(), account, generation))
    {
      generation := if account in generations then generations[account] else 0;
    }

    /** The access check of `send` and of the socket loop. */
    method AccessRevoked(account: nat, generation: nat) returns (revoked: bool)
      ensures revoked == Spec.AccessRevoked(View(), account, generation)
      ensures revoked <==> stop || Spec.Generation(View(), account) != generation
    {
      var current := if account in generations then generations[account] else 0;
      revoked := current != generation || stop;
    }

    /** Bars every earlier request of an account and closes its streams. */
    method RevokeAccount(account: nat)
      modifies this`generations, this`streams
      ensures View() == Spec.Bump(old(View()), account)
      ensures forall generation: nat :: generation <= Spec.Generation(old(View()), account) ==>
                Spec.AccessRevoked(View(), account, generation)
      ensures forall other :: other != account ==> Spec.Generation(View(), other) == Spec.Generation(old(View()), other)
      ensures forall id :: Spec.IsOpen(View(), id) <==> Spec.IsOpen(old(View()), id) && old(streams)[id].account != account
      ensures forall id :: Spec.IsOpen(View(), id) ==> streams[id] == old(streams)[id]
    {
      var current := if account in generations then generations[account] else 0;
      generations := generations[account := current + 1];
      streams := CloseStreams(streams, Account(account));
    }

    method RevokeSession(session: nat)
      modifies this`streams
      ensures View() == Spec.RevokeSession(old(View()), session)
      ensures forall id :: Spec.IsOpen(View(), id) <==> Spec.IsOpen(old(View()), id) && old(streams)[id].session != session
      ensures forall id :: Spec.IsOpen(View(), id) ==> streams[id] == old(streams)[id]
      ensures forall account :: Spec.Generation(View(), account) == Spec.Generation(old(View()), account)
    {
      streams := CloseStreams(streams, Session(session));
    }

    /** Forgets streams that were closed. */
    method Reap()
      modifies this`streams
      ensures View() == Spec.Reaped(old(View())) && forall id :: Spec.IsOpen(View(), id) <==> Spec.IsOpen(old(View()), id)
    {
      streams := OpenOnes(streams);
    }

    /** The last access check of a streaming request, which registers its stream under the same lock. */
    method Open(id: nat, r: Spec.Request) returns (refused: bool)
      requires r.streaming
      modifies this`streams
      ensures refused == Spec.AccessRevoked(old(View()), r.account, r.generation)
      ensures View() == Spec.OpenStream(old(View()), id, r) && (!refused ==> Spec.IsOpen(View(), id))
      ensures refused <==> stop || Spec.Generation(old(View()), r.account) != r.generation
      ensures forall other :: other != id ==> (Spec.IsOpen(View(), other) <==> Spec.IsOpen(old(View()), other))
    {
      refused := AccessRevoked(r.account, r.generation);
      if !refused { streams := streams[id := Spec.Stream(r.account, r.session, false)]; }
    }

    /** Dropping a `BrowserStream`. */
    method Drop(id: nat)
      modifies this`streams
      ensures View() == Spec.RevokeOne(old(View()), id)
      ensures forall other :: Spec.IsOpen(View(), other) <==> Spec.IsOpen(old(View()), other) && other != id
    {
      if id in streams { streams := streams[id := streams[id].(revoked := true)]; }
    }
  }

  /** Whose streams are closed. */
  datatype Whose = Account(account: nat) | Session(session: nat)

  predicate Matches(stream: Stream, whose: Whose) {
    match whose
    case Account(account) => stream.account == account
    case Session(session) => stream.session == session
  }

  /** The loop over a tunnel's streams. */
  method CloseStreams(streams: map<nat, Stream>, whose: Whose) returns (closed: map<nat, Stream>)
    ensures closed == map id | id in streams ::
              if Matches(streams[id], whose) then streams[id].(revoked := true) else streams[id]
  {
    closed := streams;
    var rest := streams.Keys;
    while rest != {}
      invariant closed.Keys == streams.Keys && rest <= streams.Keys
      invariant forall id :: id in streams ==>
                  closed[id] == if id !in rest && Matches(streams[id], whose) then streams[id].(revoked := true) else streams[id]
      decreases rest
    {
      var id :| id in rest;
      if Matches(closed[id], whose) { closed := closed[id := closed[id].(revoked := true)]; }
      rest := rest - {id};
    }
  }

  method OpenOnes(streams: map<nat, Stream>) returns (open: map<nat, Stream>)
    ensures open == map id | id in streams && !streams[id].revoked :: streams[id]
  {
    open := map[];
    var rest := streams.Keys;
    while rest != {}
      invariant rest <= streams.Keys
      invariant forall id :: id in open <==> id in streams && id !in rest && !streams[id].revoked
      invariant forall id :: id in open ==> open[id] == streams[id]
      decreases rest
    {
      var id :| id in rest;
      if !streams[id].revoked { open := open[id := streams[id]]; }
      rest := rest - {id};
    }
  }

  /** `Relay`: the registry and whether the server is shutting down. */
  class Relay {
    var connections: map<nat, Tunnel>
    var closing: bool

    constructor ()
      ensures connections == map[] && !closing
    {
      connections, closing := map[], false;
    }

    /** Enters a tunnel and stops the one it replaces, unless the server is shutting down. */
    method Register(tunnel: Tunnel) returns (entered: bool)
      requires tunnel !in connections.Values
      modifies this`connections, connections.Values
      ensures entered == !closing
      ensures !entered ==> connections == old(connections) && forall t :: t in connections.Values ==> t.View() == old(t.View())
      ensures entered ==> connections == old(connections)[tunnel.installation := tunnel]
      ensures entered ==> forall t :: t in old(connections).Values ==>
                t.stop == (old(t.stop) || (tunnel.installation in old(connections) && old(connections)[tunnel.installation] == t))
                && t.generations == old(t.generations) && t.streams == old(t.streams)
    {
      if closing { return false; }
      if tunnel.installation in connections {
        var previous := connections[tunnel.installation];
        assert previous in connections.Values;
        previous.stop := true;
      }
      connections := connections[tunnel.installation := tunnel];
      entered := true;
    }

    /** A tunnel whose loop has ended leaves the registry; its replacement stays. */
    method Unregister(tunnel: Tunnel)
      modifies this`connections
      ensures forall i :: i in connections <==>
                i in old(connections) && !(i == tunnel.installation && old(connections)[i] == tunnel)
      ensures forall i :: i in connections ==> connections[i] == old(connections)[i]
    {
      if tunnel.installation in connections && connections[tunnel.installation] == tunnel {
        connections := connections - {tunnel.installation};
      }
    }

    /** The first half of a revocation: the tunnel it will act on. Without an account, the tunnel leaves the registry. */
    method LookUp(installation: nat, account: Option<nat>) returns (tunnel: Option<Tunnel>)
      modifies this`connections
      ensures tunnel == if installation in old(connections) then Some(old(connections)[installation]) else None
      ensures connections == if account.None? then old(connections) - {installation} else old(connections)
    {
      tunnel := if installation in connections then Some(connections[installation]) else None;
      if account.None? { connections := connections - {installation}; }
    }

    /** Both halves, when nothing comes between them. */
    method RevokeAccess(installation: nat, account: Option<nat>)
      modifies this`connections, connections.Values
      ensures connections == if account.None? then old(connections) - {installation} else old(connections)
      ensures installation in old(connections) ==>
                var t := old(connections)[installation];
                if account.Some? then
                  && t.View() == Spec.Bump(old(t.View()), account.value)
                  && (forall id :: Spec.IsOpen(t.View(), id) <==>
                        Spec.IsOpen(old(t.View()), id) && old(t.streams)[id].account != account.value)
                  && (forall other :: other != account.value ==>
                        Spec.Generation(t.View(), other) == Spec.Generation(old(t.View()), other))
                else t.View() == old(t.View()).(stop := true)
      ensures forall t :: t in old(connections).Values && (installation in old(connections) ==> t != old(connections)[installation]) ==>
                t.View() == old(t.View())
    {
      var tunnel := LookUp(installation, account);
      if tunnel.None? { return; }
      assert tunnel.value in old(connections).Values;
      if account.Some? {
        tunnel.value.RevokeAccount(account.value);
      } else {
        tunnel.value.stop := true;
      }
    }

    /** Closes the streams of one browser session on every registered tunnel. */
    method RevokeSession(session: nat)
      modifies connections.Values
      ensures forall t :: t in connections.Values ==> t.View() == Spec.RevokeSession(old(t.View()), session)
      ensures forall t, id :: t in connections.Values ==>
                (Spec.IsOpen(t.View(), id) <==> Spec.IsOpen(old(t.View()), id) && old(t.streams)[id].session != session)
    {
      var rest := connections.Values;
      while rest != {}
        invariant rest <= connections.Values
        invariant forall t :: t in connections.Values ==>
                    t.View() == if t in rest then old(t.View()) else Spec.RevokeSession(old(t.View()), session)
        decreases rest
      {
        var tunnel :| tunnel in rest;
        tunnel.RevokeSession(session);
        rest := rest - {tunnel};
      }
    }

    /** Stops every tunnel and empties the registry for good. */
    method Shutdown()
      modifies this, connections.Values
      ensures closing && connections == map[]
      ensures forall t :: t in old(connections).Values ==> t.View() == old(t.View()).(stop := true)
    {
      closing := true;
      var rest := connections.Values;
      while rest != {}
        invariant connections == old(connections) && closing && rest <= connections.Values
        invariant forall t :: t in connections.Values ==>
                    t.View() == if t in rest then old(t.View()) else old(t.View()).(stop := true)
        decreases rest
      {
        var tunnel :| tunnel in rest;
        tunnel.stop := true;
        rest := rest - {tunnel};
      }
      connections := map[];
    }
  }
}
