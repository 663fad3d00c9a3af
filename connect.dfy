/**
 * The class ConnectWebRTC: its three peer maps, its listener table, and the
 * operations and transport callbacks that update them in place.
 *
 * The transport callbacks installed by `init_peer_connection` and
 * `init_data_connection` are closures over the peer id they were created
 * for; each is a method here that takes that id. The relay socket, the
 * asynchronous negotiation calls and the clock are outside the class: a
 * signal arrives already decoded, `establishPeer` returns the action it
 * starts instead of running it, and "now" is a parameter.
 */
module Connect {
  import opened Wrappers
  import opened Handles
  import opened Events
  import opened Signals
  import opened PeerTable

  /** What the relay's message callback did with a signal. */
  datatype Outcome = Dropped | Handled(connection: ConnectionId, action: Action)

  class ConnectWebRTC {
    /** This node's own identifier. */
    const uuid: Id
    var eventsListeners: map<string, HandlerId>
    /** The sending channel of each peer, once it has opened. */
    var peerChannels: map<Id, ChannelId>
    var peerConnections: map<Id, ConnectionId>
    /** The last-activity timestamp of each peer. */
    var peerTimeouts: map<Id, nat>
    /** The handle the next peer connection gets; every earlier one is smaller. */
    var nextConnection: ConnectionId
    /** Every handler call and every close, in order. */
    var log: seq<Effect>

    /**
     * Connection handles are fresh and never shared by two peers, and every
     * peer with a connection has a timestamp, so the pruner will reach it.
     */
    ghost predicate Valid()
      reads this
    {
      && (forall u :: u in peerConnections ==> peerConnections[u] < nextConnection)
      && Injective(peerConnections)
      && peerConnections.Keys <= peerTimeouts.Keys
    }

    constructor (uuid: Id)
      ensures Valid() && this.uuid == uuid
      ensures eventsListeners == map[] && peerChannels == map[] && peerConnections == map[] && peerTimeouts == map[]
      ensures nextConnection == 0 && log == []
    {
      this.uuid := uuid;
      eventsListeners := map[];
      peerChannels := map[];
      peerConnections := map[];
      peerTimeouts := map[];
      nextConnection := 0;
      log := [];
    }

    /** Registers `fn` under `name`, replacing any earlier handler; ignores ill-typed arguments. */
    method On(name: JsValue, fn: JsValue)
      modifies this`eventsListeners
      ensures eventsListeners == Registered(old(eventsListeners), name, fn)
    {
      if name.JsString? && fn.JsFunction? {
        eventsListeners := eventsListeners[name.str := fn.handler];
      }
    }

    /** Calls the handler registered for `name`, if there is one. */
    method Emit(name: string, args: seq<JsValue>)
      modifies this`log
      ensures log == old(log) + EmitEffects(eventsListeners, name, args)
    {
      if name in eventsListeners {
        log := log + [Invoked(eventsListeners[name], args)];
      }
    }

    /** Forgets peer `u` in all three maps, closing its channel and then its connection. */
    method CleanPeer(u: Id)
      requires Valid()
      modifies this`peerTimeouts, this`peerChannels, this`peerConnections, this`log
      ensures Valid()
      ensures peerTimeouts == old(peerTimeouts) - {u}
      ensures peerChannels == old(peerChannels) - {u}
      ensures peerConnections == old(peerConnections) - {u}
      ensures log == old(log) + TeardownEffects(u, old(peerChannels), old(peerConnections))
    {
      peerTimeouts := peerTimeouts - {u};
      var ch := if u in peerChannels then Some(peerChannels[u]) else None;
      peerChannels := peerChannels - {u};
      if ch.Some? {
        log := log + [ClosedChannel(ch.value)];
      }
      var conn := if u in peerConnections then Some(peerConnections[u]) else None;
      peerConnections := peerConnections - {u};
      if conn.Some? {
        log := log + [ClosedConnection(conn.value)];
      }
    }

    /**
     * The timeout sweep: visits every peer with a timestamp once and tears
     * down those silent for PEER_TIMEOUT or more. `evicted` lists the evicted
     * peers in the order they were torn down.
     */
    method PruneAllPeers(now: nat) returns (evicted: seq<Id>)
      requires Valid()
      modifies this`peerTimeouts, this`peerChannels, this`peerConnections, this`log
      ensures Valid()
      ensures forall u :: u in peerTimeouts <==> u in old(peerTimeouts) && now - old(peerTimeouts)[u] < PEER_TIMEOUT
      ensures forall u :: u in peerTimeouts ==> peerTimeouts[u] == old(peerTimeouts)[u]
      ensures NoDuplicates(evicted)
      ensures forall u :: u in evicted <==> u in Expired(old(peerTimeouts), now)
      ensures peerChannels == old(peerChannels) - Expired(old(peerTimeouts), now)
      ensures peerConnections == old(peerConnections) - Expired(old(peerTimeouts), now)
      ensures log == old(log) + SweepEffects(evicted, old(peerChannels), old(peerConnections))
    {
      ghost var expired := Expired(peerTimeouts, now);
      ghost var done: set<Id> := {};
      var pending := peerTimeouts.Keys;
      evicted := [];
      while pending != {}
        invariant Valid()
        invariant pending <= old(peerTimeouts).Keys
        invariant done == expired - pending
        invariant NoDuplicates(evicted)
        invariant forall u :: u in evicted <==> u in done
        invariant peerTimeouts == old(peerTimeouts) - done
        invariant peerChannels == old(peerChannels) - done
        invariant peerConnections == old(peerConnections) - done
        invariant log == old(log) + SweepEffects(evicted, old(peerChannels), old(peerConnections))
        decreases pending
      {
        var u :| u in pending;
        pending := pending - {u};
        if now - peerTimeouts[u] >= PEER_TIMEOUT {
          TeardownAgainstRemaining(u, done, old(peerChannels), old(peerConnections));
          CleanPeer(u);
          RemoveOneMore(old(peerTimeouts), done, u);
          RemoveOneMore(old(peerChannels), done, u);
          RemoveOneMore(old(peerConnections), done, u);
          SweepEffectsAppend(evicted, u, old(peerChannels), old(peerConnections));
          NoDuplicatesAppend(evicted, u);
          evicted := evicted + [u];
          done := done + {u};
        }
      }
    }

    /**
     * `establishPeer`: the first signal from an unknown peer creates its
     * connection and stamps it with `now`; a known peer's connection is
     * reused and its timestamp left alone. Either way the signal then selects
     * exactly one action on that connection.
     */
    method EstablishPeer(s: Signal, now: nat) returns (conn: ConnectionId, act: Action)
      requires Valid()
      modifies this`peerConnections, this`peerTimeouts, this`nextConnection
      ensures Valid()
      ensures act == Dispatch(s)
      ensures s.uuid in peerConnections && peerConnections[s.uuid] == conn
      ensures s.uuid in old(peerConnections) ==>
                && conn == old(peerConnections)[s.uuid]
                && peerConnections == old(peerConnections)
                && peerTimeouts == old(peerTimeouts)
                && nextConnection == old(nextConnection)
      ensures s.uuid !in old(peerConnections) ==>
                && conn == old(nextConnection) && conn !in old(peerConnections).Values
                && peerConnections == old(peerConnections)[s.uuid := conn]
                && peerTimeouts == old(peerTimeouts)[s.uuid := now]
                && nextConnection == old(nextConnection) + 1
    {
      if s.uuid !in peerConnections {
        conn := nextConnection;
        nextConnection := nextConnection + 1;
        peerConnections := peerConnections[s.uuid := conn];
        peerTimeouts := peerTimeouts[s.uuid := now];
      } else {
        conn := peerConnections[s.uuid];
      }
      act := Dispatch(s);
    }

    /** The relay's message callback: the inbound filter, then `establishPeer`. */
    method OnMessage(s: Signal, now: nat) returns (outcome: Outcome)
      requires Valid()
      modifies this`peerConnections, this`peerTimeouts, this`nextConnection
      ensures Valid()
      ensures outcome.Dropped? <==> !Accepts(uuid, s)
      ensures outcome.Dropped? ==>
                && peerConnections == old(peerConnections)
                && peerTimeouts == old(peerTimeouts)
                && nextConnection == old(nextConnection)
      ensures outcome.Handled? ==>
                && outcome.action == Dispatch(s)
                && s.uuid in peerConnections && peerConnections[s.uuid] == outcome.connection
                && (s.uuid in old(peerConnections) ==>
                      && outcome.connection == old(peerConnections)[s.uuid]
                      && peerConnections == old(peerConnections)
                      && peerTimeouts == old(peerTimeouts)
                      && nextConnection == old(nextConnection))
                && (s.uuid !in old(peerConnections) ==>
                      && outcome.connection == old(nextConnection)
                      && outcome.connection !in old(peerConnections).Values
                      && peerConnections == old(peerConnections)[s.uuid := outcome.connection]
                      && peerTimeouts == old(peerTimeouts)[s.uuid := now]
                      && nextConnection == old(nextConnection) + 1)
    {
      if s.uuid == uuid {
        return Dropped;
      } else if s.target.Some? && s.target.value != "" && s.target.value != uuid {
        return Dropped;
      }
      var conn, act := EstablishPeer(s, now);
      outcome := Handled(conn, act);
    }

    /**
     * The connection's ICE state callback: "closed" and "disconnected" forget
     * the peer's connection and channel but keep its timestamp; nothing is
     * closed. Every other state changes nothing.
     */
    method OnIceConnectionStateChange(u: Id, state: string)
      requires Valid()
      modifies this`peerConnections, this`peerChannels
      ensures Valid()
      ensures peerTimeouts == old(peerTimeouts) && log == old(log)
      ensures state == "closed" || state == "disconnected" ==>
                peerConnections == old(peerConnections) - {u} && peerChannels == old(peerChannels) - {u}
      ensures state != "closed" && state != "disconnected" ==>
                peerConnections == old(peerConnections) && peerChannels == old(peerChannels)
    {
      if state == "closed" || state == "disconnected" {
        peerConnections := peerConnections - {u};
        peerChannels := peerChannels - {u};
      }
    }

    /** The sending channel `ch` the remote side opened for peer `u` is up: record it. */
    method OnSendChannelOpen(u: Id, ch: ChannelId)
      modifies this`peerChannels
      ensures peerChannels == old(peerChannels)[u := ch]
    {
      peerChannels := peerChannels[u := ch];
    }

    /** Peer `u`'s sending channel closed: forget it. */
    method OnSendChannelClose(u: Id)
      modifies this`peerChannels
      ensures peerChannels == old(peerChannels) - {u}
    {
      peerChannels := peerChannels - {u};
    }

    /** Our receiving channel to peer `u` opened: announce the peer. */
    method OnReceiveChannelOpen(u: Id)
      modifies this`log
      ensures log == old(log) + EmitEffects(eventsListeners, "peerEnter", [JsString(u)])
    {
      Emit("peerEnter", [JsString(u)]);
    }

    /** Our receiving channel to peer `u` closed: announce the exit, then tear the peer down. */
    method OnReceiveChannelClose(u: Id)
      requires Valid()
      modifies this`peerTimeouts, this`peerChannels, this`peerConnections, this`log
      ensures Valid()
      ensures peerTimeouts == old(peerTimeouts) - {u}
      ensures peerChannels == old(peerChannels) - {u}
      ensures peerConnections == old(peerConnections) - {u}
      ensures log == old(log) + EmitEffects(eventsListeners, "peerExit", [JsString(u)])
                              + TeardownEffects(u, old(peerChannels), old(peerConnections))
    {
      Emit("peerExit", [JsString(u)]);
      CleanPeer(u);
    }

    /**
     * A message `msg` arrived from peer `u`: hand it to the application and
     * refresh the peer's timestamp, whether or not the peer still has a record.
     */
    method OnReceiveChannelMessage(u: Id, msg: JsValue, now: nat)
      requires Valid()
      modifies this`peerTimeouts, this`log
      ensures Valid()
      ensures log == old(log) + EmitEffects(eventsListeners, "peerUpdate", [JsString(u), msg])
      ensures peerTimeouts == old(peerTimeouts)[u := now]
    {
      Emit("peerUpdate", [JsString(u), msg]);
      peerTimeouts := peerTimeouts[u := now];
    }
  }
}
