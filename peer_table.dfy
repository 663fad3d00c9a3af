/**
 * The peer bookkeeping of ConnectWebRTC as values: the staleness timeout,
 * which peers a sweep evicts, and which transport handles a teardown closes.
 */
module PeerTable {
  import opened Handles

  /** Milliseconds of silence after which the pruner evicts a peer. */
  const PEER_TIMEOUT: nat := 1000

  /**
   * The staleness test of the sweep: a peer with a timestamp is expired
   * exactly when PEER_TIMEOUT has fully elapsed since it.
   */
  function Expired(timeouts: map<Id, nat>, now: nat): (r: set<Id>)
    ensures r <= timeouts.Keys
    ensures forall u :: u in timeouts ==> (u in r <==> now >= timeouts[u] + PEER_TIMEOUT)
  {
    set u | u in timeouts && now - timeouts[u] >= PEER_TIMEOUT
  }

  ghost predicate NoDuplicates(ids: seq<Id>)
  {
    forall i, j :: 0 <= i < j < |ids| ==> ids[i] != ids[j]
  }

  /** No connection handle is shared by two peers. */
  ghost predicate Injective(connections: map<Id, ConnectionId>)
  {
    forall u, v :: u in connections && v in connections && u != v ==> connections[u] != connections[v]
  }

  /**
   * What `cleanPeer(u)` closes: the peer's channel, if it has one, and then
   * its connection, if it has one. It calls no handler.
   */
  function TeardownEffects(u: Id, channels: map<Id, ChannelId>, connections: map<Id, ConnectionId>): (r: seq<Effect>)
    ensures forall c :: ClosedChannel(c) in r <==> u in channels && channels[u] == c
    ensures forall c :: ClosedConnection(c) in r <==> u in connections && connections[u] == c
    ensures forall e :: e in r ==> !e.Invoked?
  {
    (if u in channels then [ClosedChannel(channels[u])] else [])
    + (if u in connections then [ClosedConnection(connections[u])] else [])
  }

  /**
   * The closes of a sweep that evicts `ids` in that order, each torn down
   * against the maps as they stood before the sweep. The pruner calls no
   * handler.
   */
  function SweepEffects(ids: seq<Id>, channels: map<Id, ChannelId>, connections: map<Id, ConnectionId>): (r: seq<Effect>)
    ensures forall e :: e in r ==> !e.Invoked?
  {
    if ids == [] then []
    else SweepEffects(ids[..|ids| - 1], channels, connections) + TeardownEffects(ids[|ids| - 1], channels, connections)
  }

  /** A record stamped at 0 survives a sweep at 999 and is evicted by a sweep at 1000. */
  lemma SweepScenario(u: Id)
    ensures Expired(map[u := 0], 999) == {}
    ensures Expired(map[u := 0], 1000) == {u}
  {
  }

  /**
   * Tearing down the same peer a second time closes nothing: after the first
   * teardown the peer has neither channel nor connection.
   */
  lemma TeardownIdempotent(u: Id, channels: map<Id, ChannelId>, connections: map<Id, ConnectionId>)
    ensures TeardownEffects(u, channels - {u}, connections - {u}) == []
  {
  }

  /**
   * Every connection a sweep closes belongs to an evicted peer, and when no
   * two peers share a connection handle each evicted peer's connection is
   * closed exactly once and no other peer's at all.
   */
  lemma {:induction false} SweepClosesEachConnectionOnce(ids: seq<Id>, channels: map<Id, ChannelId>, connections: map<Id, ConnectionId>, u: Id)
    requires NoDuplicates(ids)
    requires Injective(connections)
    requires u in connections
    ensures multiset(SweepEffects(ids, channels, connections))[ClosedConnection(connections[u])] == if u in ids then 1 else 0
  {
    if ids != [] {
      var init, last := ids[..|ids| - 1], ids[|ids| - 1];
      assert ids == init + [last];
      assert NoDuplicates(init) by {
        forall i, j | 0 <= i < j < |init| ensures init[i] != init[j] {
          assert init[i] == ids[i] && init[j] == ids[j];
        }
      }
      SweepClosesEachConnectionOnce(init, channels, connections, u);
      var e := ClosedConnection(connections[u]);
      var front := if last in channels then [ClosedChannel(channels[last])] else [];
      var back := if last in connections then [ClosedConnection(connections[last])] else [];
      assert TeardownEffects(last, channels, connections) == front + back;
      assert multiset(front)[e] == 0;
      assert multiset(back)[e] == if last == u then 1 else 0;
      assert u in ids <==> u in init || u == last;
      assert u == last ==> u !in init;
    }
  }

  /**
   * A sweep closes no connection except the current one of an evicted peer:
   * a handle no peer holds any more is never closed by it.
   */
  lemma {:induction false} SweepClosesOnlyEvictedConnections(ids: seq<Id>, channels: map<Id, ChannelId>, connections: map<Id, ConnectionId>, c: ConnectionId)
    requires ClosedConnection(c) in SweepEffects(ids, channels, connections)
    ensures exists i :: 0 <= i < |ids| && ids[i] in connections && connections[ids[i]] == c
  {
    var init, last := ids[..|ids| - 1], ids[|ids| - 1];
    if ClosedConnection(c) in TeardownEffects(last, channels, connections) {
      assert ids[|ids| - 1] == last;
    } else {
      SweepClosesOnlyEvictedConnections(init, channels, connections, c);
      var i :| 0 <= i < |init| && init[i] in connections && connections[init[i]] == c;
      assert ids[i] == init[i];
    }
  }

  /** A sweep closes exactly the channels of the peers it evicts. */
  lemma {:induction false} SweepClosesChannelsOfEvicted(ids: seq<Id>, channels: map<Id, ChannelId>, connections: map<Id, ConnectionId>, c: ChannelId)
    ensures ClosedChannel(c) in SweepEffects(ids, channels, connections)
            <==> exists i :: 0 <= i < |ids| && ids[i] in channels && channels[ids[i]] == c
  {
    if ids != [] {
      var init, last := ids[..|ids| - 1], ids[|ids| - 1];
      SweepClosesChannelsOfEvicted(init, channels, connections, c);
      if exists i :: 0 <= i < |ids| && ids[i] in channels && channels[ids[i]] == c {
        var i :| 0 <= i < |ids| && ids[i] in channels && channels[ids[i]] == c;
        if i < |ids| - 1 {
          assert init[i] == ids[i];
        }
      } else {
        forall i | 0 <= i < |init| ensures !(init[i] in channels && channels[init[i]] == c) {
          assert init[i] == ids[i];
        }
      }
    }
  }

  /** Removing one more key after a set of keys is removing the enlarged set. */
  lemma RemoveOneMore<V>(m: map<Id, V>, done: set<Id>, u: Id)
    ensures m - done - {u} == m - (done + {u})
  {
  }

  /** A peer not yet evicted is torn down exactly as it would have been before the sweep began. */
  lemma TeardownAgainstRemaining(u: Id, done: set<Id>, channels: map<Id, ChannelId>, connections: map<Id, ConnectionId>)
    requires u !in done
    ensures TeardownEffects(u, channels - done, connections - done) == TeardownEffects(u, channels, connections)
  {
  }

  lemma SweepEffectsAppend(ids: seq<Id>, u: Id, channels: map<Id, ChannelId>, connections: map<Id, ConnectionId>)
    ensures SweepEffects(ids + [u], channels, connections)
            == SweepEffects(ids, channels, connections) + TeardownEffects(u, channels, connections)
  {
  }

  lemma NoDuplicatesAppend(ids: seq<Id>, u: Id)
    requires NoDuplicates(ids) && u !in ids
    ensures NoDuplicates(ids + [u])
  {
  }
}
