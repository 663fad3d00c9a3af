/**
 * Client-side runs of ConnectWebRTC, proved from the class's contracts alone:
 * the pruning boundary, a repeated teardown, and a peer whose ICE state
 * dropped before the pruner reached it.
 */
module Scenarios {
  import opened Wrappers
  import opened Handles
  import opened Signals
  import opened PeerTable
  import opened Connect

  /**
   * A peer announced at time 0 and silent afterwards is still known after a
   * sweep at 999 and gone, with its connection closed once, after a sweep at 1000.
   */
  method SweepBoundary(self: Id, peer: Id) returns (keptAt999: bool, evictedAt1000: bool, closed: seq<Effect>)
    requires peer != self
    ensures keptAt999 && evictedAt1000
    ensures multiset(closed)[ClosedConnection(0)] == 1
  {
    var node := new ConnectWebRTC(self);
    var outcome := node.OnMessage(Signal(None, None, None, peer), 0);
    assert outcome == Handled(0, CreateOffer(peer));
    SweepScenario(peer);
    var first := node.PruneAllPeers(999);
    assert node.peerChannels == map[] && node.peerConnections == map[peer := 0] && node.peerTimeouts == map[peer := 0];
    keptAt999 := peer in node.peerConnections && peer in node.peerTimeouts;
    var before := node.log;
    var second := node.PruneAllPeers(1000);
    assert node.log == before + SweepEffects(second, map[], map[peer := 0]);
    SweepClosesEachConnectionOnce(second, map[], map[peer := 0], peer);
    evictedAt1000 := peer !in node.peerConnections && peer !in node.peerTimeouts;
    closed := node.log[|before|..];
  }

  /** A second `cleanPeer` of the same peer leaves the maps as the first left them and closes nothing. */
  method CleanPeerTwice(node: ConnectWebRTC, u: Id) returns (sameMaps: bool, closedNothing: bool)
    requires node.Valid()
    modifies node
    ensures sameMaps && closedNothing
  {
    node.CleanPeer(u);
    var timeouts, channels, connections, log := node.peerTimeouts, node.peerChannels, node.peerConnections, node.log;
    node.CleanPeer(u);
    sameMaps := node.peerTimeouts == timeouts && node.peerChannels == channels && node.peerConnections == connections;
    closedNothing := node.log == log;
  }

  /**
   * After ICE reports "disconnected" the peer keeps its timestamp, so the
   * next signal from it creates a second connection with a fresh handle,
   * which the pruner later evicts.
   */
  method ReconnectAfterIceDrop(self: Id, peer: Id) returns (secondDiffers: bool, prunedLater: bool)
    requires peer != self
    ensures secondDiffers && prunedLater
  {
    var node := new ConnectWebRTC(self);
    var hello := Signal(None, None, None, peer);
    var first := node.OnMessage(hello, 0);
    node.OnIceConnectionStateChange(peer, "disconnected");
    assert peer in node.peerTimeouts && peer !in node.peerConnections;
    var second := node.OnMessage(hello, 10);
    secondDiffers := first.connection != second.connection;
    var evicted := node.PruneAllPeers(1010);
    assert peer in Expired(map[peer := 10], 1010);
    prunedLater := peer !in node.peerConnections && peer !in node.peerTimeouts;
  }
}
