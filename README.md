# ConnectWebRTC peer bookkeeping, in Dafny

This project models the peer bookkeeping of the browser class `ConnectWebRTC`.
Each node joins a shared WebSocket relay. Through it, nodes exchange small
signals (`ice`, `sdp`, `target`, `uuid`) until every pair of nodes has a direct
WebRTC data channel. The class keeps three maps keyed by peer id:

- `peerConnections`: the peer's `RTCPeerConnection`;
- `peerChannels`: the sending data channel, once it has opened;
- `peerTimeouts`: the last-activity timestamp.

It also keeps a table `eventsListeners` with one handler per event name.

The model is the class itself (`Connect.ConnectWebRTC`), with the same four
maps as fields, updated in place:

- Browser and application objects are opaque handles. The class creates each
  connection handle from a counter (`nextConnection`), so handles are fresh.
  Channel handles come from the transport as callback arguments.
- Every handler call and every close the class performs goes into one
  ordered log of `Effect`s, in the order the source does it. The negotiation
  calls on a connection (`addIceCandidate`, `createOffer`,
  `setRemoteDescription`, ...) are not in the log; they are the `Action` that
  `establishPeer` returns. Creating a connection or a data channel is not in
  the log either; a new connection is a fresh handle.
- A signal arrives already decoded (`Signals.Signal`). A JSON `false` field is
  `None`. `establishPeer` returns the action it starts (`Signals.Action`)
  instead of running the asynchronous offer/answer chain.
- Time is a `nat` parameter `now`.
- The transport callbacks that `init_peer_connection` and
  `init_data_connection` install are closures over one peer id. Each is a
  method that takes that id. So a callback of an old, replaced connection
  still acts on the peer's *current* entries, exactly as the closures do.

The pure parts are functions in their own modules:

- the inbound filter (`Signals.Accepts`);
- the branch selection of `establishPeer` (`Signals.Dispatch`);
- what `on` and `emit` do to the listener table and the log (`Events`);
- which peers a sweep evicts and which handles a teardown closes (`PeerTable`).

The class's object invariant `Valid()` says three things:

- every connection handle in `peerConnections` is below the counter;
- no two peers share a connection handle;
- every peer with a connection also has a timestamp, so the pruner always
  reaches it.

Every method keeps it. Together with `PeerTable.SweepClosesEachConnectionOnce`,
this means a sweep closes each evicted peer's connection exactly once, and
no other peer's connection. `PeerTable.SweepClosesOnlyEvictedConnections`
adds that a sweep closes no handle that no peer holds any more, such as a
connection dropped after ICE `disconnected`.

Some behaviour of the code is easy to misread; the model keeps it as written:

- The events are named `peerEnter`, `peerExit` and `peerUpdate`.
- There is no explicit Offering/Answering state. An `answer` description is
  applied whatever the local state is (`ConnectWebRTC.js:160-163`).
- A signal without `ice` or `sdp` always asks for an offer, for a known peer
  as much as for a new one.
- The pruner emits no `peerExit` itself. It only closes handles; any exit
  notice comes later, from the transport's own close callback.
- ICE `closed`/`disconnected` forgets the connection and the channel. It does
  not close them, and it keeps the timestamp. The next signal from that peer
  then creates a second connection with a fresh handle
  (`Scenarios.ReconnectAfterIceDrop`).
- A received message refreshes the timestamp even when the peer's record is
  already gone.

## Model

| member | source | states |
|---|---|---|
| `Signals.Accepts` | ConnectWebRTC.js:99-104 | a signal passes the filter iff its uuid is not ours and its target is `false`, empty, or our uuid |
| `Signals.Dispatch` | ConnectWebRTC.js:123-166 | exactly one action: a candidate whenever `ice` is present; otherwise an offer to the sender when `sdp` is absent; otherwise answer an `offer`, apply an `answer`, or reject any other type. Each action carries the signal's own payload |
| `Signals.CandidateIgnoresDescription` | ConnectWebRTC.js:123-128 | with `ice` present, the action does not depend on `sdp` |
| `Signals.JoinAnnouncementTriggersOffer` | ConnectWebRTC.js:80-85 | the join announcement of another node passes the filter and makes us offer to its sender |
| `Events.Registered` | ConnectWebRTC.js:29-33 | the handler is stored only for a string name and a function handler; it replaces an earlier one; other names keep theirs |
| `Events.EmitEffects` | ConnectWebRTC.js:35-40 | `emit` calls at most one handler: the one registered for the name, with the given arguments; it calls none when no handler is registered |
| `Events.LaterHandlerReplacesEarlier` | ConnectWebRTC.js:29-40 | after two `on` for one name, `emit` calls only the second handler |
| `Events.IllTypedRegistrationIgnored` | ConnectWebRTC.js:30-32 | `on` with a non-string name or a non-function handler leaves the table unchanged |
| `Events.RegistrationIsPerName` | ConnectWebRTC.js:29-40 | `on` for one name does not change what `emit` does for another |
| `PeerTable.TeardownEffects` | ConnectWebRTC.js:42-55 | a teardown closes exactly the peer's channel, if any, and its connection, if any; it calls no handler |
| `PeerTable.TeardownIdempotent` | ConnectWebRTC.js:42-55 | a second teardown of the same peer closes nothing |
| `PeerTable.SweepEffects` | ConnectWebRTC.js:57-65 | the closes of a sweep contain no handler call |
| `PeerTable.Expired` | ConnectWebRTC.js:59-61 | the stale peers are among those with a timestamp, and a peer with timestamp `t` is stale exactly when `now >= t + PEER_TIMEOUT` |
| `PeerTable.SweepScenario` | ConnectWebRTC.js:57-65 | with the 1000 ms timeout, a record stamped at 0 is kept at 999 and evicted at 1000 |
| `PeerTable.SweepClosesEachConnectionOnce` | ConnectWebRTC.js:57-65 | without duplicate ids or shared handles, a sweep closes each evicted peer's connection exactly once and no other peer's |
| `PeerTable.SweepClosesOnlyEvictedConnections` | ConnectWebRTC.js:57-65 | every connection a sweep closes is the current connection of some evicted peer |
| `PeerTable.SweepClosesChannelsOfEvicted` | ConnectWebRTC.js:57-65 | a sweep closes a channel iff it belongs to an evicted peer |
| `Connect.ConnectWebRTC.constructor` | ConnectWebRTC.js:14-27 | all maps and the log start empty; the invariant holds |
| `Connect.ConnectWebRTC.On` | ConnectWebRTC.js:29-33 | the listener table becomes `Registered(old table, name, fn)`; nothing else changes |
| `Connect.ConnectWebRTC.Emit` | ConnectWebRTC.js:35-40 | the log grows by exactly `EmitEffects` for the name; nothing else changes |
| `Connect.ConnectWebRTC.CleanPeer` | ConnectWebRTC.js:42-55 | the peer is removed from all three maps; every other key and value is unchanged; the log grows by its teardown closes, channel first |
| `Connect.ConnectWebRTC.PruneAllPeers` | ConnectWebRTC.js:57-65 | afterwards `peerTimeouts` holds exactly the old entries with `now - t < PEER_TIMEOUT`, with their old values; the evicted ids, each listed once, are exactly the stale ones. They are gone from `peerChannels` and `peerConnections`, which are otherwise unchanged; the log grows by their teardown closes |
| `Connect.ConnectWebRTC.EstablishPeer` | ConnectWebRTC.js:112-167 | an unknown peer gets a fresh connection handle and the timestamp `now`; a known peer's connection is reused, and its timestamp and the counter are untouched; the action is `Dispatch(signal)`; channels and the log are unchanged |
| `Connect.ConnectWebRTC.OnMessage` | ConnectWebRTC.js:97-106 | a signal the filter rejects changes no map; an accepted one behaves as `EstablishPeer` |
| `Connect.ConnectWebRTC.OnIceConnectionStateChange` | ConnectWebRTC.js:189-201 | `closed`/`disconnected` remove the peer from `peerConnections` and `peerChannels` but not from `peerTimeouts`, and close nothing; any other state changes nothing |
| `Connect.ConnectWebRTC.OnSendChannelOpen` | ConnectWebRTC.js:206-209 | `peerChannels[u]` becomes the opened channel; nothing else changes |
| `Connect.ConnectWebRTC.OnSendChannelClose` | ConnectWebRTC.js:210-213 | `u` is removed from `peerChannels` only |
| `Connect.ConnectWebRTC.OnReceiveChannelOpen` | ConnectWebRTC.js:227-229 | emits `peerEnter(u)`; no map changes |
| `Connect.ConnectWebRTC.OnReceiveChannelClose` | ConnectWebRTC.js:230-233 | emits `peerExit(u)` first, then tears `u` down as `CleanPeer` does |
| `Connect.ConnectWebRTC.OnReceiveChannelMessage` | ConnectWebRTC.js:234-238 | emits `peerUpdate(u, msg)`, then `peerTimeouts[u]` becomes `now`; connections and channels are untouched |
| `Scenarios.SweepBoundary` | ConnectWebRTC.js:57-65 | a peer announced at 0 survives a sweep at 999; the sweep at 1000 evicts it and closes its connection exactly once |
| `Scenarios.CleanPeerTwice` | ConnectWebRTC.js:42-55 | a second `cleanPeer` leaves all maps as the first left them and adds nothing to the log |
| `Scenarios.ReconnectAfterIceDrop` | ConnectWebRTC.js:114-122 | after ICE `disconnected`, the next signal from the peer creates a connection with a new handle; a later sweep still evicts the peer |

## Left out

- The WebSocket relay: `connect`, `disconnect`, `send`, and the socket's `onopen`/`onclose` handlers (`ConnectWebRTC.js:67-95`). This is network I/O. The join announcement appears only as a signal value.
- The outbound signals: the ICE-candidate signal of `onicecandidate` (`ConnectWebRTC.js:178-188`) and the offer/answer replies. These are sends on the relay. The reply's target is recorded in the chosen `Action`.
- `RTCPeerConnection`, `RTCIceCandidate`, `createDataChannel` and its options, and the STUN server setting. These are browser APIs. Connections and channels are opaque handles, and the receiving channel is not a handle at all, because no map holds it.
- The promise chains of `createOffer`, `createAnswer`, `setLocalDescription` and `setRemoteDescription`, and their error handlers. They are asynchronous library calls; `EstablishPeer` returns which one it starts.
- Console logging, `JSON.parse` and `JSON.stringify`. Signals and messages arrive decoded.
- `setInterval`/`clearInterval` and `Date.now()`. These are timers and the clock; `now` is a parameter.
- `Connect.ConnectWebRTC.PruneAllPeers`: reads the clock once per sweep. The source calls `Date.now()` again for every entry.
- `Connect.ConnectWebRTC.PruneAllPeers`: does not fix the visiting order. JavaScript visits a `Map` in insertion order; the model returns the order it used and states the log in terms of it.
- The random own id (`ConnectWebRTC.js:9`). It uses floating point and randomness, so the id is a constructor parameter.
- What a registered handler does when `emit` calls it. It is application code; it is recorded as a call in the log and is not run, so it cannot re-enter the class.
- Exceptions. A handler that throws, or a `JSON.parse` that fails, is not modelled. In the source, a throwing `peerExit` handler skips the `cleanPeer` after it (`ConnectWebRTC.js:231-232`). A throwing `peerUpdate` handler or a failed parse skips the timestamp refresh (`ConnectWebRTC.js:235-237`).
- The browser's later callbacks caused by `close()`. They are separate calls of the callback methods, made by the environment.
