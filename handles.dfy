/**
 * The identifiers and opaque handles shared by every part of the model, and
 * the entries of the class's log.
 *
 * Everything the browser or the embedding application owns is an opaque
 * handle here: a registered callback is a HandlerId, a data channel a
 * ChannelId, a peer connection a ConnectionId. Every handler call and every
 * close the class performs is recorded as an Effect in an ordered log.
 */
module Handles {

  /** A peer identifier: the random token a node puts in the `uuid` field. */
  type Id = string

  type HandlerId = nat
  type ChannelId = nat
  type ConnectionId = nat

  /** The decoded payload of an application message, left opaque. */
  type Payload = nat

  /**
   * The JavaScript values `on` and `emit` see: a string, a function, or
   * anything else (a number, an object, a parsed JSON message, ...).
   */
  datatype JsValue =
    | JsString(str: string)
    | JsFunction(handler: HandlerId)
    | JsOther(payload: Payload)

  /** An externally visible action of the class, in the order it happens. */
  datatype Effect =
    | Invoked(handler: HandlerId, args: seq<JsValue>)
    | ClosedChannel(channel: ChannelId)
    | ClosedConnection(connection: ConnectionId)
}
