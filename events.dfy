/**
 * The single-handler event registry of ConnectWebRTC (`on` and `emit`).
 */
module Events {
  import opened Handles

  /**
   * The listener table after `on(name, fn)`: the handler is stored under the
   * name only when the name is a string and the handler a function; any
   * earlier handler for that name is replaced, every other name keeps its own.
   */
  function Registered(listeners: map<string, HandlerId>, name: JsValue, fn: JsValue): (r: map<string, HandlerId>)
    ensures forall k :: k in r <==> k in listeners || (name == JsString(k) && fn.JsFunction?)
    ensures forall k :: k in r ==> r[k] == if name == JsString(k) && fn.JsFunction? then fn.handler else listeners[k]
  {
    if name.JsString? && fn.JsFunction? then listeners[name.str := fn.handler] else listeners
  }

  /**
   * What `emit(name, args...)` does: call the handler registered for `name`,
   * and only that one, once; nothing at all when no handler is registered.
   */
  function EmitEffects(listeners: map<string, HandlerId>, name: string, args: seq<JsValue>): (r: seq<Effect>)
    ensures |r| <= 1
    ensures r != [] <==> name in listeners
    ensures forall e :: e in r ==> e == Invoked(listeners[name], args)
  {
    if name in listeners then [Invoked(listeners[name], args)] else []
  }

  /** A second `on` for the same name wins: `emit` calls only the later handler. */
  lemma LaterHandlerReplacesEarlier(listeners: map<string, HandlerId>, name: string, first: HandlerId, second: HandlerId, args: seq<JsValue>)
    ensures EmitEffects(Registered(Registered(listeners, JsString(name), JsFunction(first)), JsString(name), JsFunction(second)), name, args)
            == [Invoked(second, args)]
  {
  }

  /** `on` with a non-string name or a non-function handler changes nothing. */
  lemma IllTypedRegistrationIgnored(listeners: map<string, HandlerId>, name: JsValue, fn: JsValue)
    requires !name.JsString? || !fn.JsFunction?
    ensures Registered(listeners, name, fn) == listeners
  {
  }

  /** Registering under one name does not change what `emit` does for any other name. */
  lemma RegistrationIsPerName(listeners: map<string, HandlerId>, name: JsValue, fn: JsValue, other: string, args: seq<JsValue>)
    requires name != JsString(other)
    ensures EmitEffects(Registered(listeners, name, fn), other, args) == EmitEffects(listeners, other, args)
  {
  }
}
