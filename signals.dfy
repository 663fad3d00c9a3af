/**
 * The signalling envelope as it arrives over the relay, already decoded, and
 * the two pure decisions ConnectWebRTC takes on it: whether the inbound
 * filter lets it through, and which single action `establishPeer` takes.
 */
module Signals {
  import opened Wrappers
  import opened Handles

  /** An ICE candidate: an opaque payload produced and consumed by the browser. */
  type Candidate = nat

  /** A session description: its `type` tag and an opaque body. */
  datatype Description = Description(sdpType: string, body: nat)

  /**
   * A decoded signal `{ice, sdp, target, uuid}`. A field that holds the JSON
   * value `false` is `None`.
   */
  datatype Signal = Signal(ice: Option<Candidate>, sdp: Option<Description>, target: Option<Id>, uuid: Id)

  /**
   * The inbound filter of the relay's message callback. A signal is dropped
   * when it is our own, or when its target is truthy and names someone else;
   * in JavaScript both `false` and the empty string are falsy, so either
   * counts as broadcast.
   */
  function Accepts(self: Id, s: Signal): (r: bool)
    ensures r <==> s.uuid != self && (s.target == None || s.target == Some("") || s.target == Some(self))
  {
    if s.uuid == self then false
    else if s.target.Some? && s.target.value != "" && s.target.value != self then false
    else true
  }

  /** The one step `establishPeer` takes for a signal once the peer's connection exists. */
  datatype Action =
    | AddCandidate(candidate: Candidate)
      /** createOffer, setLocalDescription, then send the offer to `replyTo` */
    | CreateOffer(replyTo: Id)
      /** setRemoteDescription(offer), createAnswer, setLocalDescription, then send the answer to `replyTo` */
    | AnswerOffer(offer: Description, replyTo: Id)
      /** setRemoteDescription(answer), whatever the local negotiation state */
    | ApplyAnswer(answer: Description)
      /** the "Bad SDP type" error: logged, nothing else happens */
    | RejectSdpType(sdpType: string)

  /**
   * The branch selection of `establishPeer`: a candidate takes priority over
   * everything else, a signal without a description asks for an offer, and a
   * description is answered, applied or rejected by its type. Exactly one of
   * the five actions is chosen, and it carries the signal's own payload.
   */
  function Dispatch(s: Signal): (a: Action)
    ensures a.AddCandidate? <==> s.ice.Some?
    ensures a.CreateOffer? <==> s.ice.None? && s.sdp.None?
    ensures a.AnswerOffer? <==> s.ice.None? && s.sdp.Some? && s.sdp.value.sdpType == "offer"
    ensures a.ApplyAnswer? <==> s.ice.None? && s.sdp.Some? && s.sdp.value.sdpType == "answer"
    ensures a.RejectSdpType? <==> s.ice.None? && s.sdp.Some? && s.sdp.value.sdpType != "offer" && s.sdp.value.sdpType != "answer"
    ensures a.AddCandidate? ==> a.candidate == s.ice.value
    ensures a.CreateOffer? || a.AnswerOffer? ==> a.replyTo == s.uuid
    ensures a.AnswerOffer? ==> a.offer == s.sdp.value
    ensures a.ApplyAnswer? ==> a.answer == s.sdp.value
    ensures a.RejectSdpType? ==> a.sdpType == s.sdp.value.sdpType
  {
    if s.ice.Some? then AddCandidate(s.ice.value)
    else if s.sdp.None? then CreateOffer(s.uuid)
    else if s.sdp.value.sdpType == "offer" then AnswerOffer(s.sdp.value, s.uuid)
    else if s.sdp.value.sdpType == "answer" then ApplyAnswer(s.sdp.value)
    else RejectSdpType(s.sdp.value.sdpType)
  }

  /** With a candidate present, the description field is never looked at. */
  lemma CandidateIgnoresDescription(s: Signal, sdp: Option<Description>)
    requires s.ice.Some?
    ensures Dispatch(s.(sdp := sdp)) == Dispatch(s)
  {
  }

  /** The join announcement `{ice: false, sdp: false, target: false}` triggers an offer to its sender. */
  lemma JoinAnnouncementTriggersOffer(self: Id, from: Id)
    requires from != self
    ensures Accepts(self, Signal(None, None, None, from))
    ensures Dispatch(Signal(None, None, None, from)) == CreateOffer(from)
  {
  }
}
