/** The four kinds of traffic two connected peers exchange, and the message each one becomes
    (servercc/types/include/protocols.h, internal_channel.h, internal_channel_manager.h). */
module Frames {
  import opened Bytes
  import opened Messages

  const REQUEST: u32 := 0x10
  const REQUEST_END: u32 := 0x11
  const RESPONSE: u32 := 0x13
  const RESPONSE_END: u32 := 0x14

  /** The first two travel from the peer that opened the channel, the last two back to it. */
  datatype Frame =
    | Request(id: u32, message: Payload)
    | RequestEnd(id: u32)
    | Response(id: u32, message: Payload)
    | ResponseEnd(id: u32)
  {
    predicate FromOpener() {
      Request? || RequestEnd?
    }
  }

  /** The message that `InternalChannel::write` or `close` hands to `writeMessage`. */
  function Encode(f: Frame): (m: Message)
    ensures m.Framed()
  {
    match f
    case Request(id, inner) => Wrapped(id, REQUEST, inner)
    case RequestEnd(id) => Message(4, REQUEST_END, WordBytes(id))
    case Response(id, inner) => Wrapped(id, RESPONSE, inner)
    case ResponseEnd(id) => Message(4, RESPONSE_END, WordBytes(id))
  }

  /** How `forwardMessage` classifies an incoming message. `NoId` is an End frame whose body is too
      short for the `memcpy` of its id: the source leaves that case undefined. */
  datatype Incoming =
    | Known(frame: Frame)
    | BadLength
    | BadProtocol(inner: u32)
    | NoId

  function Parse(m: Message): Incoming
    requires m.Framed()
  {
    if m.protocol == RESPONSE_END then
      if |m.body| < 4 then NoId else Known(ResponseEnd(WordAt(m.body, 0)))
    else if m.protocol == REQUEST_END then
      if |m.body| < 4 then NoId else Known(RequestEnd(WordAt(m.body, 0)))
    else if Unwrapped(m).None? then BadLength
    else
      UnwrapThenWrap(m);
      var (id, inner) := Unwrapped(m).value;
      if m.protocol == RESPONSE then Known(Response(id, inner))
      else if m.protocol == REQUEST then Known(Request(id, inner))
      else BadProtocol(inner.protocol)
  }

  /** Routing recovers each frame whatever protocol number the payload carries, an End number included. */
  lemma ParseEncode(f: Frame)
    ensures Parse(Encode(f)) == Known(f)
  {
    match f
    case Request(id, inner) => WrapRoundTrip(id, REQUEST, inner);
    case Response(id, inner) => WrapRoundTrip(id, RESPONSE, inner);
    case RequestEnd(id) => WordRoundTrip(id);
    case ResponseEnd(id) => WordRoundTrip(id);
  }

  predicate IsEnd(protocol: u32) {
    protocol == REQUEST_END || protocol == RESPONSE_END
  }

  /** Every message has exactly one classification: by its outer protocol if that is an End, else by what it
      wraps, and a message that wraps nothing has a bad length. */
  lemma ParseClassifies(m: Message)
    requires m.Framed()
    ensures Parse(m) == NoId <==> IsEnd(m.protocol) && m.length < 4
    ensures IsEnd(m.protocol) && m.length >= 4 ==>
              Parse(m).Known? && Parse(m).frame.id == WordAt(m.body, 0)
              && (if m.protocol == REQUEST_END then Parse(m).frame.RequestEnd? else Parse(m).frame.ResponseEnd?)
    ensures !IsEnd(m.protocol) ==> (Parse(m) == BadLength <==> !exists id, inner :: IsWrapping(m, id, inner))
    ensures forall id, inner | !IsEnd(m.protocol) && IsWrapping(m, id, inner) ::
              if m.protocol == REQUEST || m.protocol == RESPONSE then
                && Parse(m).Known? && Parse(m).frame.id == id
                && (if m.protocol == REQUEST then Parse(m).frame.Request? else Parse(m).frame.Response?)
                && Parse(m).frame.message == Normal(inner)
              else Parse(m) == BadProtocol(inner.protocol)
  {
    hide Wrapped, Unwrapped, WordAt;
    UnwrapAcceptsImageOfWrap(m);
    forall id: u32, inner: Message | IsWrapping(m, id, inner) ensures Unwrapped(m) == Some((id, Normal(inner))) {
      WrappingIsUndone(m, id, inner);
    }
  }

  lemma WrappingIsUndone(m: Message, id: u32, inner: Message)
    requires m.Framed() && IsWrapping(m, id, inner)
    ensures Unwrapped(m) == Some((id, Normal(inner)))
  {
    WrapRoundTrip(id, m.protocol, inner);
    assert m.length == Truncate(inner.length + TRAILER_LENGTH) && |m.body| == inner.length + TRAILER_LENGTH;
  }

  /** And a classified message is the encoding of its frame, byte for byte, exactly when it is a data frame
      or an End frame with nothing after the id: `forwardMessage` ignores what follows it. */
  lemma EncodeParse(m: Message)
    requires m.Framed() && Parse(m).Known?
    ensures Encode(Parse(m).frame) == m <==> Parse(m).frame.Request? || Parse(m).frame.Response? || m.length == 4
  {
    if m.protocol == RESPONSE_END || m.protocol == REQUEST_END {
      BytesRoundTrip(m.body, 0);
      if m.length == 4 {
        assert m.body[0..4] == m.body;
      }
    } else {
      UnwrapThenWrap(m);
    }
  }
}
