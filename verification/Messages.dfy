/** Messages, and the trailer that `wrapMessage` adds and `unwrapMessage` strips
    (servercc/types/include/message.h).

    A wrapped body is: original body, original header (8 bytes), value (4 bytes). */
module Messages {
  import opened Bytes

  datatype Option<+T> = None | Some(value: T)

  /** sizeof(MessageHeader). */
  const HEADER_LENGTH: nat := 8

  /** Header plus a 32-bit value. */
  const TRAILER_LENGTH: nat := 12

  /** The longest body whose wrapped length still fits in a `u_int32_t`. */
  const MAX_PAYLOAD: nat := 0xFFFF_FFF3

  datatype Message = Message(length: u32, protocol: u32, body: seq<byte>) {
    /** The header tells the truth about the body, as in every message `readMessage` returns. */
    predicate Framed() {
      length == |body|
    }
  }

  /** A framed message short enough to be wrapped once. */
  type Payload = m: Message | m.Framed() && m.length <= MAX_PAYLOAD witness Message(0, 0, [])

  function HeaderBytes(m: Message): (s: seq<byte>)
    ensures |s| == HEADER_LENGTH
  {
    WordBytes(m.length) + WordBytes(m.protocol)
  }

  /** The message the receiver gets back: the body cut or zero-padded to what the header says. */
  function Normal(m: Message): (r: Message)
    ensures r.Framed()
    ensures m.Framed() ==> r == m
  {
    m.(body := Resized(m.body, m.length))
  }

  // ---- What wrap and unwrap compute ----

  /** `wrapMessage`. From length 2^32 - 8 on, `length + 8` wraps around and the first `memcpy`
      lands outside the body, so the source owes the precondition. */
  function Wrapped(value: u32, protocol: u32, m: Message): Message
    requires m.length + HEADER_LENGTH < U32_LIMIT
  {
    Message(Truncate(m.length + TRAILER_LENGTH), protocol,
            Resized(m.body, m.length) + HeaderBytes(m) + WordBytes(value))
  }

  /** What `unwrapMessage`'s three `memcpy` calls may read. */
  predicate Readable(m: Message) {
    m.length >= TRAILER_LENGTH ==> m.length <= |m.body|
  }

  /** `unwrapMessage`; None is its `InvalidArgumentError`. */
  function Unwrapped(m: Message): Option<(u32, Message)>
    requires Readable(m)
  {
    if m.length < TRAILER_LENGTH then None
    else
      var offset := m.length - TRAILER_LENGTH;
      var inner := Message(WordAt(m.body, offset), WordAt(m.body, offset + 4), m.body[..offset]);
      if inner.length != offset then None
      else Some((WordAt(m.body, offset + HEADER_LENGTH), inner))
  }

  // ---- The two are inverse ----

  /** Unwrapping what wrap produced. It succeeds exactly up to MAX_PAYLOAD: the four lengths above
      it make the new header's length wrap around to 0..3. */
  lemma WrapRoundTrip(value: u32, protocol: u32, m: Message)
    requires m.length + HEADER_LENGTH < U32_LIMIT
    ensures var w := Wrapped(value, protocol, m);
            Readable(w) &&
            Unwrapped(w) == if m.length <= MAX_PAYLOAD then Some((value, Normal(m))) else None
  {
    hide WordAt, WordBytes;
    var w := Wrapped(value, protocol, m);
    if m.length <= MAX_PAYLOAD {
      var body := Resized(m.body, m.length);
      assert w.length == m.length + TRAILER_LENGTH;
      assert w.body == body + WordBytes(m.length) + (WordBytes(m.protocol) + WordBytes(value));
      WordInside(body, m.length, WordBytes(m.protocol) + WordBytes(value));
      assert w.body == (body + WordBytes(m.length)) + WordBytes(m.protocol) + WordBytes(value);
      WordInside(body + WordBytes(m.length), m.protocol, WordBytes(value));
      assert w.body == (body + HeaderBytes(m)) + WordBytes(value) + [];
      WordInside(body + HeaderBytes(m), value, []);
      assert w.body[..m.length] == body;
    } else {
      assert w.length == m.length + TRAILER_LENGTH - U32_LIMIT;
    }
  }

  /** A framed message that unwraps is the wrapping of what came out. */
  lemma UnwrapThenWrap(m: Message)
    requires m.Framed() && Unwrapped(m).Some?
    ensures var (value, inner) := Unwrapped(m).value;
            inner.Framed() && inner.length <= MAX_PAYLOAD && Wrapped(value, m.protocol, inner) == m
  {
    hide WordAt, WordBytes;
    var (value, inner) := Unwrapped(m).value;
    var offset := m.length - TRAILER_LENGTH;
    BytesRoundTrip(m.body, offset);
    BytesRoundTrip(m.body, offset + 4);
    BytesRoundTrip(m.body, offset + HEADER_LENGTH);
    assert m.body == m.body[..offset] + m.body[offset..offset + 4]
                     + m.body[offset + 4..offset + 8] + m.body[offset + 8..offset + 12];
    assert Wrapped(value, m.protocol, inner).body == m.body;
  }

  ghost predicate IsWrapping(m: Message, value: u32, inner: Message) {
    inner.length + HEADER_LENGTH < U32_LIMIT && Wrapped(value, m.protocol, inner) == m
  }

  /** Unwrap accepts a framed message exactly when some wrap call made it. */
  lemma UnwrapAcceptsImageOfWrap(m: Message)
    requires m.Framed()
    ensures Unwrapped(m).Some? <==> exists value, inner :: IsWrapping(m, value, inner)
  {
    if Unwrapped(m).Some? {
      UnwrapThenWrap(m);
      var (value, inner) := Unwrapped(m).value;
      assert IsWrapping(m, value, inner);
    }
    forall value, inner | IsWrapping(m, value, inner) ensures Unwrapped(m).Some? {
      WrapRoundTrip(value, m.protocol, inner);
      assert m.length == Truncate(inner.length + TRAILER_LENGTH) && |m.body| == inner.length + TRAILER_LENGTH;
    }
  }

  // ---- Nested wrapping ----

  datatype Layer = Layer(value: u32, protocol: u32)

  lemma WrappedIsFramed(value: u32, protocol: u32, m: Message)
    requires m.length <= MAX_PAYLOAD
    ensures Wrapped(value, protocol, m).Framed() && Wrapped(value, protocol, m).length == m.length + TRAILER_LENGTH
  {
    hide WordBytes;
  }

  function WrapAll(m: Message, layers: seq<Layer>): (r: Message)
    requires m.length + TRAILER_LENGTH * |layers| < U32_LIMIT
    ensures r.length == m.length + TRAILER_LENGTH * |layers|
    ensures layers != [] || m.Framed() ==> r.Framed()
    decreases |layers|
  {
    hide Wrapped;
    if layers == [] then m
    else
      var last, inner := layers[|layers| - 1], WrapAll(m, layers[..|layers| - 1]);
      WrappedIsFramed(last.value, last.protocol, inner);
      Wrapped(last.value, last.protocol, inner)
  }

  /** n unwraps, collecting the values; None as soon as one fails. */
  function UnwrapAll(m: Message, n: nat): Option<(seq<u32>, Message)>
    requires m.Framed()
    decreases n
  {
    if n == 0 then Some(([], m))
    else if Unwrapped(m).None? then None
    else
      UnwrapThenWrap(m);
      var (value, inner) := Unwrapped(m).value;
      var rest := UnwrapAll(inner, n - 1);
      if rest.None? then None else Some(([value] + rest.value.0, rest.value.1))
  }

  function ValuesInReverse(layers: seq<Layer>): seq<u32> {
    seq(|layers|, i requires 0 <= i < |layers| => layers[|layers| - 1 - i].value)
  }

  lemma PeelOne(m: Message, n: nat, value: u32, inner: Message, values: seq<u32>, core: Message)
    requires m.Framed() && Unwrapped(m) == Some((value, inner)) && inner.Framed()
    requires UnwrapAll(inner, n) == Some((values, core))
    ensures UnwrapAll(m, n + 1) == Some(([value] + values, core))
  {
    UnwrapThenWrap(m);
  }

  /** n wraps are undone by n unwraps, which hand the values back last first. (Normal changes nothing
      once there is a layer, or if m was framed.) */
  lemma {:induction false} NestedRoundTrip(m: Message, layers: seq<Layer>)
    requires m.length + TRAILER_LENGTH * |layers| < U32_LIMIT
    ensures UnwrapAll(Normal(WrapAll(m, layers)), |layers|) == Some((ValuesInReverse(layers), Normal(m)))
    decreases |layers|
  {
    hide Wrapped, Unwrapped;
    if layers == [] {
      assert ValuesInReverse(layers) == [];
    } else {
      var n := |layers| - 1;
      var last, below := layers[n], layers[..n];
      var inner := WrapAll(m, below);
      WrapRoundTrip(last.value, last.protocol, inner);
      NestedRoundTrip(m, below);
      PeelOne(WrapAll(m, layers), n, last.value, Normal(inner), ValuesInReverse(below), Normal(m));
      assert ValuesInReverse(layers) == [last.value] + ValuesInReverse(below);
    }
  }

  // ---- The calls themselves ----

  /** A message behind a `unique_ptr`: wrap and unwrap rewrite it in place. */
  class MessageCell {
    var length: u32
    var protocol: u32
    var body: seq<byte>

    constructor (m: Message)
      ensures Value() == m
    {
      length, protocol, body := m.length, m.protocol, m.body;
    }

    function Value(): Message
      reads this
    {
      Message(length, protocol, body)
    }

    method Wrap(value: u32, newProtocol: u32)
      requires length + HEADER_LENGTH < U32_LIMIT
      modifies this
      ensures Value() == Wrapped(value, newProtocol, old(Value()))
    {
      body := Resized(body, Truncate(length + HEADER_LENGTH) + 4);
      ghost var resized := body;
      var offset: u32 := length;
      body := Splice(body, offset, HeaderBytes(Value()));
      offset := Truncate(offset + HEADER_LENGTH);
      body := Splice(body, offset, WordBytes(value));
      protocol := newProtocol;
      length := Truncate(offset + 4);
      assert body == resized[..old(length)] + HeaderBytes(old(Value())) + WordBytes(value);
      assert resized[..old(length)] == Resized(old(body), old(length));
    }

    /** On failure the source drops the message, so nothing is said about its contents. */
    method Unwrap() returns (result: Option<u32>)
      requires Readable(Value())
      modifies this
      ensures result.Some? <==> Unwrapped(old(Value())).Some?
      ensures result.Some? ==> Unwrapped(old(Value())) == Some((result.value, Value()))
    {
      if length < TRAILER_LENGTH {
        return None;
      }
      var offset: u32 := length - 4;
      var value := WordAt(body, offset);
      offset := offset - HEADER_LENGTH;
      length, protocol := WordAt(body, offset), WordAt(body, offset + 4);
      if length != offset {
        return None;
      }
      body := body[..offset];
      return Some(value);
    }
  }
}
