/** Messages on a byte stream (servercc/types/src/message.cc). A connection is a FIFO of bytes; each
    `recv` returns some prefix of what was asked, and the environment picks how long. */
module Framing {
  import opened Bytes
  import opened Messages

  function Serialized(m: Message): seq<byte> {
    HeaderBytes(m) + m.body
  }

  function {:tailrecursion false} SerializedAll(ms: seq<Message>): seq<byte> {
    if ms == [] then [] else Serialized(ms[0]) + SerializedAll(ms[1..])
  }

  lemma {:induction false} SerializedAllAppend(ms: seq<Message>, more: seq<Message>)
    ensures SerializedAll(ms + more) == SerializedAll(ms) + SerializedAll(more)
  {
    if ms == [] {
      assert ms + more == more;
    } else {
      assert (ms + more)[1..] == ms[1..] + more;
      SerializedAllAppend(ms[1..], more);
    }
  }

  // ---- Reading ----

  /** How much the two `recv` calls of one read may return. */
  datatype Grant = Grant(header: nat, body: nat)

  datatype Reading =
    | Got(message: Message, rest: seq<byte>)
    | Short(rest: seq<byte>)

  function Chunk(want: nat, grant: nat, stream: seq<byte>): (n: nat)
    ensures n <= want && n <= |stream|
  {
    if grant <= want && grant <= |stream| then grant else if want <= |stream| then want else |stream|
  }

  /** `readMessage`: any short read is an error, and what it took is lost. */
  function ReadFrom(stream: seq<byte>, g: Grant): (r: Reading)
    ensures r.Got? ==> r.message.Framed() && stream == Serialized(r.message) + r.rest
    ensures r.Got? ==> |r.rest| < |stream|
  {
    var h := Chunk(HEADER_LENGTH, g.header, stream);
    if h < HEADER_LENGTH then Short(stream[h..])
    else
      var length, protocol := WordAt(stream, 0), WordAt(stream, 4);
      var rest := stream[8..];
      HeaderInverse(stream);
      if length == 0 then Got(Message(0, protocol, []), rest)
      else
        var b := Chunk(length, g.body, rest);
        if b < length then Short(rest[b..])
        else Got(Message(length, protocol, rest[..length]), rest[length..])
  }

  lemma HeaderInverse(stream: seq<byte>)
    requires |stream| >= 8
    ensures WordBytes(WordAt(stream, 0)) + WordBytes(WordAt(stream, 4)) == stream[..8]
  {
    BytesRoundTrip(stream, 0);
    BytesRoundTrip(stream, 4);
  }

  lemma SameWord(s: seq<byte>, t: seq<byte>, at: nat)
    requires at + 4 <= |s| && at + 4 <= |t| && s[..at + 4] == t[..at + 4]
    ensures WordAt(s, at) == WordAt(t, at)
  {
    assert s[at..at + 4] == s[..at + 4][at..] == t[..at + 4][at..] == t[at..at + 4];
  }

  lemma HeaderOf(m: Message, rest: seq<byte>)
    ensures WordAt(Serialized(m) + rest, 0) == m.length && WordAt(Serialized(m) + rest, 4) == m.protocol
  {
    hide WordAt, WordBytes;
    var stream := Serialized(m) + rest;
    var tail := m.body + rest;
    assert stream == [] + WordBytes(m.length) + (WordBytes(m.protocol) + tail);
    WordInside([], m.length, WordBytes(m.protocol) + tail);
    assert stream == WordBytes(m.length) + WordBytes(m.protocol) + tail;
    WordInside(WordBytes(m.length), m.protocol, tail);
  }

  /** A read at a message boundary returns that message or nothing. */
  lemma ReadOne(m: Message, rest: seq<byte>, g: Grant)
    requires m.Framed()
    ensures var r := ReadFrom(Serialized(m) + rest, g);
            r.Short? || r == Got(m, rest)
    ensures g.header >= HEADER_LENGTH && g.body >= m.length ==> ReadFrom(Serialized(m) + rest, g) == Got(m, rest)
  {
    var stream := Serialized(m) + rest;
    HeaderOf(m, rest);
    assert stream[8..] == m.body + rest;
  }

  /** Both receives return all that was asked for. */
  predicate Suffices(g: Grant, m: Message) {
    g.header >= HEADER_LENGTH && g.body >= m.length
  }

  /** A read succeeds exactly when the whole message has arrived and neither receive falls short; it takes
      that message and no byte more. */
  lemma ReadSucceedsExactly(m: Message, rest: seq<byte>, stream: seq<byte>, g: Grant)
    requires m.Framed() && stream <= Serialized(m) + rest
    ensures ReadFrom(stream, g).Got? <==> Suffices(g, m) && |Serialized(m)| <= |stream|
    ensures ReadFrom(stream, g).Got? ==> ReadFrom(stream, g) == Got(m, stream[|Serialized(m)|..])
  {
    hide WordAt, WordBytes;
    var all := Serialized(m) + rest;
    if |stream| >= HEADER_LENGTH {
      HeaderOf(m, rest);
      SameWord(stream, all, 0);
      SameWord(stream, all, 4);
      if |Serialized(m)| <= |stream| {
        assert stream[..|Serialized(m)|] == all[..|Serialized(m)|] == Serialized(m);
        assert stream[8..][..m.length] == m.body;
        assert stream[8..][m.length..] == stream[|Serialized(m)|..];
      }
    }
  }

  /** The read loop of `runClient`: it stops at the first error. */
  function ReadAll(stream: seq<byte>, grants: nat -> Grant, i: nat): seq<Message>
    decreases |stream|
  {
    var r := ReadFrom(stream, grants(i));
    if r.Short? then [] else [r.message] + ReadAll(r.rest, grants, i + 1)
  }

  /** The messages still to be read after the first one. */
  lemma ReadAllNext(stream: seq<byte>, grants: nat -> Grant, i: nat)
    ensures var r := ReadFrom(stream, grants(i));
            ReadAll(stream, grants, i) == if r.Short? then [] else [r.message] + ReadAll(r.rest, grants, i + 1)
  {
  }

  ghost predicate AllFramed(ms: seq<Message>) {
    forall i | 0 <= i < |ms| :: ms[i].Framed()
  }

  /** Reading from a stream cut off anywhere, with the reads cut short anywhere, never yields a message
      that was not written: what is forwarded is a prefix of what was sent. */
  lemma {:induction false} ShortReadsNeverMisframe(ms: seq<Message>, stream: seq<byte>, grants: nat -> Grant, i: nat)
    requires AllFramed(ms)
    requires stream <= SerializedAll(ms)
    ensures ReadAll(stream, grants, i) <= ms
    decreases |ms|
  {
    hide WordAt, WordBytes;
    var r := ReadFrom(stream, grants(i));
    if r.Got? {
      assert ms != [];
      var m, tail := ms[0], SerializedAll(ms[1..]);
      var all := SerializedAll(ms);
      assert all == Serialized(m) + tail;
      HeaderOf(m, tail);
      HeaderOf(r.message, r.rest);
      assert stream[..8] == all[..8];
      SameWord(stream, all, 0);
      SameWord(stream, all, 4);
      assert |Serialized(m)| <= |stream|;
      assert stream[..|Serialized(m)|] == all[..|Serialized(m)|] == Serialized(m);
      assert r.message.body == stream[8..|Serialized(m)|] == m.body;
      assert r.message == m;
      assert r.rest == stream[|Serialized(m)|..] && tail == all[|Serialized(m)|..];
      ShortReadsNeverMisframe(ms[1..], r.rest, grants, i + 1);
    }
  }

  /** With reads that return what was asked and the whole stream there, everything arrives. */
  lemma {:induction false} FullReadsDeliverAll(ms: seq<Message>, grants: nat -> Grant, i: nat)
    requires AllFramed(ms)
    requires forall k :: grants(k) == Grant(HEADER_LENGTH, U32_LIMIT)
    ensures ReadAll(SerializedAll(ms), grants, i) == ms
    decreases |ms|
  {
    if ms == [] {
      assert ReadFrom([], grants(i)).Short?;
    } else {
      ReadOne(ms[0], SerializedAll(ms[1..]), grants(i));
      FullReadsDeliverAll(ms[1..], grants, i + 1);
    }
  }

  /** The loop read n messages of ms: the n whose reads came back whole, and no more. */
  ghost predicate StopsAt(ms: seq<Message>, size: nat, grants: nat -> Grant, i: nat, n: nat) {
    && n <= |ms| && |SerializedAll(ms[..n])| <= size
    && (forall j | 0 <= j < n :: Suffices(grants(i + j), ms[j]))
    && (n < |ms| ==> !Suffices(grants(i + n), ms[n]) || size < |SerializedAll(ms[..n + 1])|)
  }

  lemma StopsLater(ms: seq<Message>, size: nat, grants: nat -> Grant, i: nat, n: nat)
    requires ms != [] && Suffices(grants(i), ms[0]) && |Serialized(ms[0])| <= size
    requires StopsAt(ms[1..], size - |Serialized(ms[0])|, grants, i + 1, n)
    ensures StopsAt(ms, size, grants, i, n + 1)
  {
    hide SerializedAll, Serialized, Suffices;
    OneAhead(ms, n);
    forall j | 0 <= j < n + 1 ensures Suffices(grants(i + j), ms[j]) {
      if j > 0 {
        assert ms[j] == ms[1..][j - 1] && Suffices(grants(i + 1 + (j - 1)), ms[1..][j - 1]);
      }
    }
    if n + 1 < |ms| {
      OneAhead(ms, n + 1);
      assert ms[n + 1] == ms[1..][n];
    }
  }

  lemma StopsHere(ms: seq<Message>, size: nat, grants: nat -> Grant, i: nat)
    requires ms != [] ==> !Suffices(grants(i), ms[0]) || size < |Serialized(ms[0])|
    ensures StopsAt(ms, size, grants, i, 0)
  {
    hide Serialized;
    if ms != [] {
      OneAhead(ms, 0);
      assert ms[1..][..0] == [];
    }
  }

  /** The read loop stops behind the last message whose own read and all reads before it came back whole. */
  lemma {:induction false} LoopStopsAtFirstShortRead(ms: seq<Message>, stream: seq<byte>, grants: nat -> Grant, i: nat)
    requires AllFramed(ms) && stream <= SerializedAll(ms)
    ensures ReadAll(stream, grants, i) <= ms
    ensures StopsAt(ms, |stream|, grants, i, |ReadAll(stream, grants, i)|)
    decreases |ms|
  {
    hide Serialized, SerializedAll, ReadFrom, ReadAll, Suffices, StopsAt;
    ReadAllNext(stream, grants, i);
    if ms == [] {
      NothingSerialized();
      NothingToRead(grants(i));
      StopsHere(ms, |stream|, grants, i);
    } else {
      var tail := SerializedAll(ms[1..]);
      FirstSerialized(ms);
      ReadSucceedsExactly(ms[0], tail, stream, grants(i));
      if ReadFrom(stream, grants(i)).Got? {
        var rest := stream[|Serialized(ms[0])|..];
        assert tail == SerializedAll(ms)[|Serialized(ms[0])|..];
        LoopStopsAtFirstShortRead(ms[1..], rest, grants, i + 1);
        StopsLater(ms, |stream|, grants, i, |ReadAll(rest, grants, i + 1)|);
      } else {
        StopsHere(ms, |stream|, grants, i);
      }
    }
  }

  lemma NothingSerialized()
    ensures SerializedAll([]) == []
  {
  }

  lemma FirstSerialized(ms: seq<Message>)
    requires ms != []
    ensures SerializedAll(ms) == Serialized(ms[0]) + SerializedAll(ms[1..])
  {
  }

  lemma NothingToRead(g: Grant)
    ensures ReadFrom([], g).Short?
  {
  }

  lemma OneAhead(ms: seq<Message>, n: nat)
    requires n < |ms|
    ensures SerializedAll(ms[..n + 1]) == Serialized(ms[0]) + SerializedAll(ms[1..][..n])
  {
    assert ms[..n + 1][1..] == ms[1..][..n];
  }

  // ---- The calls ----

  /** What `writeMessage` puts on the stream: it overwrites header.length with the body's size. */
  function Transmitted(m: Message): seq<byte> {
    var n := Truncate(|m.body|);
    Serialized(Message(n, m.protocol, m.body[..n]))
  }

  /** Whatever header.length said before, a reader gets the body as far as its size fits in 32 bits. */
  lemma WrittenThenRead(m: Message, rest: seq<byte>, g: Grant)
    ensures var n := |m.body| % 0x1_0000_0000;
            && (ReadFrom(Transmitted(m) + rest, g).Got? <==> g.header >= 8 && g.body >= n)
            && (ReadFrom(Transmitted(m) + rest, g).Got? ==>
                  ReadFrom(Transmitted(m) + rest, g) == Got(Message(n, m.protocol, m.body[..n]), rest))
  {
    hide Serialized, ReadFrom;
    var n := |m.body| % 0x1_0000_0000;
    var w := Message(n, m.protocol, m.body[..n]);
    ReadSucceedsExactly(w, rest, Transmitted(m) + rest, g);
  }

  /** A connected descriptor: `sent` is everything written so far, `incoming` what is still to be read. */
  class Socket {
    var incoming: seq<byte>
    var sent: seq<byte>
    var closed: bool

    constructor (arriving: seq<byte>)
      ensures incoming == arriving && sent == [] && !closed
    {
      incoming, sent, closed := arriving, [], false;
    }

    method CloseSocket()
      modifies this`closed
      ensures closed
    {
      closed := true;
    }

    method Recv(want: nat, grant: nat) returns (chunk: seq<byte>)
      modifies this`incoming
      ensures |chunk| == Chunk(want, grant, old(incoming))
      ensures old(incoming) == chunk + incoming
    {
      var n := Chunk(want, grant, incoming);
      chunk, incoming := incoming[..n], incoming[n..];
    }

    method Send(bytes: seq<byte>)
      modifies this`sent
      ensures sent == old(sent) + bytes
    {
      sent := sent + bytes;
    }

    /** `readMessage(fd)`. */
    method ReadMessage(g: Grant) returns (ok: bool, message: Message)
      modifies this`incoming
      ensures var r := ReadFrom(old(incoming), g);
              ok == r.Got? && incoming == r.rest && (ok ==> message == r.message)
    {
      message := Message(0, 0, []);
      ghost var stream := incoming;
      var header := Recv(HEADER_LENGTH, g.header);
      if |header| < HEADER_LENGTH {
        return false, message;
      }
      assert header == stream[..8];
      SameWord(header, stream, 0);
      SameWord(header, stream, 4);
      message := message.(length := WordAt(header, 0), protocol := WordAt(header, 4));
      if message.length > 0 {
        message := message.(body := Resized(message.body, message.length));
        var chunk := Recv(message.length, g.body);
        if |chunk| < message.length {
          return false, message;
        }
        message := message.(body := chunk);
      }
      return true, message;
    }

    /** `writeMessage(fd, message)`, with sends that complete. */
    method WriteMessage(message: MessageCell)
      modifies this`sent, message`length
      ensures sent == old(sent) + Transmitted(old(message.Value()))
    {
      hide WordAt, WordBytes;
      message.length := Truncate(|message.body|);
      Send(HeaderBytes(message.Value()));
      Send(message.body[..message.length]);
    }
  }
}
