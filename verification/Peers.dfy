/** One peer's channel tables as values: what each whole call of the channel manager and of its channels
    does to them (servercc/connectors/include/internal_channel_manager.h, internal_channel.h).

    Channels are numbered in the order they are made; the number stands for the identity of the channel
    object, so the log of a table is every channel ever made and a slot holds the number of its channel.
    A packet carries the number of the channel that wrote it. These numbers are history: no function
    below lets them decide what a peer does. */
module Peers {
  import opened Bytes
  import opened Messages
  import opened Frames
  import opened Framing

  datatype Packet = Packet(frame: Frame, origin: nat)

  /** The messages a run of packets puts on the stream. */
  function Encodings(packets: seq<Packet>): (ms: seq<Message>)
    ensures |ms| == |packets| && AllFramed(ms)
  {
    seq(|packets|, i requires 0 <= i < |packets| => Encode(packets[i].frame))
  }

  datatype Parcel = Parcel(origin: nat, message: Payload)

  /** What one channel has written and what was pushed into its message buffer. */
  datatype ChannelLog = ChannelLog(id: u32, written: seq<Payload>, taken: seq<Parcel>)

  function Payloads(taken: seq<Parcel>): seq<Payload> {
    seq(|taken|, i requires 0 <= i < |taken| => taken[i].message)
  }

  datatype Table = Table(slots: map<u32, nat>, log: seq<ChannelLog>) {
    /** Channel k is the one registered in the slot of its id: it is open. */
    predicate Live(k: nat) {
      k < |log| && log[k].id in slots && slots[log[k].id] == k
    }

    function Opened(id: u32): Table {
      Table(slots[id := |log|], log + [ChannelLog(id, [], [])])
    }

    function Unlinked(id: u32): Table {
      this.(slots := slots - {id})
    }

    function Wrote(k: nat, m: Payload): Table
      requires k < |log|
    {
      this.(log := log[k := log[k].(written := log[k].written + [m])])
    }

    function Took(k: nat, p: Parcel): Table
      requires k < |log|
    {
      this.(log := log[k := log[k].(taken := log[k].taken + [p])])
    }

    /** Slots hold channels made for that very id. */
    ghost predicate Sound() {
      forall id | id in slots :: slots[id] < |log| && log[slots[id]].id == id
    }
  }

  /** `freeList` (top last) and `requestChannel`. */
  datatype Requester = Requester(free: seq<u32>, table: Table)

  /** The state after a call, and the packets the call wrote. */
  datatype Effect<+T> = Effect(after: T, sent: seq<Packet>)

  // ---- The requesting half ----

  /** `createRequestChannel`; with no free id the call blocks, so nothing happens. */
  function Create(r: Requester): Requester {
    if r.free == [] then r
    else
      var top := |r.free| - 1;
      Requester(r.free[..top], r.table.Opened(r.free[top]))
  }

  /** `write` on request channel s. */
  function RequestWrite(r: Requester, s: nat, m: Payload): Effect<Requester> {
    if r.table.Live(s) then
      Effect(r.(table := r.table.Wrote(s, m)), [Packet(Request(r.table.log[s].id, m), s)])
    else Effect(r, [])
  }

  /** `close` on request channel s, or its removal by the manager. */
  function RequestClose(r: Requester, s: nat): Effect<Requester> {
    if r.table.Live(s) then
      var id := r.table.log[s].id;
      Effect(Requester(r.free + [id], r.table.Unlinked(id)), [Packet(RequestEnd(id), s)])
    else Effect(r, [])
  }

  /** `forwardMessage` on a Response or ResponseEnd. */
  function TakeReply(r: Requester, p: Packet): Effect<Requester>
    requires !p.frame.FromOpener()
    requires r.table.Sound()
  {
    if p.frame.id !in r.table.slots then Effect(r, [])
    else
      var s := r.table.slots[p.frame.id];
      match p.frame
      case Response(id, m) => Effect(r.(table := r.table.Took(s, Parcel(p.origin, m))), [])
      case ResponseEnd(id) => RequestClose(r, s)
  }

  // ---- The responding half ----

  function ResponseWrite(t: Table, k: nat, m: Payload): Effect<Table> {
    if t.Live(k) then Effect(t.Wrote(k, m), [Packet(Response(t.log[k].id, m), k)])
    else Effect(t, [])
  }

  function ResponseClose(t: Table, k: nat): Effect<Table> {
    if t.Live(k) then Effect(t.Unlinked(t.log[k].id), [Packet(ResponseEnd(t.log[k].id), k)])
    else Effect(t, [])
  }

  /** `forwardMessage` on a Request or RequestEnd: the channel is made on the first Request. */
  function TakeRequest(t: Table, p: Packet): Effect<Table>
    requires p.frame.FromOpener()
    requires t.Sound()
  {
    match p.frame
    case Request(id, m) =>
      var t' := if id in t.slots then t else t.Opened(id);
      Effect(t'.Took(t'.slots[id], Parcel(p.origin, m)), [])
    case RequestEnd(id) =>
      if id in t.slots then ResponseClose(t, t.slots[id]) else Effect(t, [])
  }

  // ---- A whole peer: it opens channels and answers those of the other ----

  datatype Peer = Peer(requester: Requester, responder: Table) {
    ghost predicate Sound() {
      requester.table.Sound() && responder.Sound()
    }
  }

  /** `forwardMessage`. */
  function Forward(p: Peer, packet: Packet): Effect<Peer>
    requires p.Sound()
  {
    if packet.frame.FromOpener() then
      var e := TakeRequest(p.responder, packet);
      Effect(p.(responder := e.after), e.sent)
    else
      var e := TakeReply(p.requester, packet);
      Effect(p.(requester := e.after), e.sent)
  }

  /** `forwardMessage` on a message off the stream: what it cannot parse changes nothing. */
  function Route(p: Peer, m: Message, origin: nat): Effect<Peer>
    requires p.Sound() && m.Framed()
  {
    match Parse(m)
    case Known(f) => Forward(p, Packet(f, origin))
    case _ => Effect(p, [])
  }

  /** The calls a user of the channels makes. */
  datatype Call =
    | CallCreate
    | CallRequestWrite(s: nat, m: Payload)
    | CallRequestClose(s: nat)
    | CallResponseWrite(k: nat, m: Payload)
    | CallResponseClose(k: nat)

  function Perform(p: Peer, c: Call): Effect<Peer> {
    match c
    case CallCreate => Effect(p.(requester := Create(p.requester)), [])
    case CallRequestWrite(s, m) =>
      var e := RequestWrite(p.requester, s, m);
      Effect(p.(requester := e.after), e.sent)
    case CallRequestClose(s) =>
      var e := RequestClose(p.requester, s);
      Effect(p.(requester := e.after), e.sent)
    case CallResponseWrite(k, m) =>
      var e := ResponseWrite(p.responder, k, m);
      Effect(p.(responder := e.after), e.sent)
    case CallResponseClose(k) =>
      var e := ResponseClose(p.responder, k);
      Effect(p.(responder := e.after), e.sent)
  }

  /** The constructor of the manager pushes 0, 1, .. in turn, so the last id is on top. */
  function InitialFree(max: nat): seq<u32>
    requires max < U32_LIMIT
  {
    seq(max, i requires 0 <= i < max => i)
  }

  function InitialPeer(max: nat): (p: Peer)
    requires max < U32_LIMIT
    ensures p.Sound()
  {
    Peer(Requester(InitialFree(max), Table(map[], [])), Table(map[], []))
  }

  /** n creates in a row. */
  function Creates(r: Requester, n: nat): Requester
    decreases n
  {
    if n == 0 then r else Create(Creates(r, n - 1))
  }

  /** The first ids of a new manager count down from the top of the range. */
  lemma {:induction false} FirstIdsCountDown(max: nat, n: nat)
    requires n <= max < U32_LIMIT
    ensures var r := Creates(InitialPeer(max).requester, n);
            && |r.free| == max - n && (forall i | 0 <= i < max - n :: r.free[i] == i)
            && |r.table.log| == n && (forall i | 0 <= i < n :: r.table.log[i].id == max - 1 - i && r.table.Live(i))
    decreases n
  {
    if n > 0 {
      FirstIdsCountDown(max, n - 1);
    }
  }

  // ---- On the wire ----

  function Word(n: u32): seq<byte> {
    [n % 0x100, n / 0x100 % 0x100, n / 0x1_0000 % 0x100, n / 0x100_0000]
  }

  /** The bytes of the four frames: the payload, then its header, then the id; an End is only the id. */
  lemma BytesOfFrames(id: u32, m: Payload)
    ensures Serialized(Encode(Request(id, m)))
         == Word(m.length + 12) + [0x10, 0, 0, 0] + m.body + Word(m.length) + Word(m.protocol) + Word(id)
    ensures Serialized(Encode(Response(id, m)))
         == Word(m.length + 12) + [0x13, 0, 0, 0] + m.body + Word(m.length) + Word(m.protocol) + Word(id)
    ensures Serialized(Encode(RequestEnd(id))) == [4, 0, 0, 0] + [0x11, 0, 0, 0] + Word(id)
    ensures Serialized(Encode(ResponseEnd(id))) == [4, 0, 0, 0] + [0x14, 0, 0, 0] + Word(id)
  {
    hide WordBytes;
    forall n: u32 ensures WordBytes(n) == Word(n) {
      LeastSignificantFirst(n);
    }
    assert Word(4) == [4, 0, 0, 0];
    assert Word(0x10) == [0x10, 0, 0, 0] && Word(0x11) == [0x11, 0, 0, 0];
    assert Word(0x13) == [0x13, 0, 0, 0] && Word(0x14) == [0x14, 0, 0, 0];
  }

  lemma ForwardSound(p: Peer, packet: Packet)
    requires p.Sound()
    ensures Forward(p, packet).after.Sound()
  {
  }

  lemma PerformSound(p: Peer, c: Call)
    requires p.Sound()
    ensures Perform(p, c).after.Sound()
  {
  }
}
