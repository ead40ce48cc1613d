/** The channel manager and its channels as the objects they are: closing a channel calls back into the
    manager, whose removal of a channel closes it
    (servercc/connectors/include/internal_channel.h, internal_channel_manager.h, internal_request.h). */
module Channels {
  import opened Bytes
  import opened Messages
  import opened Frames
  import opened Framing
  import opened Peers
  import opened Invariant

  /** The two instantiations of the channel template: protocols, and which removal the callback runs. */
  datatype Role = Requesting | Responding

  function DataProtocol(role: Role): u32 {
    if role == Requesting then REQUEST else RESPONSE
  }

  function EndProtocol(role: Role): u32 {
    if role == Requesting then REQUEST_END else RESPONSE_END
  }

  function DataFrame(role: Role, id: u32, m: Payload): Frame {
    if role == Requesting then Request(id, m) else Response(id, m)
  }

  function EndFrame(role: Role, id: u32): Frame {
    if role == Requesting then RequestEnd(id) else ResponseEnd(id)
  }

  function TableOf(p: Peer, role: Role): Table {
    if role == Requesting then p.requester.table else p.responder
  }

  function WithTable(p: Peer, role: Role, t: Table): Peer {
    if role == Requesting then p.(requester := p.requester.(table := t)) else p.(responder := t)
  }

  /** `close` on channel k. */
  function EndChannel(p: Peer, role: Role, k: nat): Effect<Peer> {
    Perform(p, if role == Requesting then CallRequestClose(k) else CallResponseClose(k))
  }

  /** `write` on channel k. */
  function WriteChannel(p: Peer, role: Role, k: nat, m: Payload): Effect<Peer> {
    Perform(p, if role == Requesting then CallRequestWrite(k, m) else CallResponseWrite(k, m))
  }

  /** How far a close in progress has got, for the one slot it is about. `Unlinked`: the manager has emptied
      the slot, the channel is not closed yet. `Ended`: the End frame is sent and the channel closed, but the
      slot may still hold it and its id is not back on the free list. */
  datatype Lag =
    | Settled
    | Unlinked(role: Role, id: u32)
    | Ended(role: Role, id: u32, linked: bool)

  predicate Concerns(lag: Lag, role: Role, id: u32) {
    !lag.Settled? && lag.role == role && lag.id == id
  }

  // ---- Several owners of one channel ----

  /** n owners close the same channel, one after the other. */
  function CloseByEach(p: Peer, role: Role, k: nat, n: nat): Effect<Peer>
    decreases n
  {
    if n == 0 then Effect(p, [])
    else
      var before := CloseByEach(p, role, k, n - 1);
      var last := EndChannel(before.after, role, k);
      Effect(last.after, before.sent + last.sent)
  }

  /** However many owners there are, together they do what one close does: one End frame, one id freed. */
  lemma {:induction false} ManyOwnersCloseOnce(p: Peer, role: Role, k: nat, n: nat)
    requires n > 0
    ensures CloseByEach(p, role, k, n) == EndChannel(p, role, k)
    decreases n
  {
    var once := EndChannel(p, role, k);
    if n == 1 {
      assert CloseByEach(p, role, k, 0) == Effect(p, []);
      assert [] + once.sent == once.sent;
    } else {
      ManyOwnersCloseOnce(p, role, k, n - 1);
      assert EndChannel(once.after, role, k) == Effect(once.after, []);
      assert once.sent + [] == once.sent;
    }
  }

  // ---- Frames on the stream ----

  lemma OneOnStream(p: Packet)
    ensures SerializedAll(Encodings([p])) == Serialized(Encode(p.frame))
  {
    var ms := Encodings([p]);
    assert ms == [Encode(p.frame)] && ms[1..] == [];
    assert Serialized(ms[0]) + [] == Serialized(ms[0]);
  }

  /** The close message is the End packet on the stream. */
  lemma EndOnStream(role: Role, id: u32, k: nat)
    ensures Transmitted(Message(4, EndProtocol(role), WordBytes(id))) == SerializedAll(Encodings([Packet(EndFrame(role, id), k)]))
  {
    OneOnStream(Packet(EndFrame(role, id), k));
  }

  /** The wrapped message is the data packet on the stream. */
  lemma DataOnStream(role: Role, id: u32, m: Message, k: nat)
    requires m.length <= MAX_PAYLOAD
    ensures Transmitted(Wrapped(id, DataProtocol(role), m)) == SerializedAll(Encodings([Packet(DataFrame(role, id, Normal(m)), k)]))
  {
    var w := Wrapped(id, DataProtocol(role), m);
    assert w == Encode(DataFrame(role, id, Normal(m)));
    assert w.length == |w.body| == Truncate(|w.body|);
    assert w.body[..|w.body|] == w.body;
    OneOnStream(Packet(DataFrame(role, id, Normal(m)), k));
  }

  /** What goes out for a message just too long to wrap: the length that fits is 0 to 3. */
  function Oversize(role: Role, m: Message): Message
    requires MAX_PAYLOAD < m.length && m.length + HEADER_LENGTH < U32_LIMIT
  {
    var n := m.length + TRAILER_LENGTH - U32_LIMIT;
    Message(n, DataProtocol(role), Resized(m.body, m.length)[..n])
  }

  lemma OversizeOnStream(role: Role, id: u32, m: Message)
    requires MAX_PAYLOAD < m.length && m.length + HEADER_LENGTH < U32_LIMIT
    ensures Transmitted(Wrapped(id, DataProtocol(role), m)) == Serialized(Oversize(role, m))
  {
    hide Serialized;
    var w := Wrapped(id, DataProtocol(role), m);
    var n := m.length + TRAILER_LENGTH - U32_LIMIT;
    assert |w.body| == m.length + TRAILER_LENGTH && Truncate(|w.body|) == n;
    assert w.body[..n] == Resized(m.body, m.length)[..n];
  }

  /** The far end reads it as a message of its own and reports a bad length; its peer is unchanged. */
  lemma OversizeIsRejected(role: Role, m: Message, p: Peer, origin: nat)
    requires MAX_PAYLOAD < m.length && m.length + HEADER_LENGTH < U32_LIMIT && p.Sound()
    ensures Oversize(role, m).Framed() && Parse(Oversize(role, m)) == BadLength
    ensures Route(p, Oversize(role, m), origin) == Effect(p, [])
  {
  }

  // ---- How a call changes the value model ----

  lemma EndingIs(p: Peer, role: Role, k: nat)
    requires p.Sound() && TableOf(p, role).Live(k)
    ensures var e := EndChannel(p, role, k);
            var id := TableOf(p, role).log[k].id;
            && e.sent == [Packet(EndFrame(role, id), k)] && e.after.Sound()
            && TableOf(e.after, role) == TableOf(p, role).Unlinked(id)
            && TableOf(e.after, Other(role)) == TableOf(p, Other(role))
            && e.after.requester.free == p.requester.free + if role == Requesting then [id] else []
  {
  }

  lemma WritingIs(p: Peer, role: Role, k: nat, m: Payload)
    requires p.Sound() && TableOf(p, role).Live(k)
    ensures var e := WriteChannel(p, role, k, m);
            && e.sent == [Packet(DataFrame(role, TableOf(p, role).log[k].id, m), k)]
            && e.after == WithTable(p, role, TableOf(p, role).Wrote(k, m)) && e.after.Sound()
  {
  }

  function Other(role: Role): Role {
    if role == Requesting then Responding else Requesting
  }

  // ---- The objects against the value model ----

  /** The part of a channel object that changes. */
  datatype View = View(isClosed: bool, bufferClosed: bool, buffer: seq<Payload>)

  /** One role: every channel ever made, how each stands, and the slots. */
  datatype Half = Half(made: seq<InternalChannel>, views: seq<View>, slots: seq<InternalChannel?>)

  /** The real fields of a manager and its channels at one moment. */
  datatype Picture = Picture(requesting: Half, responding: Half, freeList: seq<u32>, permits: nat) {
    function Of(role: Role): Half {
      if role == Requesting then requesting else responding
    }

    function With(role: Role, h: Half): Picture {
      if role == Requesting then this.(requesting := h) else this.(responding := h)
    }
  }

  /** A handle is open exactly when its channel is live in the model, that is, registered under its id. */
  ghost predicate ChannelsTied(m: ChannelManager, role: Role, t: Table, h: Half) {
    && |h.made| == |t.log| == |h.views|
    && forall k | 0 <= k < |h.made| ::
         && h.made[k].serial == k && h.made[k].role == role && h.made[k].manager == m
         && h.made[k].id == t.log[k].id < m.max
         && h.views[k] == View(!t.Live(k), !t.Live(k), Payloads(t.log[k].taken))
  }

  ghost predicate SlotTied(role: Role, t: Table, h: Half, id: u32, lag: Lag)
    requires id < |h.slots|
  {
    var slot := h.slots[id];
    if Concerns(lag, role, id) then
      if lag.Unlinked? then slot == null && id in t.slots
      else id !in t.slots && (if lag.linked then slot != null && slot in h.made && slot.id == id else slot == null)
    else if id in t.slots then t.slots[id] < |h.made| && slot == h.made[t.slots[id]]
    else slot == null
  }

  ghost predicate SlotsTied(m: ChannelManager, role: Role, t: Table, h: Half, lag: Lag) {
    && |h.slots| == m.max
    && (forall id: u32 | id < m.max :: SlotTied(role, t, h, id, lag))
    && (forall id | id in t.slots :: id < m.max)
  }

  ghost predicate FreeTied(free: seq<u32>, x: Picture, lag: Lag) {
    && free == x.freeList + (if lag.Ended? && lag.role == Requesting then [lag.id] else [])
    && x.permits == |x.freeList|
  }

  /** The real fields show the model, except where a close in progress lags behind. */
  ghost predicate Agrees(m: ChannelManager, p: Peer, x: Picture, lag: Lag) {
    && p.Sound()
    && ChannelsTied(m, Requesting, p.requester.table, x.requesting)
    && ChannelsTied(m, Responding, p.responder, x.responding)
    && SlotsTied(m, Requesting, p.requester.table, x.requesting, lag)
    && SlotsTied(m, Responding, p.responder, x.responding, lag)
    && IdsPartitioned(m.max, p.requester)
    && FreeTied(p.requester.free, x, lag)
  }

  /** What agreement says of one channel. */
  lemma AboutChannel(m: ChannelManager, p: Peer, x: Picture, lag: Lag, role: Role, k: nat)
    requires Agrees(m, p, x, lag) && k < |x.Of(role).made|
    ensures var t, h := TableOf(p, role), x.Of(role);
            && k < |t.log| && |h.views| == |h.made| && h.made[k].manager == m && h.made[k].id == t.log[k].id < m.max
            && h.views[k] == View(!t.Live(k), !t.Live(k), Payloads(t.log[k].taken))
            && h.made[k] !in x.Of(Other(role)).made
            && (forall j | 0 <= j < |h.made| && j != k :: h.made[j] != h.made[k])
  {
    hide SlotsTied, IdsPartitioned, FreeTied;
  }

  /** An open channel is in its slot, unless its removal has just emptied it. */
  lemma AboutOpen(m: ChannelManager, p: Peer, x: Picture, lag: Lag, role: Role, k: nat)
    requires Agrees(m, p, x, lag) && TableOf(p, role).Live(k)
    ensures var id := TableOf(p, role).log[k].id;
            && id < m.max == |x.Of(role).slots| && k < |x.Of(role).made|
            && (lag == Settled ==> x.Of(role).slots[id] == x.Of(role).made[k])
            && (lag == Unlinked(role, id) ==> x.Of(role).slots[id] == null)
  {
    hide IdsPartitioned, FreeTied;
    assert SlotTied(role, TableOf(p, role), x.Of(role), TableOf(p, role).log[k].id, lag);
  }

  /** What a slot that is not empty holds. */
  lemma AboutSlot(m: ChannelManager, p: Peer, x: Picture, lag: Lag, role: Role, id: u32)
    requires Agrees(m, p, x, lag) && id < m.max && |x.Of(role).slots| == m.max && x.Of(role).slots[id] != null
    ensures var c := x.Of(role).slots[id];
            && c.id == id && c.role == role && c.manager == m
            && c.serial < |x.Of(role).made| && x.Of(role).made[c.serial] == c
            && (TableOf(p, role).Live(c.serial) <==> !Concerns(lag, role, id))
            && (lag == Settled ==> id in TableOf(p, role).slots && TableOf(p, role).slots[id] == c.serial)
  {
    hide IdsPartitioned, FreeTied;
    assert SlotTied(role, TableOf(p, role), x.Of(role), id, lag);
  }

  /** The End frame of a channel goes out before its slot is emptied, or after. */
  lemma EndSlots(m: ChannelManager, role: Role, t: Table, h: Half, lag: Lag, k: nat, views: seq<View>)
    requires t.Sound() && t.Live(k) && k < |h.made| && h.made[k].id == t.log[k].id
    requires SlotsTied(m, role, t, h, lag) && (lag == Settled || lag == Unlinked(role, t.log[k].id))
    ensures SlotsTied(m, role, t.Unlinked(t.log[k].id), h.(views := views), Ended(role, t.log[k].id, lag == Settled))
  {
    var next := Ended(role, t.log[k].id, lag == Settled);
    var t', h' := t.Unlinked(t.log[k].id), h.(views := views);
    forall id: u32 | id < m.max ensures SlotTied(role, t', h', id, next) {
      assert SlotTied(role, t, h, id, lag);
    }
  }

  lemma EndChannels(m: ChannelManager, role: Role, t: Table, h: Half, k: nat)
    requires t.Sound() && t.Live(k) && ChannelsTied(m, role, t, h)
    ensures ChannelsTied(m, role, t.Unlinked(t.log[k].id), h.(views := h.views[k := View(true, true, h.views[k].buffer)]))
  {
  }

  /** The other table does not notice a close in progress. */
  lemma SlotsElsewhere(m: ChannelManager, role: Role, t: Table, h: Half, lag: Lag, lag': Lag)
    requires SlotsTied(m, role, t, h, lag)
    requires (lag.Settled? || lag.role != role) && (lag'.Settled? || lag'.role != role)
    ensures SlotsTied(m, role, t, h, lag')
  {
    forall id: u32 | id < m.max ensures SlotTied(role, t, h, id, lag') {
      assert SlotTied(role, t, h, id, lag);
    }
  }

  lemma EndAgrees(m: ChannelManager, p: Peer, x: Picture, lag: Lag, role: Role, k: nat)
    requires Agrees(m, p, x, lag) && TableOf(p, role).Live(k)
    requires lag == Settled || lag == Unlinked(role, TableOf(p, role).log[k].id)
    ensures k < |x.Of(role).views|
    ensures var h := x.Of(role);
            Agrees(m, EndChannel(p, role, k).after, x.With(role, h.(views := h.views[k := View(true, true, h.views[k].buffer)])),
                   Ended(role, TableOf(p, role).log[k].id, lag == Settled))
  {
    hide ChannelsTied, SlotsTied, IdsPartitioned, EndChannel;
    var t, h, o := TableOf(p, role), x.Of(role), Other(role);
    AboutLengths(m, role, t, h);
    EndingIs(p, role, k);
    EndChannels(m, role, t, h, k);
    AboutIds(m, role, t, h, k);
    EndSlots(m, role, t, h, lag, k, h.views[k := View(true, true, h.views[k].buffer)]);
    SlotsElsewhere(m, o, TableOf(p, o), x.Of(o), lag, Ended(role, t.log[k].id, lag == Settled));
    EndingPartition(m.max, p, role, k);
  }

  lemma AboutLengths(m: ChannelManager, role: Role, t: Table, h: Half)
    requires ChannelsTied(m, role, t, h)
    ensures |h.made| == |t.log| == |h.views|
  {
  }

  lemma AboutIds(m: ChannelManager, role: Role, t: Table, h: Half, k: nat)
    requires ChannelsTied(m, role, t, h) && k < |h.made|
    ensures k < |t.log| && h.made[k].id == t.log[k].id
  {
  }

  /** Emptying a slot: an open channel is now unlinked, a closed one has nothing left to undo there. */
  lemma EmptyAgrees(m: ChannelManager, p: Peer, x: Picture, lag: Lag, role: Role, id: u32)
    requires Agrees(m, p, x, lag) && id < m.max == |x.Of(role).slots| && x.Of(role).slots[id] != null
    requires lag == Settled || (lag.Ended? && Concerns(lag, role, id))
    ensures var h := x.Of(role);
            Agrees(m, p, x.With(role, h.(slots := h.slots[id as int := null])),
                   if lag == Settled then Unlinked(role, id) else Ended(role, id, false))
  {
    hide IdsPartitioned;
    var t, h, o := TableOf(p, role), x.Of(role), Other(role);
    var lag' := if lag == Settled then Unlinked(role, id) else Ended(role, id, false);
    EmptySlots(m, role, t, h, lag, id);
    SlotsElsewhere(m, o, TableOf(p, o), x.Of(o), lag, lag');
  }

  lemma EmptySlots(m: ChannelManager, role: Role, t: Table, h: Half, lag: Lag, id: u32)
    requires SlotsTied(m, role, t, h, lag) && id < m.max && h.slots[id] != null
    requires lag == Settled || (lag.Ended? && Concerns(lag, role, id))
    ensures SlotsTied(m, role, t, h.(slots := h.slots[id as int := null]),
                      if lag == Settled then Unlinked(role, id) else Ended(role, id, false))
  {
    var lag' := if lag == Settled then Unlinked(role, id) else Ended(role, id, false);
    var h' := h.(slots := h.slots[id as int := null]);
    forall i: u32 | i < m.max ensures SlotTied(role, t, h', i, lag') {
      assert SlotTied(role, t, h, i, lag);
    }
  }

  /** Pushing the id of an ended request channel back settles the manager; a response channel has no id to
      push. */
  lemma SettleAgrees(m: ChannelManager, p: Peer, x: Picture, role: Role, id: u32)
    requires Agrees(m, p, x, Ended(role, id, false))
    ensures role == Requesting ==> Agrees(m, p, x.(freeList := x.freeList + [id], permits := x.permits + 1), Settled)
    ensures role == Responding ==> Agrees(m, p, x, Settled)
  {
    hide IdsPartitioned, ChannelsTied;
    var o := Other(role);
    SlotsElsewhere(m, o, TableOf(p, o), x.Of(o), Ended(role, id, false), Settled);
    SettleSlots(m, role, TableOf(p, role), x.Of(role), id);
  }

  lemma SettleSlots(m: ChannelManager, role: Role, t: Table, h: Half, id: u32)
    requires SlotsTied(m, role, t, h, Ended(role, id, false))
    ensures SlotsTied(m, role, t, h, Settled)
  {
    forall i: u32 | i < m.max ensures SlotTied(role, t, h, i, Settled) {
      assert SlotTied(role, t, h, i, Ended(role, id, false));
    }
  }

  /** Writes and pushes leave the slots alone. */
  lemma SlotsSame(m: ChannelManager, role: Role, t: Table, t': Table, h: Half, h': Half)
    requires SlotsTied(m, role, t, h, Settled) && t'.slots == t.slots && h'.slots == h.slots && h'.made == h.made
    ensures SlotsTied(m, role, t', h', Settled)
  {
    forall id: u32 | id < m.max ensures SlotTied(role, t', h', id, Settled) {
      assert SlotTied(role, t, h, id, Settled);
    }
  }

  lemma WroteChannels(m: ChannelManager, role: Role, t: Table, h: Half, k: nat, w: Payload)
    requires ChannelsTied(m, role, t, h) && k < |t.log|
    ensures ChannelsTied(m, role, t.Wrote(k, w), h)
  {
  }

  lemma WriteAgrees(m: ChannelManager, p: Peer, x: Picture, role: Role, k: nat, w: Payload)
    requires Agrees(m, p, x, Settled) && k < |TableOf(p, role).log|
    ensures Agrees(m, WithTable(p, role, TableOf(p, role).Wrote(k, w)), x, Settled)
  {
    hide ChannelsTied, SlotsTied, IdsPartitioned;
    var t, h := TableOf(p, role), x.Of(role);
    WroteChannels(m, role, t, h, k, w);
    SlotsSame(m, role, t, t.Wrote(k, w), h, h);
    SamePartition(m.max, p.requester, WithTable(p, role, t.Wrote(k, w)).requester);
  }

  lemma PushChannels(m: ChannelManager, role: Role, t: Table, h: Half, k: nat, parcel: Parcel)
    requires ChannelsTied(m, role, t, h) && k < |t.log|
    ensures ChannelsTied(m, role, t.Took(k, parcel),
                         h.(views := h.views[k := h.views[k].(buffer := h.views[k].buffer + [parcel.message])]))
  {
    assert Payloads(t.log[k].taken + [parcel]) == Payloads(t.log[k].taken) + [parcel.message];
    assert forall j | 0 <= j < |t.log| :: t.Took(k, parcel).Live(j) == t.Live(j);
  }

  lemma PushAgrees(m: ChannelManager, p: Peer, x: Picture, role: Role, k: nat, parcel: Parcel)
    requires Agrees(m, p, x, Settled) && k < |TableOf(p, role).log|
    ensures k < |x.Of(role).views|
    ensures var h := x.Of(role);
            Agrees(m, WithTable(p, role, TableOf(p, role).Took(k, parcel)),
                   x.With(role, h.(views := h.views[k := h.views[k].(buffer := h.views[k].buffer + [parcel.message])])), Settled)
  {
    hide SlotsTied, IdsPartitioned, ChannelsTied;
    var t, h := TableOf(p, role), x.Of(role);
    AboutLengths(m, role, t, h);
    PushChannels(m, role, t, h, k, parcel);
    SlotsSame(m, role, t, t.Took(k, parcel), h, h.(views := h.views[k := h.views[k].(buffer := h.views[k].buffer + [parcel.message])]));
    SamePartition(m.max, p.requester, WithTable(p, role, t.Took(k, parcel)).requester);
  }

  function Grown(h: Half, c: InternalChannel): Half
    requires c.id < |h.slots|
  {
    Half(h.made + [c], h.views + [View(false, false, [])], h.slots[c.id as int := c])
  }

  /** A new channel in an empty slot. */
  lemma OpenTied(m: ChannelManager, role: Role, t: Table, h: Half, c: InternalChannel)
    requires t.Sound() && ChannelsTied(m, role, t, h) && SlotsTied(m, role, t, h, Settled) && c.id !in t.slots
    requires c.serial == |h.made| && c.role == role && c.manager == m && c.id < m.max
    ensures ChannelsTied(m, role, t.Opened(c.id), Grown(h, c)) && SlotsTied(m, role, t.Opened(c.id), Grown(h, c), Settled)
    ensures t.Opened(c.id).Sound()
  {
    var t', h' := t.Opened(c.id), Grown(h, c);
    assert Payloads([]) == [];
    forall k | 0 <= k < |h.made| ensures t'.Live(k) == t.Live(k) && h'.made[k] == h.made[k] && t'.log[k] == t.log[k] {}
    forall id: u32 | id < m.max ensures SlotTied(role, t', h', id, Settled) {
      assert SlotTied(role, t, h, id, Settled);
    }
  }

  /** What the caller of `forwardMessage` owes: an End frame with an id in it, and ids inside the arrays. */
  predicate Within(incoming: Incoming, max: nat) {
    incoming != NoId && (incoming.Known? ==> incoming.frame.id < max)
  }

  /** `forwardMessage` reports an error for what it cannot parse and for a Response nobody waits for. */
  predicate Accepted(p: Peer, incoming: Incoming) {
    incoming.Known? && (incoming.frame.Response? ==> incoming.frame.id in p.requester.table.slots)
  }

  /** The protocol number it hands back: the outer one for an End, else the payload's; -1 if unreadable. */
  function ReportedProtocol(outer: u32, incoming: Incoming): u32 {
    match incoming
    case Known(Request(_, m)) => m.protocol
    case Known(Response(_, m)) => m.protocol
    case Known(_) => outer
    case BadProtocol(inner) => inner
    case _ => 0xFFFF_FFFF
  }

  /** A message that is no End is accepted exactly when routing it changes the peer; an End always is. */
  lemma AcceptedIffRouted(p: Peer, m: Message, origin: nat)
    requires p.Sound() && m.Framed() && Parse(m) != NoId
    ensures if IsEnd(m.protocol) then Accepted(p, Parse(m)) else Accepted(p, Parse(m)) <==> Route(p, m, origin).after != p
  {
    hide Parse, Forward;
    ParseClassifies(m);
    if Parse(m).Known? && !IsEnd(m.protocol) {
      DataChangesPeer(p, Packet(Parse(m).frame, origin));
    }
  }

  /** A data frame adds a parcel to the log of a channel, or there is no channel for it. */
  lemma DataChangesPeer(p: Peer, packet: Packet)
    requires p.Sound() && (packet.frame.Request? || packet.frame.Response?)
    ensures Forward(p, packet).after != p <==> packet.frame.Request? || packet.frame.id in p.requester.table.slots
  {
    var f := packet.frame;
    var e := Forward(p, packet).after;
    if f.Request? {
      var k := e.responder.slots[f.id];
      assert if k < |p.responder.log| then |e.responder.log[k].taken| == |p.responder.log[k].taken| + 1
             else |e.responder.log| > |p.responder.log|;
    } else if f.id in p.requester.table.slots {
      var s := p.requester.table.slots[f.id];
      assert |e.requester.table.log[s].taken| == |p.requester.table.log[s].taken| + 1;
    }
  }

  /** What is reported is the protocol of the payload: what was wrapped, whatever wrapped it. */
  lemma ReportsWhatWasWrapped(m: Message)
    requires m.Framed() && Parse(m) != NoId
    ensures IsEnd(m.protocol) ==> ReportedProtocol(m.protocol, Parse(m)) == m.protocol
    ensures forall id, inner | !IsEnd(m.protocol) && IsWrapping(m, id, inner) ::
              ReportedProtocol(m.protocol, Parse(m)) == inner.protocol
    ensures !IsEnd(m.protocol) && !(exists id, inner :: IsWrapping(m, id, inner)) ==>
              ReportedProtocol(m.protocol, Parse(m)) == 0xFFFF_FFFF
  {
    hide Parse, IsWrapping;
    ParseClassifies(m);
  }

  lemma ReportedOfFrame(f: Frame)
    ensures ReportedProtocol(Encode(f).protocol, Parse(Encode(f))) ==
              match f
              case Request(_, m) => m.protocol
              case Response(_, m) => m.protocol
              case RequestEnd(_) => 0x11
              case ResponseEnd(_) => 0x14
  {
    ParseEncode(f);
  }

  /** Parse, branch by branch. */
  lemma ParseCases(m: Message)
    requires m.Framed() && Parse(m) != NoId
    ensures m.protocol == RESPONSE_END ==> |m.body| >= 4 && Parse(m) == Known(ResponseEnd(WordAt(m.body, 0)))
    ensures m.protocol == REQUEST_END ==> |m.body| >= 4 && Parse(m) == Known(RequestEnd(WordAt(m.body, 0)))
    ensures m.protocol !in {RESPONSE_END, REQUEST_END} ==>
              if Unwrapped(m).None? then Parse(m) == BadLength
              else var (id, inner) := Unwrapped(m).value;
                   && inner.Framed() && inner.length <= MAX_PAYLOAD
                   && Parse(m) == if m.protocol == RESPONSE then Known(Response(id, inner))
                                  else if m.protocol == REQUEST then Known(Request(id, inner))
                                  else BadProtocol(inner.protocol)
  {
    if Unwrapped(m).Some? {
      UnwrapThenWrap(m);
    }
  }

  /** Routing an End frame closes the channel in the slot it names, if there is one. */
  lemma RoutingAnEnd(p: Peer, role: Role, id: u32, origin: nat)
    requires p.Sound()
    ensures Forward(p, Packet(EndFrame(Other(role), id), origin))
         == if id in TableOf(p, role).slots then EndChannel(p, role, TableOf(p, role).slots[id]) else Effect(p, [])
  {
  }

  /** What removing the channel in one slot does, if there is one. */
  function EndAt(p: Peer, role: Role, id: u32): Effect<Peer> {
    if id in TableOf(p, role).slots then EndChannel(p, role, TableOf(p, role).slots[id]) else Effect(p, [])
  }

  /** The destructor's loop over the first n ids. */
  function Destroyed(p: Peer, n: nat): Effect<Peer>
    requires n < U32_LIMIT
    decreases n
  {
    if n == 0 then Effect(p, [])
    else
      var before := Destroyed(p, n - 1);
      var e1 := EndAt(before.after, Responding, n - 1);
      var e2 := EndAt(e1.after, Requesting, n - 1);
      Effect(e2.after, before.sent + e1.sent + e2.sent)
  }

  lemma DestroyedNothing(p: Peer, sent: seq<byte>)
    ensures Destroyed(p, 0).after == p && sent + SerializedAll(Encodings(Destroyed(p, 0).sent)) == sent
  {
    NothingOnStream();
    assert sent + [] == sent;
  }

  lemma DestroyedOneMore(p: Peer, n: nat, sent: seq<byte>)
    requires n + 1 < U32_LIMIT
    ensures var before := Destroyed(p, n);
            var e1 := EndAt(before.after, Responding, n);
            var e2 := EndAt(e1.after, Requesting, n);
            && Destroyed(p, n + 1).after == e2.after
            && sent + SerializedAll(Encodings(Destroyed(p, n + 1).sent))
               == sent + SerializedAll(Encodings(before.sent)) + SerializedAll(Encodings(e1.sent)) + SerializedAll(Encodings(e2.sent))
  {
    hide SerializedAll, Encodings, EndAt;
    var before := Destroyed(p, n);
    var e1 := EndAt(before.after, Responding, n);
    OnStreamTogether(sent, before.sent, e1.sent);
    OnStreamTogether(sent, before.sent + e1.sent, EndAt(e1.after, Requesting, n).sent);
  }

  lemma {:induction false} DestroyedEmpties(p: Peer, n: nat)
    requires n < U32_LIMIT && p.Sound()
    ensures var q := Destroyed(p, n).after;
            && q.Sound()
            && (forall role: Role, id: u32 | id in TableOf(q, role).slots :: id >= n)
    decreases n
  {
    hide EndAt;
    if n > 0 {
      DestroyedEmpties(p, n - 1);
      var q := Destroyed(p, n - 1).after;
      EndAtEmpties(q, Responding, n - 1);
      EndAtEmpties(EndAt(q, Responding, n - 1).after, Requesting, n - 1);
    }
  }

  lemma EndAtEmpties(p: Peer, role: Role, id: u32)
    requires p.Sound()
    ensures var q := EndAt(p, role, id).after;
            && q.Sound() && id !in TableOf(q, role).slots
            && forall r: Role, i: u32 :: i in TableOf(q, r).slots ==> i in TableOf(p, r).slots
  {
    if id in TableOf(p, role).slots {
      EndingIs(p, role, TableOf(p, role).slots[id]);
      forall r: Role, i: u32 | i in TableOf(EndAt(p, role, id).after, r).slots ensures i in TableOf(p, r).slots {
        assert r == role || r == Other(role);
      }
    }
  }

  /** How many channels are registered. */
  function OpenCount(p: Peer): nat {
    |p.requester.table.slots| + |p.responder.slots|
  }

  lemma EndAtCounts(p: Peer, role: Role, id: u32)
    requires p.Sound()
    ensures |EndAt(p, role, id).sent| + OpenCount(EndAt(p, role, id).after) == OpenCount(p)
  {
    var t := TableOf(p, role);
    if id in t.slots {
      EndingIs(p, role, t.slots[id]);
      assert (t.slots - {id}).Keys == t.slots.Keys - {id};
      assert |t.slots| == |t.slots.Keys| && |t.slots - {id}| == |(t.slots - {id}).Keys|;
    }
  }

  /** The destructor sends one End frame for every channel it finds open. */
  lemma {:induction false} DestroyedSendsOneEndEach(p: Peer, n: nat)
    requires n < U32_LIMIT && p.Sound()
    ensures |Destroyed(p, n).sent| + OpenCount(Destroyed(p, n).after) == OpenCount(p)
    decreases n
  {
    hide EndAt, OpenCount;
    if n > 0 {
      DestroyedSendsOneEndEach(p, n - 1);
      DestroyedEmpties(p, n - 1);
      var q := Destroyed(p, n - 1).after;
      EndAtEmpties(q, Responding, n - 1);
      EndAtCounts(q, Responding, n - 1);
      EndAtCounts(EndAt(q, Responding, n - 1).after, Requesting, n - 1);
    }
  }

  /** Where in the destructor's order an End frame comes: by id, the answering channel first. */
  function Turn(f: Frame): nat {
    2 * f.id + if f.RequestEnd? then 1 else 0
  }

  lemma {:induction false} DestroyedInOrder(p: Peer, n: nat)
    requires n < U32_LIMIT && p.Sound()
    ensures var sent := Destroyed(p, n).sent;
            && (forall i | 0 <= i < |sent| :: (sent[i].frame.RequestEnd? || sent[i].frame.ResponseEnd?) && sent[i].frame.id < n)
            && (forall i, j | 0 <= i < j < |sent| :: Turn(sent[i].frame) < Turn(sent[j].frame))
    decreases n
  {
    hide EndAt, Turn;
    if n > 0 {
      DestroyedInOrder(p, n - 1);
      DestroyedEmpties(p, n - 1);
      var before := Destroyed(p, n - 1);
      EndAtEmpties(before.after, Responding, n - 1);
      var e1 := EndAt(before.after, Responding, n - 1);
      EndAtSends(before.after, Responding, n - 1);
      EndAtSends(e1.after, Requesting, n - 1);
      forall i | 0 <= i < |before.sent| ensures Turn(before.sent[i].frame) < 2 * (n - 1) {
        EarlierTurn(before.sent[i].frame, n - 1);
      }
    }
  }

  lemma EarlierTurn(f: Frame, n: nat)
    requires f.id < n
    ensures Turn(f) < 2 * n
  {
  }

  lemma EndAtSends(p: Peer, role: Role, id: u32)
    requires p.Sound()
    ensures var sent := EndAt(p, role, id).sent;
            |sent| <= 1 && forall i | 0 <= i < |sent| :: sent[i].frame == EndFrame(role, id)
    ensures Turn(EndFrame(role, id)) == 2 * id + if role == Requesting then 1 else 0
    ensures EndFrame(role, id).id == id && EndFrame(role, id).FromOpener() == (role == Requesting)
  {
    if id in TableOf(p, role).slots {
      EndingIs(p, role, TableOf(p, role).slots[id]);
    }
  }

  lemma NothingLeft(m: ChannelManager, p: Peer, q: Peer, x: Picture)
    requires p.Sound() && q == Destroyed(p, m.max).after && Agrees(m, q, x, Settled)
    ensures q.requester.table.slots == map[] && q.responder.slots == map[]
    ensures |x.requesting.made| == |x.requesting.views| && |x.responding.made| == |x.responding.views|
    ensures forall k | 0 <= k < |x.requesting.views| :: x.requesting.views[k].isClosed
    ensures forall k | 0 <= k < |x.responding.views| :: x.responding.views[k].isClosed
  {
    hide Destroyed, IdsPartitioned, FreeTied;
    DestroyedEmpties(p, m.max);
    forall id: u32 ensures id !in q.requester.table.slots && id !in q.responder.slots {
      assert q.requester.table == TableOf(q, Requesting) && q.responder == TableOf(q, Responding);
    }
  }

  lemma OnStreamTogether(sent: seq<byte>, first: seq<Packet>, second: seq<Packet>)
    ensures sent + SerializedAll(Encodings(first + second))
         == sent + SerializedAll(Encodings(first)) + SerializedAll(Encodings(second))
  {
    hide SerializedAll, Encode;
    SerializedAllAppend(Encodings(first), Encodings(second));
    assert Encodings(first + second) == Encodings(first) + Encodings(second);
  }

  /** A permit for each free id. */
  lemma AboutPermits(m: ChannelManager, p: Peer, x: Picture)
    requires Agrees(m, p, x, Settled)
    ensures x.permits == |x.freeList| && x.freeList == p.requester.free
    ensures x.permits == 0 ==> Perform(p, CallCreate).after == p
  {
  }

  lemma AboutFree(m: ChannelManager, p: Peer, x: Picture)
    requires Agrees(m, p, x, Settled) && x.permits > 0
    ensures x.freeList == p.requester.free && x.permits == |x.freeList| && x.freeList[|x.freeList| - 1] < m.max
    ensures |x.requesting.made| == |x.requesting.views| && |x.requesting.slots| == m.max
  {
    assert p.requester.free[|p.requester.free| - 1] in p.requester.free;
  }

  lemma CreateAgrees(m: ChannelManager, p: Peer, x: Picture, c: InternalChannel)
    requires Agrees(m, p, x, Settled) && p.requester.free != [] && |x.requesting.slots| == m.max
    requires c.id == p.requester.free[|p.requester.free| - 1] < m.max
    requires c.serial == |x.requesting.made| && c.role == Requesting && c.manager == m
    ensures x.permits > 0 && x.freeList != []
    ensures Agrees(m, p.(requester := Create(p.requester)),
                   Picture(Grown(x.requesting, c), x.responding, x.freeList[..|x.freeList| - 1], x.permits - 1), Settled)
  {
    hide ChannelsTied, SlotsTied;
    var top := |p.requester.free| - 1;
    assert c.id !in p.requester.table.slots;
    OpenTied(m, Requesting, p.requester.table, x.requesting, c);
    PartitionAfterCreate(m.max, p.requester);
  }

  lemma AboutEmpty(m: ChannelManager, p: Peer, x: Picture, role: Role, id: u32)
    requires Agrees(m, p, x, Settled) && id < m.max == |x.Of(role).slots| && x.Of(role).slots[id] == null
    ensures id !in TableOf(p, role).slots && |x.Of(role).made| == |x.Of(role).views|
  {
    hide IdsPartitioned, FreeTied;
    assert SlotTied(role, TableOf(p, role), x.Of(role), id, Settled);
  }

  lemma AnswerAgrees(m: ChannelManager, p: Peer, x: Picture, c: InternalChannel)
    requires Agrees(m, p, x, Settled) && c.id !in p.responder.slots && c.id < m.max == |x.responding.slots|
    requires c.serial == |x.responding.made| && c.role == Responding && c.manager == m
    ensures Agrees(m, WithTable(p, Responding, p.responder.Opened(c.id)), x.(responding := Grown(x.responding, c)), Settled)
  {
    hide ChannelsTied, SlotsTied, IdsPartitioned;
    OpenTied(m, Responding, p.responder, x.responding, c);
  }

  lemma NothingOnStream()
    ensures SerializedAll(Encodings([])) == []
  {
  }

  lemma ClosedWritesNothing(p: Peer, role: Role, k: nat, m: Payload)
    requires !TableOf(p, role).Live(k)
    ensures WriteChannel(p, role, k, m) == Effect(p, [])
  {
  }

  lemma SamePartition(max: nat, r: Requester, r': Requester)
    requires IdsPartitioned(max, r) && r'.free == r.free && r'.table.slots == r.table.slots
    ensures IdsPartitioned(max, r')
  {
    forall id: u32 ensures id < max <==> id in r'.free || id in r'.table.slots {
      assert id < max <==> id in r.free || id in r.table.slots;
    }
  }

  lemma EndingPartition(max: nat, p: Peer, role: Role, k: nat)
    requires IdsPartitioned(max, p.requester)
    ensures IdsPartitioned(max, EndChannel(p, role, k).after.requester)
  {
    PartitionAfterClose(max, p.requester, k);
  }

  // ---- The objects ----

  ghost function Views(made: seq<InternalChannel>): (views: seq<View>)
    reads made
    ensures |views| == |made|
    ensures forall k | 0 <= k < |made| :: views[k] == made[k].Seen()
  {
    seq(|made|, k requires 0 <= k < |made| reads made => made[k].Seen())
  }

  lemma OneViewChanged(made: seq<InternalChannel>, views: seq<View>, k: nat, v: View)
    requires k < |made| == |views| && made[k].Seen() == v
    requires forall j | 0 <= j < |made| && j != k :: made[j].Seen() == views[j]
    ensures Views(made) == views[k := v]
  {
  }

  /** Nothing of what is shown has changed but one channel. */
  lemma OneChannelChanged(m: ChannelManager, x: Picture, role: Role, k: nat, v: View)
    requires k < |x.Of(role).made| == |x.Of(role).views| && x.Of(role).made[k].Seen() == v
    requires forall j | 0 <= j < |x.Of(role).made| && j != k :: x.Of(role).made[j].Seen() == x.Of(role).views[j]
    requires Views(x.Of(Other(role)).made) == x.Of(Other(role)).views
    requires m.requests == x.requesting.made && m.responses == x.responding.made
    requires m.requestChannel[..] == x.requesting.slots && m.responseChannel[..] == x.responding.slots
    requires m.freeList == x.freeList && m.permits == x.permits
    ensures m.Shown() == x.With(role, x.Of(role).(views := x.Of(role).views[k := v]))
  {
    hide Views;
    OneViewChanged(x.Of(role).made, x.Of(role).views, k, v);
  }

  /** Nothing of what is shown has changed but for one more channel, in the slot of its id. */
  lemma OneChannelAdded(m: ChannelManager, x: Picture, role: Role, c: InternalChannel)
    requires c.Seen() == View(false, false, []) && c.id < |x.Of(role).slots|
    requires Views(x.Of(role).made) == x.Of(role).views && Views(x.Of(Other(role)).made) == x.Of(Other(role)).views
    requires m.Log(role) == x.Of(role).made + [c] && m.Log(Other(role)) == x.Of(Other(role)).made
    requires m.Slots(role)[..] == x.Of(role).slots[c.id as int := c] && m.Slots(Other(role))[..] == x.Of(Other(role)).slots
    ensures m.Shown() == x.With(role, Grown(x.Of(role), c)).(freeList := m.freeList, permits := m.permits)
  {
    assert Views(x.Of(role).made + [c]) == x.Of(role).views + [View(false, false, [])];
  }

  lemma InitialAgrees(m: ChannelManager, x: Picture)
    requires x.freeList == InitialFree(m.max) && x.permits == m.max
    requires x.requesting.made == [] == x.responding.made && x.requesting.views == [] == x.responding.views
    requires |x.requesting.slots| == m.max == |x.responding.slots|
    requires forall i | 0 <= i < m.max :: x.requesting.slots[i] == null && x.responding.slots[i] == null
    ensures Agrees(m, InitialPeer(m.max), x, Settled)
  {
    var free := InitialFree(m.max);
    forall id: u32 ensures id < m.max <==> id in free {
      if id < m.max {
        assert free[id] == id;
      }
    }
  }

  class InternalChannel {
    const id: u32
    const role: Role
    /** What `closeCallback` captured. */
    const manager: ChannelManager
    ghost const serial: nat

    var isClosed: bool
    /** `messageBuffer`: an unbounded queue with a closed flag. */
    var buffer: seq<Payload>
    var bufferClosed: bool

    constructor (id: u32, role: Role, manager: ChannelManager, ghost serial: nat)
      ensures this.id == id && this.role == role && this.manager == manager && this.serial == serial
      ensures !isClosed && buffer == [] && !bufferClosed
    {
      this.id, this.role, this.manager, this.serial := id, role, manager, serial;
      isClosed, buffer, bufferClosed := false, [], false;
    }

    ghost function Seen(): View
      reads this
    {
      View(isClosed, bufferClosed, buffer)
    }

    /** A closed handle writes nothing; an open one appends one whole frame to the stream. The precondition
        is wrap's. Of the four lengths whose wrapped length does not fit, a fragment of up to three bytes goes
        out, as a whole message that no reader accepts (OversizeIsRejected). */
    method Write(message: MessageCell) returns (ok: bool)
      requires manager.Inv(Settled) && manager.Made(this)
      requires message.length + HEADER_LENGTH < U32_LIMIT
      modifies message, manager`model, manager.socket`sent
      ensures manager.Inv(Settled)
      ensures ok == !isClosed
      ensures old(message.length) <= MAX_PAYLOAD ==>
                var e := WriteChannel(old(manager.model), role, serial, Normal(old(message.Value())));
                manager.model == e.after && manager.socket.sent == old(manager.socket.sent) + SerializedAll(Encodings(e.sent))
      ensures old(message.length) > MAX_PAYLOAD ==>
                && manager.model == old(manager.model)
                && manager.socket.sent == old(manager.socket.sent)
                                          + if ok then Serialized(Oversize(role, old(message.Value()))) else []
    {
      hide *;
      if message.length > MAX_PAYLOAD {
        ok := WriteOversize(message);
      } else {
        ok := WriteFitting(message);
      }
    }

    method WriteFitting(message: MessageCell) returns (ok: bool)
      requires manager.Inv(Settled) && manager.Made(this) && message.length <= MAX_PAYLOAD
      modifies message, manager`model, manager.socket`sent
      ensures manager.Inv(Settled)
      ensures ok == !isClosed
      ensures var e := WriteChannel(old(manager.model), role, serial, Normal(old(message.Value())));
              manager.model == e.after && manager.socket.sent == old(manager.socket.sent) + SerializedAll(Encodings(e.sent))
    {
      hide Agrees, SerializedAll, Encodings, WriteChannel, Views;
      ghost var m: Payload := Normal(message.Value());
      ghost var p, x := manager.model, manager.Shown();
      AboutToWrite(manager, p, x, role, serial, m);
      if isClosed {
        NothingOnStream();
        return false;
      }
      SendData(message);
      manager.model := WriteChannel(p, role, serial, m).after;
      assert manager.Shown() == x;
      return true;
    }

    method WriteOversize(message: MessageCell) returns (ok: bool)
      requires MAX_PAYLOAD < message.length && message.length + HEADER_LENGTH < U32_LIMIT
      modifies message, manager.socket`sent
      ensures ok == !isClosed
      ensures manager.socket.sent == old(manager.socket.sent)
                                     + if ok then Serialized(Oversize(role, old(message.Value()))) else []
    {
      hide Serialized, Wrapped, Transmitted, Oversize;
      if isClosed {
        return false;
      }
      OversizeOnStream(role, id, message.Value());
      message.Wrap(id, DataProtocol(role));
      manager.socket.WriteMessage(message);
      return true;
    }

    method SendData(message: MessageCell)
      requires message.length <= MAX_PAYLOAD
      modifies message, manager.socket`sent
      ensures manager.socket.sent == old(manager.socket.sent)
                + SerializedAll(Encodings([Packet(DataFrame(role, id, Normal(old(message.Value()))), serial)]))
    {
      hide Serialized, Wrapped, Transmitted, SerializedAll, Encodings;
      DataOnStream(role, id, message.Value(), serial);
      message.Wrap(id, DataProtocol(role));
      manager.socket.WriteMessage(message);
    }

    /** `origin` is the number of the channel at the far end that wrote the message. */
    method Push(message: Payload, ghost origin: nat) returns (ok: bool)
      requires manager.Inv(Settled) && manager.Made(this)
      modifies this`buffer, manager`model
      ensures manager.Inv(Settled)
      ensures ok == !isClosed && buffer == old(buffer) + if ok then [message] else []
      ensures manager.model ==
                if ok then WithTable(old(manager.model), role, TableOf(old(manager.model), role).Took(serial, Parcel(origin, message)))
                else old(manager.model)
    {
      hide Agrees, EndChannel, WriteChannel, Create, Views;
      ghost var p, x := manager.model, manager.Shown();
      AboutChannel(manager, p, x, Settled, role, serial);
      if isClosed {
        assert buffer + [] == buffer;
        return false;
      }
      buffer := buffer + [message];
      OneChannelChanged(manager, x, role, serial, View(false, false, x.Of(role).views[serial].buffer + [message]));
      PushAgrees(manager, p, x, role, serial, Parcel(origin, message));
      manager.model := WithTable(p, role, TableOf(p, role).Took(serial, Parcel(origin, message)));
      return true;
    }

    /** Sends exactly one End frame in the life of the channel. Called by a user, it also empties the slot
        and frees the id through the callback; called by a removal (`Unlinked`), the callback finds nothing
        to do and the removal frees the id. */
    method Close(ghost lag: Lag)
      requires manager.Inv(lag) && manager.Made(this)
      requires isClosed || lag == Settled || lag == Unlinked(role, id)
      modifies this, manager`freeList, manager`permits, manager`model, manager.Slots(role), manager.socket`sent
      ensures isClosed && bufferClosed && buffer == old(buffer)
      ensures old(isClosed) ==>
                && unchanged(this) && unchanged(manager) && unchanged(manager.Slots(role)) && unchanged(manager.socket)
                && manager.Inv(lag)
      ensures !old(isClosed) ==>
                var e := EndChannel(old(manager.model), role, serial);
                && manager.Inv(if lag == Settled then Settled else Ended(role, id, false))
                && manager.model == e.after && e.sent == [Packet(EndFrame(role, id), serial)]
                && manager.socket.sent == old(manager.socket.sent) + SerializedAll(Encodings(e.sent))
                && manager.Slots(role)[..] == old(manager.Slots(role)[..])[id as int := null]
                && manager.freeList == old(manager.freeList) + if lag == Settled && role == Requesting then [id] else []
      decreases (if id < manager.Slots(role).Length && manager.Slots(role)[id] == this then 1 else 0) + (if isClosed then 0 else 1)
    {
      hide Agrees, SerializedAll, Encodings, EndChannel, EndFrame, ChannelManager.Inv;
      AboutHandle(this, lag);
      if isClosed {
        return;
      }
      SendEnd(lag);
      // The close callback.
      if role == Requesting {
        manager.RemoveRequestChannel(id, Ended(role, id, lag == Settled));
      } else {
        manager.RemoveResponseChannel(id, Ended(role, id, lag == Settled));
      }
    }

    /** The first half of close: the buffer is closed, the End frame sent, the channel marked. */
    method SendEnd(ghost lag: Lag)
      requires manager.Inv(lag) && manager.Made(this) && !isClosed
      requires lag == Settled || lag == Unlinked(role, id)
      modifies this`isClosed, this`bufferClosed, manager`model, manager.socket`sent
      ensures isClosed && bufferClosed
      ensures manager.Inv(Ended(role, id, lag == Settled)) && id < manager.max == manager.Slots(role).Length
      ensures manager.Slots(role)[id] == if lag == Settled then this else null
      ensures var e := EndChannel(old(manager.model), role, serial);
              && manager.model == e.after && e.sent == [Packet(EndFrame(role, id), serial)]
              && manager.socket.sent == old(manager.socket.sent) + SerializedAll(Encodings(e.sent))
    {
      hide Agrees, SerializedAll, Encodings, EndChannel, EndFrame, Picture.With, Views;
      ghost var p, x := manager.model, manager.Shown();
      AboutToEnd(manager, p, x, lag, role, serial);
      assert manager.Slots(role)[..][id] == if lag == Settled then this else null;
      bufferClosed := true;
      SendCloseMessage();
      isClosed := true;
      manager.model := EndChannel(p, role, serial).after;
      OneChannelChanged(manager, x, role, serial, View(true, true, x.Of(role).views[serial].buffer));
    }

    method SendCloseMessage()
      modifies manager.socket`sent
      ensures manager.socket.sent == old(manager.socket.sent) + SerializedAll(Encodings([Packet(EndFrame(role, id), serial)]))
    {
      hide Serialized, Transmitted, SerializedAll, Encodings;
      var closeMessage := new MessageCell(Message(4, EndProtocol(role), WordBytes(id)));
      EndOnStream(role, id, serial);
      manager.socket.WriteMessage(closeMessage);
    }
  }

  /** A handle and its buffer are closed together. */
  lemma AboutHandle(c: InternalChannel, lag: Lag)
    requires c.manager.Inv(lag) && c.manager.Made(c)
    ensures c.isClosed == c.bufferClosed
  {
    hide Agrees;
    AboutChannel(c.manager, c.manager.model, c.manager.Shown(), lag, c.role, c.serial);
  }

  /** All that a removal needs to know when it finds the slot full. */
  lemma AboutRemoval(m: ChannelManager, p: Peer, x: Picture, lag: Lag, role: Role, id: u32)
    requires Agrees(m, p, x, lag) && id < m.max == |x.Of(role).slots| && x.Of(role).slots[id] != null
    requires lag == Settled || (lag.Ended? && Concerns(lag, role, id))
    ensures var h, c := x.Of(role), x.Of(role).slots[id];
            && c.id == id && c.role == role && c.manager == m
            && c.serial < |h.made| == |h.views| && h.made[c.serial] == c
            && h.views[c.serial].isClosed == h.views[c.serial].bufferClosed == (lag != Settled)
            && Agrees(m, p, x.With(role, h.(slots := h.slots[id as int := null])),
                      if lag == Settled then Unlinked(role, id) else Ended(role, id, false))
  {
    hide Agrees;
    AboutSlot(m, p, x, lag, role, id);
    AboutChannel(m, p, x, lag, role, x.Of(role).slots[id].serial);
    EmptyAgrees(m, p, x, lag, role, id);
  }

  /** All that a write needs to know. */
  lemma AboutToWrite(m: ChannelManager, p: Peer, x: Picture, role: Role, k: nat, w: Payload)
    requires Agrees(m, p, x, Settled) && k < |x.Of(role).made| == |x.Of(role).views|
    ensures var e := WriteChannel(p, role, k, w);
            && e.sent == (if x.Of(role).views[k].isClosed then [] else [Packet(DataFrame(role, x.Of(role).made[k].id, w), k)])
            && (x.Of(role).views[k].isClosed ==> e.after == p)
            && Agrees(m, e.after, x, Settled)
  {
    hide Agrees, WriteChannel;
    AboutChannel(m, p, x, Settled, role, k);
    AgreeingIsSound(m, p, x, Settled);
    if TableOf(p, role).Live(k) {
      WritingIs(p, role, k, w);
      WriteAgrees(m, p, x, role, k, w);
    } else {
      ClosedWritesNothing(p, role, k, w);
    }
  }

  /** All that the sending of an End frame needs to know. */
  lemma AboutToEnd(m: ChannelManager, p: Peer, x: Picture, lag: Lag, role: Role, k: nat)
    requires Agrees(m, p, x, lag) && k < |x.Of(role).made| == |x.Of(role).views| && !x.Of(role).views[k].isClosed
    requires lag == Settled || lag == Unlinked(role, x.Of(role).made[k].id)
    ensures var h, id := x.Of(role), x.Of(role).made[k].id;
            && h.made[k].manager == m && id < m.max == |h.slots|
            && h.slots[id] == (if lag == Settled then h.made[k] else null)
            && EndChannel(p, role, k).sent == [Packet(EndFrame(role, id), k)]
            && h.made[k] !in x.Of(Other(role)).made
            && (forall j | 0 <= j < |h.made| && j != k :: h.made[j] != h.made[k])
            && Agrees(m, EndChannel(p, role, k).after,
                      x.With(role, h.(views := h.views[k := View(true, true, h.views[k].buffer)])), Ended(role, id, lag == Settled))
  {
    hide Agrees, EndChannel;
    AboutChannel(m, p, x, lag, role, k);
    AgreeingIsSound(m, p, x, lag);
    AboutOpen(m, p, x, lag, role, k);
    EndingIs(p, role, k);
    EndAgrees(m, p, x, lag, role, k);
  }

  lemma AgreeingIsSound(m: ChannelManager, p: Peer, x: Picture, lag: Lag)
    requires Agrees(m, p, x, lag)
    ensures p.Sound()
  {
  }

  class ChannelManager {
    const max: u32
    const socket: Socket
    /** The stack of free ids, top last, and the permits of the semaphore that guards it. */
    var freeList: seq<u32>
    var permits: nat
    const requestChannel: array<InternalChannel?>
    const responseChannel: array<InternalChannel?>

    /** Every channel ever made, and the state of the whole as a value. */
    ghost var requests: seq<InternalChannel>
    ghost var responses: seq<InternalChannel>
    ghost var model: Peer

    constructor (max: u32, socket: Socket)
      ensures Inv(Settled) && model == InitialPeer(max) && permits == |freeList| == max
      ensures requestChannel.Length == responseChannel.Length == max
      ensures forall i | 0 <= i < max :: freeList[i] == i && requestChannel[i] == null && responseChannel[i] == null
      ensures this.max == max && this.socket == socket && fresh(requestChannel) && fresh(responseChannel)
    {
      this.max, this.socket := max, socket;
      freeList, permits := [], max;
      requestChannel := new InternalChannel?[max];
      responseChannel := new InternalChannel?[max];
      requests, responses := [], [];
      model := InitialPeer(max);
      new;
      hide Agrees;
      var i: u32 := 0;
      while i < max
        invariant i <= max && |freeList| == i
        invariant forall j | 0 <= j < i :: freeList[j] == j && requestChannel[j] == null && responseChannel[j] == null
        modifies this`freeList, requestChannel, responseChannel
      {
        freeList := freeList + [i];
        responseChannel[i] := null;
        requestChannel[i] := null;
        i := i + 1;
      }
      assert freeList == InitialFree(max);
      InitialAgrees(this, Shown());
    }

    function Slots(role: Role): array<InternalChannel?> {
      if role == Requesting then requestChannel else responseChannel
    }

    ghost function Log(role: Role): seq<InternalChannel>
      reads this
    {
      if role == Requesting then requests else responses
    }

    ghost predicate Made(c: InternalChannel)
      reads this
    {
      c.serial < |Log(c.role)| && Log(c.role)[c.serial] == c
    }

    ghost function Shown(): Picture
      reads this, requestChannel, responseChannel, requests, responses
    {
      Picture(Half(requests, Views(requests), requestChannel[..]), Half(responses, Views(responses), responseChannel[..]),
              freeList, permits)
    }

    /** Between calls the lag is `Settled`. */
    ghost predicate Inv(lag: Lag)
      reads this, requestChannel, responseChannel, requests, responses
    {
      && requestChannel != responseChannel
      && requestChannel.Length == responseChannel.Length == max
      && Agrees(this, model, Shown(), lag)
    }

    /** Empties the slot, closes its channel if that is still open, and pushes the id once. */
    method RemoveRequestChannel(id: u32, ghost lag: Lag)
      requires Inv(lag) && id < max
      requires lag == Settled || (lag.Ended? && lag.role == Requesting && lag.id == id)
      modifies this`freeList, this`permits, this`model, requestChannel, socket`sent,
               (if requestChannel[id] == null then {} else {requestChannel[id]})
      ensures old(requestChannel[id]) == null ==>
                unchanged(this) && unchanged(requestChannel) && unchanged(socket) && Inv(lag)
      ensures old(requestChannel[id]) != null ==>
                && Inv(Settled)
                && old(requestChannel[id]).isClosed && old(requestChannel[id]).bufferClosed
                && old(requestChannel[id]).buffer == old(requestChannel[id].buffer)
                && requestChannel[..] == old(requestChannel[..])[id as int := null]
                && freeList == old(freeList) + [id]
      ensures old(requestChannel[id]) != null && lag.Ended? ==> model == old(model) && unchanged(socket)
      ensures old(requestChannel[id]) != null && lag == Settled ==>
                var e := EndChannel(old(model), Requesting, old(requestChannel[id]).serial);
                && model == e.after && e.sent == [Packet(RequestEnd(id), old(requestChannel[id]).serial)]
                && socket.sent == old(socket.sent) + SerializedAll(Encodings(e.sent))
      decreases if requestChannel[id] == null then 0 else 1 + if requestChannel[id].isClosed then 0 else 1
    {
      hide Agrees, SerializedAll, Encodings, EndChannel, Views;
      if requestChannel[id] == null {
        return;
      }
      var channel := requestChannel[id];
      ghost var p, x := model, Shown();
      AboutRemoval(this, p, x, lag, Requesting, id);
      requestChannel[id] := null;
      assert requestChannel[..] == x.requesting.slots[id as int := null];
      assert Shown() == x.With(Requesting, x.requesting.(slots := requestChannel[..]));
      channel.Close(if lag == Settled then Unlinked(Requesting, id) else Ended(Requesting, id, false));
      GiveBack(id);
    }

    /** The locked push and the release of the semaphore. */
    method GiveBack(id: u32)
      requires Inv(Ended(Requesting, id, false))
      modifies this`freeList, this`permits
      ensures Inv(Settled) && freeList == old(freeList) + [id]
    {
      hide Agrees, Views;
      ghost var x := Shown();
      SettleAgrees(this, model, x, Requesting, id);
      freeList := freeList + [id];
      permits := permits + 1;
      assert Shown() == x.(freeList := x.freeList + [id], permits := x.permits + 1);
    }

    method RemoveResponseChannel(id: u32, ghost lag: Lag)
      requires Inv(lag) && id < max
      requires lag == Settled || (lag.Ended? && lag.role == Responding && lag.id == id)
      modifies this`freeList, this`permits, this`model, responseChannel, socket`sent,
               (if responseChannel[id] == null then {} else {responseChannel[id]})
      ensures old(responseChannel[id]) == null ==>
                unchanged(this) && unchanged(responseChannel) && unchanged(socket) && Inv(lag)
      ensures old(responseChannel[id]) != null ==>
                && Inv(Settled)
                && old(responseChannel[id]).isClosed && old(responseChannel[id]).bufferClosed
                && old(responseChannel[id]).buffer == old(responseChannel[id].buffer)
                && responseChannel[..] == old(responseChannel[..])[id as int := null]
                && freeList == old(freeList)
      ensures old(responseChannel[id]) != null && lag.Ended? ==> model == old(model) && unchanged(socket)
      ensures old(responseChannel[id]) != null && lag == Settled ==>
                var e := EndChannel(old(model), Responding, old(responseChannel[id]).serial);
                && model == e.after && e.sent == [Packet(ResponseEnd(id), old(responseChannel[id]).serial)]
                && socket.sent == old(socket.sent) + SerializedAll(Encodings(e.sent))
      decreases if responseChannel[id] == null then 0 else 1 + if responseChannel[id].isClosed then 0 else 1
    {
      hide Agrees, SerializedAll, Encodings, EndChannel, Views;
      if responseChannel[id] == null {
        return;
      }
      var channel := responseChannel[id];
      ghost var p, x := model, Shown();
      AboutRemoval(this, p, x, lag, Responding, id);
      responseChannel[id] := null;
      assert responseChannel[..] == x.responding.slots[id as int := null];
      assert Shown() == x.With(Responding, x.responding.(slots := responseChannel[..]));
      channel.Close(if lag == Settled then Unlinked(Responding, id) else Ended(Responding, id, false));
      SettleAgrees(this, model, Shown(), Responding, id);
    }

    /** With no free id the call waits on the semaphore, having changed nothing: null stands for a call that
        is still waiting. */
    method CreateRequestChannel() returns (channel: InternalChannel?)
      requires Inv(Settled)
      modifies this`freeList, this`permits, this`requests, this`model, requestChannel
      ensures Inv(Settled) && model == Perform(old(model), CallCreate).after
      ensures channel == null <==> old(freeList) == []
      ensures channel == null ==> unchanged(this) && unchanged(requestChannel)
      ensures channel != null ==>
                && fresh(channel) && requests == old(requests) + [channel] && Made(channel) && channel.role == Requesting
                && channel.manager == this && !channel.isClosed && requestChannel[..] == old(requestChannel[..])[channel.id as int := channel]
    {
      hide Agrees, Views, Create, Grown;
      ghost var p, x := model, Shown();
      AboutPermits(this, p, x);
      if permits == 0 {
        return null;
      }
      AboutFree(this, p, x);
      permits := permits - 1;
      var id := freeList[|freeList| - 1];
      freeList := freeList[..|freeList| - 1];
      channel := new InternalChannel(id, Requesting, this, |requests|);
      requestChannel[id] := channel;
      requests := requests + [channel];
      OneChannelAdded(this, x, Requesting, channel);
      assert Shown() == Picture(Grown(x.requesting, channel), x.responding, x.freeList[..|x.freeList| - 1], x.permits - 1);
      CreateAgrees(this, p, x, channel);
      model := p.(requester := Create(p.requester));
      assert Agrees(this, model, Shown(), Settled);
    }

    method CreateResponseChannel(id: u32) returns (ok: bool)
      requires Inv(Settled) && id < max
      modifies this`responses, this`model, responseChannel
      ensures Inv(Settled)
      ensures ok == (old(responseChannel[id]) == null)
      ensures !ok ==> unchanged(this) && unchanged(responseChannel)
      ensures ok ==>
                && id !in old(model).responder.slots
                && model == WithTable(old(model), Responding, old(model).responder.Opened(id))
                && requests == old(requests)
                && responseChannel[id] != null && fresh(responseChannel[id])
                && responses == old(responses) + [responseChannel[id]]
    {
      hide Agrees, Views;
      if responseChannel[id] != null {
        return false;
      }
      ghost var p, x := model, Shown();
      AboutEmpty(this, p, x, Responding, id);
      var channel := new InternalChannel(id, Responding, this, |responses|);
      responseChannel[id] := channel;
      responses := responses + [channel];
      OneChannelAdded(this, x, Responding, channel);
      AnswerAgrees(this, p, x, channel);
      model := WithTable(p, Responding, p.responder.Opened(id));
      return true;
    }

    /** The branches of `forwardMessage` for End frames: the channel in the slot is removed, if there is one. */
    method ForwardResponseEnd(id: u32, ghost origin: nat)
      requires Inv(Settled) && id < max
      modifies this`freeList, this`permits, this`model, requestChannel, requests, socket`sent
      ensures Inv(Settled)
      ensures var e := Forward(old(model), Packet(ResponseEnd(id), origin));
              model == e.after && socket.sent == old(socket.sent) + SerializedAll(Encodings(e.sent))
    {
      hide Agrees, Views, SerializedAll, Encodings, EndChannel, Forward;
      AgreeingIsSound(this, model, Shown(), Settled);
      RoutingAnEnd(model, Requesting, id, origin);
      if requestChannel[id] != null {
        AboutSlot(this, model, Shown(), Settled, Requesting, id);
        RemoveRequestChannel(id, Settled);
      } else {
        AboutEmpty(this, model, Shown(), Requesting, id);
        NothingOnStream();
        assert socket.sent + [] == socket.sent;
      }
    }

    method ForwardRequestEnd(id: u32, ghost origin: nat)
      requires Inv(Settled) && id < max
      modifies this`freeList, this`permits, this`model, responseChannel, responses, socket`sent
      ensures Inv(Settled)
      ensures var e := Forward(old(model), Packet(RequestEnd(id), origin));
              model == e.after && socket.sent == old(socket.sent) + SerializedAll(Encodings(e.sent))
    {
      hide Agrees, Views, SerializedAll, Encodings, EndChannel, Forward;
      AgreeingIsSound(this, model, Shown(), Settled);
      RoutingAnEnd(model, Responding, id, origin);
      if responseChannel[id] != null {
        AboutSlot(this, model, Shown(), Settled, Responding, id);
        RemoveResponseChannel(id, Settled);
      } else {
        AboutEmpty(this, model, Shown(), Responding, id);
        NothingOnStream();
        assert socket.sent + [] == socket.sent;
      }
    }

    /** The branches of `forwardMessage` for data frames: push to the registered channel, which for a request
        is made first if the slot is empty. */
    method ForwardResponse(id: u32, payload: Payload, ghost origin: nat) returns (ok: bool)
      requires Inv(Settled) && id < max
      modifies this`model, requests
      ensures Inv(Settled)
      ensures ok == (requestChannel[id] != null) == (id in old(model).requester.table.slots)
      ensures model == Forward(old(model), Packet(Response(id, payload), origin)).after
      ensures Forward(old(model), Packet(Response(id, payload), origin)).sent == []
    {
      hide Agrees, Views;
      AgreeingIsSound(this, model, Shown(), Settled);
      if requestChannel[id] == null {
        AboutEmpty(this, model, Shown(), Requesting, id);
        return false;
      }
      var channel := requestChannel[id];
      AboutSlot(this, model, Shown(), Settled, Requesting, id);
      AboutChannel(this, model, Shown(), Settled, Requesting, channel.serial);
      ok := channel.Push(payload, origin);
    }

    method ForwardRequest(id: u32, payload: Payload, ghost origin: nat) returns (channel: InternalChannel)
      requires Inv(Settled) && id < max
      modifies this`responses, this`model, responseChannel, responses
      ensures Inv(Settled)
      ensures responseChannel[id] == channel && !channel.isClosed && Made(channel) && channel.role == Responding
      ensures requests == old(requests)
      ensures forall c | c in responses :: c in old(responses) || fresh(c)
      ensures old(responses) <= responses
      ensures model == Forward(old(model), Packet(Request(id, payload), origin)).after
      ensures Forward(old(model), Packet(Request(id, payload), origin)).sent == []
    {
      hide Agrees, Views;
      AgreeingIsSound(this, model, Shown(), Settled);
      if responseChannel[id] == null {
        var _ := CreateResponseChannel(id);
      } else {
        AboutSlot(this, model, Shown(), Settled, Responding, id);
      }
      channel := responseChannel[id];
      AboutSlot(this, model, Shown(), Settled, Responding, id);
      AboutChannel(this, model, Shown(), Settled, Responding, channel.serial);
      var _ := channel.Push(payload, origin);
    }

    /** `forwardMessage`. A channel is returned for every Request, not only for the one that made it. */
    method ForwardMessage(message: MessageCell, ghost origin: nat)
      returns (ok: bool, protocol: u32, channel: InternalChannel?)
      requires Inv(Settled) && message.Value().Framed() && Within(Parse(message.Value()), max)
      modifies message, this`freeList, this`permits, this`model, this`responses,
               requestChannel, responseChannel, requests, responses, socket`sent
      ensures Inv(Settled) && requests == old(requests)
      ensures forall c | c in responses :: c in old(responses) || fresh(c)
      ensures old(responses) <= responses
      ensures var e := Route(old(model), old(message.Value()), origin);
              model == e.after && socket.sent == old(socket.sent) + SerializedAll(Encodings(e.sent))
      ensures var incoming := Parse(old(message.Value()));
              && ok == Accepted(old(model), incoming)
              && protocol == ReportedProtocol(old(message.protocol), incoming)
              && (channel != null <==> incoming.Known? && incoming.frame.Request?)
              && (channel != null ==> channel == responseChannel[incoming.frame.id] && !channel.isClosed && Made(channel))
      ensures ok <==> IsEnd(old(message.protocol)) || model != old(model)
    {
      hide Agrees, Views, SerializedAll, Encodings, Unwrapped, EndChannel, Forward;
      ghost var m := message.Value();
      AgreeingIsSound(this, model, Shown(), Settled);
      AcceptedIffRouted(model, m, origin);
      ParseCases(m);
      NothingOnStream();
      assert socket.sent + [] == socket.sent;
      protocol := message.protocol;
      if protocol == RESPONSE_END {
        ForwardResponseEnd(WordAt(message.body, 0), origin);
        return true, protocol, null;
      }
      if protocol == REQUEST_END {
        ForwardRequestEnd(WordAt(message.body, 0), origin);
        return true, protocol, null;
      }
      var result := message.Unwrap();
      if result.None? {
        return false, 0xFFFF_FFFF, null;
      }
      var id, inner := result.value, message.protocol;
      if protocol == RESPONSE {
        ok := ForwardResponse(id, message.Value(), origin);
        return ok, inner, null;
      } else if protocol == REQUEST {
        channel := ForwardRequest(id, message.Value(), origin);
        return true, inner, channel;
      } else {
        return false, inner, null;
      }
    }

    /** The destructor: every channel is closed once, response before request, id after id. Afterwards no
        handle is open, so none calls back (see Close on a closed channel). */
    method Destroy()
      requires Inv(Settled)
      modifies this`freeList, this`permits, this`model, requestChannel, responseChannel, requests, responses, socket`sent
      ensures Inv(Settled) && requests == old(requests) && responses == old(responses)
      ensures var e := Destroyed(old(model), max);
              model == e.after && socket.sent == old(socket.sent) + SerializedAll(Encodings(e.sent))
      ensures model.requester.table.slots == map[] && model.responder.slots == map[]
      ensures forall c | c in requests || c in responses :: c.isClosed
    {
      hide Agrees, Views, SerializedAll, Encodings, EndChannel, Destroyed, EndAt;
      AgreeingIsSound(this, model, Shown(), Settled);
      ghost var p0, sent0 := model, socket.sent;
      DestroyedNothing(p0, sent0);
      var i: u32 := 0;
      while i < max
        invariant i <= max && Inv(Settled) && requests == old(requests) && responses == old(responses)
        invariant p0.Sound() && model == Destroyed(p0, i).after
        invariant socket.sent == sent0 + SerializedAll(Encodings(Destroyed(p0, i).sent))
      {
        ClearResponse(i);
        ClearRequest(i);
        DestroyedOneMore(p0, i, sent0);
        i := i + 1;
      }
      NothingLeft(this, p0, model, Shown());
    }

    method ClearResponse(id: u32)
      requires Inv(Settled) && id < max
      modifies this`freeList, this`permits, this`model, responseChannel, responses, socket`sent
      ensures Inv(Settled)
      ensures var e := EndAt(old(model), Responding, id);
              model == e.after && socket.sent == old(socket.sent) + SerializedAll(Encodings(e.sent))
    {
      hide Agrees, Views, SerializedAll, Encodings, EndChannel;
      NothingOnStream();
      assert socket.sent + [] == socket.sent;
      if responseChannel[id] == null {
        AboutEmpty(this, model, Shown(), Responding, id);
      } else {
        AboutSlot(this, model, Shown(), Settled, Responding, id);
      }
      RemoveResponseChannel(id, Settled);
    }

    method ClearRequest(id: u32)
      requires Inv(Settled) && id < max
      modifies this`freeList, this`permits, this`model, requestChannel, requests, socket`sent
      ensures Inv(Settled)
      ensures var e := EndAt(old(model), Requesting, id);
              model == e.after && socket.sent == old(socket.sent) + SerializedAll(Encodings(e.sent))
    {
      hide Agrees, Views, SerializedAll, Encodings, EndChannel;
      NothingOnStream();
      assert socket.sent + [] == socket.sent;
      if requestChannel[id] == null {
        AboutEmpty(this, model, Shown(), Requesting, id);
      } else {
        AboutSlot(this, model, Shown(), Settled, Requesting, id);
      }
      RemoveRequestChannel(id, Settled);
    }
  }

  /** A request handed to a handler, or held by a client: one of several owners of one channel. */
  class InternalRequest {
    const protocol: u32
    const channel: InternalChannel

    constructor (protocol: u32, channel: InternalChannel)
      ensures this.protocol == protocol && this.channel == channel
    {
      this.protocol, this.channel := protocol, channel;
    }

    method SendMessage(message: MessageCell) returns (ok: bool)
      requires channel.manager.Inv(Settled) && channel.manager.Made(channel)
      requires message.length + HEADER_LENGTH < U32_LIMIT
      modifies message, channel.manager`model, channel.manager.socket`sent
      ensures channel.manager.Inv(Settled) && ok == !channel.isClosed
      ensures old(message.length) <= MAX_PAYLOAD ==>
              var e := WriteChannel(old(channel.manager.model), channel.role, channel.serial, Normal(old(message.Value())));
              && channel.manager.model == e.after
              && channel.manager.socket.sent == old(channel.manager.socket.sent) + SerializedAll(Encodings(e.sent))
      ensures old(message.length) > MAX_PAYLOAD ==>
                && channel.manager.model == old(channel.manager.model)
                && channel.manager.socket.sent
                     == old(channel.manager.socket.sent) + if ok then Serialized(Oversize(channel.role, old(message.Value()))) else []
    {
      hide *;
      ok := channel.Write(message);
    }

    /** Also what the destructor does. Whichever owner comes first closes the channel; for the others, and
        for every later use of the id by another channel, this changes nothing. */
    method Terminate()
      requires channel.manager.Inv(Settled) && channel.manager.Made(channel)
      modifies channel, channel.manager`freeList, channel.manager`permits, channel.manager`model,
               channel.manager.Slots(channel.role), channel.manager.socket`sent
      ensures channel.isClosed && channel.manager.Inv(Settled)
      ensures old(channel.isClosed) ==>
                && unchanged(channel.manager) && unchanged(channel.manager.Slots(channel.role))
                && unchanged(channel.manager.socket)
      ensures var e := EndChannel(old(channel.manager.model), channel.role, channel.serial);
              && channel.manager.model == e.after
              && channel.manager.socket.sent == old(channel.manager.socket.sent) + SerializedAll(Encodings(e.sent))
    {
      hide Agrees, Views, SerializedAll, Encodings;
      NothingOnStream();
      AboutChannel(channel.manager, channel.manager.model, channel.manager.Shown(), Settled, channel.role, channel.serial);
      assert channel.manager.socket.sent + [] == channel.manager.socket.sent;
      channel.Close(Settled);
    }
  }
}
