/** The connector: clients by address, and the loop that reads one client's stream until the first bad read
    (servercc/connectors/src/connector.cc). Calls are whole here; Clients.dfy interleaves their steps. */
module Connector {
  import opened Bytes
  import opened Messages
  import opened Frames
  import opened Framing
  import opened Peers
  import opened Channels

  /** Routing several messages in a row; `origins` says which channel wrote each, as history only. */
  function RouteAll(p: Peer, ms: seq<Message>, origins: nat -> nat): (e: Effect<Peer>)
    requires p.Sound() && AllFramed(ms)
    ensures e.after.Sound()
    decreases |ms|
  {
    if ms == [] then Effect(p, [])
    else
      var n := |ms| - 1;
      var before := RouteAll(p, ms[..n], origins);
      RouteSound(before.after, ms[n], origins(n));
      var last := Route(before.after, ms[n], origins(n));
      Effect(last.after, before.sent + last.sent)
  }

  lemma RouteSound(p: Peer, m: Message, origin: nat)
    requires p.Sound() && m.Framed()
    ensures Route(p, m, origin).after.Sound()
  {
    if Parse(m).Known? {
      ForwardSound(p, Packet(Parse(m).frame, origin));
    }
  }

  /** What a handler is started with: the protocol of the request's payload, and the response channel. */
  datatype Handing = Handing(protocol: u32, channel: nat)

  /** The handing over, if any, once the message is routed and the peer is `after`. */
  function StartOf(after: Peer, m: Message): seq<Handing>
    requires m.Framed()
  {
    match Parse(m)
    case Known(Request(id, r)) => if id in after.responder.slots then [Handing(r.protocol, after.responder.slots[id])] else []
    case _ => []
  }

  function Starts(p: Peer, ms: seq<Message>, origins: nat -> nat): seq<Handing>
    requires p.Sound() && AllFramed(ms)
    decreases |ms|
  {
    if ms == [] then []
    else Starts(p, ms[..|ms| - 1], origins) + StartOf(RouteAll(p, ms, origins).after, ms[|ms| - 1])
  }

  /** Every Request starts one handler, with the open channel of its id that has just taken its payload, and
      nothing else starts one. */
  lemma HandlerGetsTheChannel(p: Peer, m: Message, origin: nat)
    requires p.Sound() && m.Framed()
    ensures var q := Route(p, m, origin).after;
            && (m.protocol != REQUEST ==> StartOf(q, m) == [])
            && (!(exists id, inner :: IsWrapping(m, id, inner)) ==> StartOf(q, m) == [])
            && forall id, inner | m.protocol == REQUEST && IsWrapping(m, id, inner) ::
                 && |StartOf(q, m)| == 1 && StartOf(q, m)[0].protocol == inner.protocol
                 && var k := StartOf(q, m)[0].channel;
                    && q.responder.Live(k) && q.responder.log[k].id == id
                    && var taken := q.responder.log[k].taken;
                       && taken != [] && taken[|taken| - 1] == Parcel(origin, Normal(inner))
                       && (id in p.responder.slots ==> k == p.responder.slots[id])
                       && (id !in p.responder.slots ==> k == |p.responder.log|)
  {
    hide Parse, IsWrapping;
    ParseClassifies(m);
    ForwardedRequest(p, m, origin);
  }

  lemma ForwardedRequest(p: Peer, m: Message, origin: nat)
    requires p.Sound() && m.Framed()
    ensures Parse(m).Known? && Parse(m).frame.Request? ==>
              var f, q := Parse(m).frame, Route(p, m, origin).after;
              && q.Sound() && f.id in q.responder.slots
              && var k := q.responder.slots[f.id];
                 && k == (if f.id in p.responder.slots then p.responder.slots[f.id] else |p.responder.log|)
                 && var taken := q.responder.log[k].taken;
                    taken != [] && taken[|taken| - 1] == Parcel(origin, f.message)
  {
    hide Parse;
  }

  ghost predicate AllWithin(ms: seq<Message>, max: nat)
    requires AllFramed(ms)
  {
    forall i | 0 <= i < |ms| :: Within(Parse(ms[i]), max)
  }

  /** Where the loop stands once `done` is routed: the peer, the bytes it has written, the handlers started. */
  function After(p: Peer, sent: seq<byte>, started: seq<Handing>, done: seq<Message>, origins: nat -> nat)
    : (Peer, seq<byte>, seq<Handing>)
    requires p.Sound() && AllFramed(done)
  {
    var e := RouteAll(p, done, origins);
    (e.after, sent + SerializedAll(Encodings(e.sent)), started + Starts(p, done, origins))
  }

  lemma AfterNothing(p: Peer, sent: seq<byte>, started: seq<Handing>, origins: nat -> nat)
    requires p.Sound()
    ensures AllFramed([]) && After(p, sent, started, [], origins) == (p, sent, started)
  {
    NothingOnStream();
    assert sent + [] == sent && started + [] == started;
  }

  lemma AfterOneMore(p: Peer, sent: seq<byte>, started: seq<Handing>, done: seq<Message>, m: Message, origins: nat -> nat)
    requires p.Sound() && AllFramed(done) && m.Framed()
    ensures AllFramed(done + [m])
    ensures var (q, s, h) := After(p, sent, started, done, origins);
            && q.Sound()
            && var e := Route(q, m, origins(|done|));
               After(p, sent, started, done + [m], origins)
               == (e.after, s + SerializedAll(Encodings(e.sent)), h + StartOf(e.after, m))
  {
    hide Route, SerializedAll, Encodings, StartOf;
    assert (done + [m])[..|done|] == done;
    var before := RouteAll(p, done, origins);
    var last := Route(before.after, m, origins(|done|));
    assert RouteAll(p, done + [m], origins) == Effect(last.after, before.sent + last.sent);
    OnStreamTogether(sent, before.sent, last.sent);
    assert started + (Starts(p, done, origins) + StartOf(last.after, m))
        == started + Starts(p, done, origins) + StartOf(last.after, m);
  }

  lemma ModelIsSound(m: ChannelManager)
    requires m.Inv(Settled)
    ensures m.model.Sound()
  {
    AgreeingIsSound(m, m.model, m.Shown(), Settled);
  }

  class Client {
    const socket: Socket
    const manager: ChannelManager

    constructor (socket: Socket, manager: ChannelManager)
      ensures this.socket == socket && this.manager == manager
    {
      this.socket, this.manager := socket, manager;
    }
  }

  ghost function Handings(handed: seq<InternalRequest>): seq<Handing> {
    seq(|handed|, i requires 0 <= i < |handed| => Handing(handed[i].protocol, handed[i].channel.serial))
  }

  lemma HandingsAppend(handed: seq<InternalRequest>, r: InternalRequest)
    ensures Handings(handed + [r]) == Handings(handed) + [Handing(r.protocol, r.channel.serial)]
  {
  }

  /** The channel routing returns is the one the model has in the slot. */
  lemma ReturnedChannel(m: ChannelManager, message: Message, channel: InternalChannel)
    requires m.Inv(Settled) && message.Framed() && Within(Parse(message), m.max)
    requires Parse(message).Known? && Parse(message).frame.Request?
    requires m.responseChannel[Parse(message).frame.id] == channel
    ensures channel.id == Parse(message).frame.id < m.responseChannel.Length && m.responseChannel[channel.id] == channel
    ensures channel.role == Responding && channel.manager == m && m.Made(channel)
    ensures StartOf(m.model, message) == [Handing(ReportedProtocol(message.protocol, Parse(message)), channel.serial)]
  {
    hide Agrees, Views, Parse;
    AboutSlot(m, m.model, m.Shown(), Settled, Responding, Parse(message).frame.id);
  }

  /** Each request owns a channel among `responses`. */
  ghost predicate OwnChannels(m: ChannelManager, responses: seq<InternalChannel>, handed: seq<InternalRequest>) {
    forall j | 0 <= j < |handed| ::
      var c := handed[j].channel;
      c.role == Responding && c.manager == m && c.serial < |responses| && responses[c.serial] == c
  }

  lemma OwnNothing(m: ChannelManager, responses: seq<InternalChannel>, handed: seq<InternalRequest>)
    ensures OwnChannels(m, responses, handed[|handed|..])
  {
  }

  lemma OwnMore(m: ChannelManager, before: seq<InternalChannel>, responses: seq<InternalChannel>, first: seq<InternalRequest>,
                more: seq<InternalRequest>, n: nat)
    requires before <= responses && n <= |first| && first <= more
    requires OwnChannels(m, before, first[n..]) && OwnChannels(m, responses, more[|first|..])
    ensures OwnChannels(m, responses, more[n..])
  {
    forall j | 0 <= j < |more| - n
      ensures var c := more[n..][j].channel;
              c.role == Responding && c.manager == m && c.serial < |responses| && responses[c.serial] == c
    {
      if j < |first| - n {
        assert more[n..][j] == first[n..][j];
      } else {
        assert more[n..][j] == more[|first|..][j + n - |first|];
      }
    }
  }

  class Connector {
    var clients: map<u32, Client>
    /** The requests handlers were started with, and the addresses reported as disconnected. */
    var handed: seq<InternalRequest>
    var disconnected: seq<u32>

    constructor ()
      ensures clients == map[] && handed == [] && disconnected == []
    {
      clients, handed, disconnected := map[], [], [];
    }

    /** The locked part of `addClient`: a known address is refused and its client kept. */
    method AddClient(address: u32, client: Client) returns (ok: bool)
      modifies this`clients
      ensures ok == (address !in old(clients))
      ensures clients == if ok then old(clients)[address := client] else old(clients)
    {
      if address in clients {
        return false;
      }
      clients := clients[address := client];
      return true;
    }

    /** `sendRequest`: a fresh channel on the client's manager, owned by the request it returns. A known address
        and no request stand for a call that still waits for a free id. */
    method SendRequest(address: u32) returns (ok: bool, request: InternalRequest?)
      requires address in clients ==> clients[address].manager.Inv(Settled)
      modifies if address in clients then {clients[address].manager, clients[address].manager.requestChannel} else {}
      ensures ok == (address in clients)
      ensures request == null <==> !ok || old(clients[address].manager.freeList) == []
      ensures ok ==>
                var m := clients[address].manager;
                && m.Inv(Settled) && m.model == Perform(old(m.model), CallCreate).after
                && (request == null ==> unchanged(m) && unchanged(m.requestChannel))
      ensures request != null ==>
                var m := clients[address].manager;
                && fresh(request) && fresh(request.channel) && request.protocol == 0
                && m.requests == old(m.requests) + [request.channel]
                && request.channel.manager == m && m.Made(request.channel) && !request.channel.isClosed
    {
      hide Agrees, ChannelManager.Inv, Perform;
      if address !in clients {
        return false, null;
      }
      var manager := clients[address].manager;
      var channel := manager.CreateRequestChannel();
      if channel == null {
        return true, null;
      }
      request := new InternalRequest(0, channel);
      return true, request;
    }

    /** One turn of the loop: the message is routed, and if a channel came back a new request owns it and is
        handed to a handler. */
    method HandleMessage(manager: ChannelManager, message: Message, ghost origin: nat)
      requires manager.Inv(Settled) && message.Framed() && Within(Parse(message), manager.max)
      modifies this`handed, manager, manager.socket`sent, manager.requestChannel, manager.responseChannel,
               manager.requests, manager.responses
      ensures manager.Inv(Settled) && manager.requests == old(manager.requests) && old(manager.responses) <= manager.responses
      ensures forall c | c in manager.responses :: c in old(manager.responses) || fresh(c)
      ensures var e := Route(old(manager.model), message, origin);
              && manager.model == e.after
              && manager.socket.sent == old(manager.socket.sent) + SerializedAll(Encodings(e.sent))
      ensures if Parse(message).Known? && Parse(message).frame.Request? then
                && |handed| == |old(handed)| + 1 && handed[..|old(handed)|] == old(handed)
                && var request := handed[|old(handed)|];
                   && fresh(request) && request.protocol == Parse(message).frame.message.protocol
                   && request.channel == manager.responseChannel[Parse(message).frame.id]
                   && !request.channel.isClosed
              else handed == old(handed)
      ensures old(handed) <= handed && forall j | |old(handed)| <= j < |handed| :: fresh(handed[j])
      ensures Handings(handed) == old(Handings(handed)) + StartOf(manager.model, message)
      ensures OwnChannels(manager, manager.responses, handed[|old(handed)|..])
    {
      hide Agrees, Views, SerializedAll, Encodings, Route, Parse, Within, StartOf, Handings, ChannelManager.Inv;
      var cell := new MessageCell(message);
      var accepted, protocol, channel := manager.ForwardMessage(cell, origin);
      if channel != null {
        ReturnedChannel(manager, message, channel);
        var request := new InternalRequest(protocol, channel);
        HandingsAppend(handed, request);
        handed := handed + [request];
      } else {
        StartsNothing(manager.model, message);
        assert Handings(handed) + [] == Handings(handed);
      }
    }

    /** One read, and the turn for its message if it succeeds. */
    method ReadAndHandle(manager: ChannelManager, grant: Grant, ghost origin: nat) returns (read: bool, message: Message)
      requires manager.Inv(Settled)
      requires var r := ReadFrom(manager.socket.incoming, grant); r.Got? ==> Within(Parse(r.message), manager.max)
      modifies this`handed, manager, manager.socket, manager.requestChannel, manager.responseChannel,
               manager.requests, manager.responses
      ensures var r := ReadFrom(old(manager.socket.incoming), grant);
              read == r.Got? && manager.socket.incoming == r.rest && (read ==> message == r.message && message.Framed())
      ensures manager.Inv(Settled) && manager.requests == old(manager.requests) && old(manager.responses) <= manager.responses
      ensures forall c | c in manager.responses :: c in old(manager.responses) || fresh(c)
      ensures !read ==> manager.model == old(manager.model) && manager.socket.sent == old(manager.socket.sent)
                        && handed == old(handed) && manager.responses == old(manager.responses)
      ensures read ==>
                var e := Route(old(manager.model), message, origin);
                && manager.model == e.after
                && manager.socket.sent == old(manager.socket.sent) + SerializedAll(Encodings(e.sent))
                && Handings(handed) == old(Handings(handed)) + StartOf(e.after, message)
      ensures old(handed) <= handed && forall j | |old(handed)| <= j < |handed| :: fresh(handed[j])
      ensures OwnChannels(manager, manager.responses, handed[|old(handed)|..])
    {
      hide Agrees, Views, SerializedAll, Encodings, ReadFrom, Route, Parse, Within, StartOf, Handings, OwnChannels,
           ChannelManager.Inv;
      ReadShrinks(manager.socket.incoming, grant);
      read, message := manager.socket.ReadMessage(grant);
      if read {
        HandleMessage(manager, message, origin);
      } else {
        OwnNothing(manager, manager.responses, handed);
      }
    }

    /** The read loop of a client's thread, alone. `written` is all the far end ever wrote; the stream may
        have been cut anywhere, and each read may return as little as `grants` allows. What is routed is a
        prefix of what was written, up to the first bad read. */
    method ReadLoop(manager: ChannelManager, grants: nat -> Grant, ghost written: seq<Message>, ghost origins: nat -> nat)
      requires manager.Inv(Settled) && AllFramed(written) && AllWithin(written, manager.max)
      requires manager.socket.incoming <= SerializedAll(written)
      modifies this`handed, manager, manager.socket, manager.requestChannel, manager.responseChannel,
               manager.requests, manager.responses
      ensures manager.Inv(Settled) && old(manager.model).Sound()
      ensures var ms := ReadAll(old(manager.socket.incoming), grants, 0);
              && ms <= written && AllFramed(ms)
              && (manager.model, manager.socket.sent, Handings(handed))
                   == After(old(manager.model), old(manager.socket.sent), old(Handings(handed)), ms, origins)
      ensures old(handed) <= handed && OwnChannels(manager, manager.responses, handed[|old(handed)|..])
      ensures forall j | |old(handed)| <= j < |handed| :: fresh(handed[j])
    {
      hide Agrees, Views, SerializedAll, Encodings, ReadAll, ReadFrom, Route, After, StartOf, Parse, AllFramed, Within, AllWithin,
           RouteAll, Starts, Handings, OwnChannels, Peer.Sound, ChannelManager.Inv;
      var socket := manager.socket;
      ghost var p, sent0, started0, stream := manager.model, socket.sent, Handings(handed), socket.incoming;
      ModelIsSound(manager);
      ShortReadsNeverMisframe(written, stream, grants, 0);
      ghost var all := ReadAll(stream, grants, 0);
      ghost var done: seq<Message> := [];
      var i := 0;
      AfterNothing(p, sent0, started0, origins);
      OwnNothing(manager, manager.responses, handed);
      while true
        invariant manager.Inv(Settled)
        invariant done + ReadAll(socket.incoming, grants, i) == all && |done| == i && AllFramed(done)
        invariant (manager.model, socket.sent, Handings(handed)) == After(p, sent0, started0, done, origins)
        invariant manager.requests == old(manager.requests)
        invariant forall c | c in manager.responses :: c in old(manager.responses) || fresh(c)
        invariant old(handed) <= handed && OwnChannels(manager, manager.responses, handed[|old(handed)|..])
        invariant forall j | |old(handed)| <= j < |handed| :: fresh(handed[j])
        decreases |socket.incoming|
      {
        ReadAllNext(socket.incoming, grants, i);
        ReadShrinks(socket.incoming, grants(i));
        ghost var r := ReadFrom(socket.incoming, grants(i));
        if r.Got? {
          PrefixWithin(written, done, r.message, ReadAll(r.rest, grants, i + 1), manager.max);
          AfterOneMore(p, sent0, started0, done, r.message, origins);
        }
        assert forall k | 0 <= k < |manager.responses| :: manager.responses[k] in manager.responses;
        ghost var responses, first := manager.responses, handed;
        var read, message := ReadAndHandle(manager, grants(i), origins(i));
        if !read {
          break;
        }
        OwnMore(manager, responses, manager.responses, first, handed, |old(handed)|);
        done := done + [message];
        i := i + 1;
      }
      assert done + [] == done;
    }

    /** `runClient`: the loop, and when it ends the socket is closed and the client erased and reported. */
    method RunClient(address: u32, grants: nat -> Grant, ghost written: seq<Message>, ghost origins: nat -> nat)
      returns (ok: bool)
      requires address in clients ==>
                 var m := clients[address].manager;
                 && m.Inv(Settled) && AllFramed(written) && AllWithin(written, m.max)
                 && m.socket.incoming <= SerializedAll(written)
      modifies this
      modifies if address in clients then
                 var m := clients[address].manager;
                 {m, m.socket, m.requestChannel, m.responseChannel}
                 + (set c | c in m.requests) + (set c | c in m.responses)
               else {}
      ensures ok == (address in old(clients))
      ensures !ok ==> unchanged(this)
      ensures ok ==>
                var m := old(clients)[address].manager;
                var ms := ReadAll(old(m.socket.incoming), grants, 0);
                && m.Inv(Settled) && old(m.model).Sound() && ms <= written && AllFramed(ms)
                && (m.model, m.socket.sent, Handings(handed))
                     == After(old(m.model), old(m.socket.sent), old(Handings(handed)), ms, origins)
                && old(handed) <= handed && OwnChannels(m, m.responses, handed[|old(handed)|..])
                && m.socket.closed
                && clients == old(clients) - {address} && disconnected == old(disconnected) + [address]
    {
      hide Agrees, Views, SerializedAll, ReadAll, After, Handings, OwnChannels, ChannelManager.Inv;
      if address !in clients {
        return false;
      }
      var manager := clients[address].manager;
      ReadLoop(manager, grants, written, origins);
      manager.socket.CloseSocket();
      clients := clients - {address};
      disconnected := disconnected + [address];
      return true;
    }
  }

  lemma ReadShrinks(stream: seq<byte>, g: Grant)
    ensures ReadFrom(stream, g).Got? ==> ReadFrom(stream, g).message.Framed() && |ReadFrom(stream, g).rest| < |stream|
  {
  }

  lemma PrefixWithin(written: seq<Message>, done: seq<Message>, m: Message, rest: seq<Message>, max: nat)
    requires AllFramed(written) && AllWithin(written, max) && done + ([m] + rest) <= written && m.Framed()
    ensures Within(Parse(m), max)
    ensures done + [m] + rest == done + ([m] + rest)
  {
    assert written[|done|] == (done + ([m] + rest))[|done|] == m;
  }

  lemma StartsNothing(after: Peer, m: Message)
    requires m.Framed() && !(Parse(m).Known? && Parse(m).frame.Request?)
    ensures StartOf(after, m) == []
  {
  }
}
