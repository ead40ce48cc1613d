/** The connection as it really runs: channels serialize their frames into two byte streams, and each peer's
    reader takes bytes with reads of any length, unwraps and routes. It performs exactly steps of the
    message-level connection until a short read ends it. */
module ByteStream {
  import opened Bytes
  import opened Messages
  import opened Frames
  import opened Framing
  import opened Peers
  import opened Invariant
  import opened Replies
  import Duplex

  /** One direction. `origins` remembers which channel wrote each frame on the stream; it is history and no
      routing decision looks at it. `reading` is false once the reader at the far end met an error. */
  datatype Stream = Stream(bytes: seq<byte>, origins: seq<nat>, reading: bool)

  datatype Link = Link(a: Peer, b: Peer, ab: Stream, ba: Stream)

  datatype Event =
    | CallAtA(call: Call)
    | CallAtB(call: Call)
    | ReadAtA(grant: Grant)
    | ReadAtB(grant: Grant)

  function Origins(packets: seq<Packet>): seq<nat> {
    seq(|packets|, i requires 0 <= i < |packets| => packets[i].origin)
  }

  function Put(s: Stream, packets: seq<Packet>): Stream {
    s.(bytes := s.bytes + SerializedAll(Encodings(packets)), origins := s.origins + Origins(packets))
  }

  ghost predicate Sound(l: Link) {
    l.a.Sound() && l.b.Sound()
  }

  /** One turn of the read loop of a peer: the peer afterwards, what is left of the stream, what it wrote. */
  function ReadTurn(p: Peer, s: Stream, g: Grant): (Peer, Stream, seq<Packet>)
    requires p.Sound()
  {
    if !s.reading then (p, s, [])
    else
      match ReadFrom(s.bytes, g)
      case Short(rest) => (p, Stream(rest, s.origins, false), [])
      case Got(m, rest) =>
        var origin := if s.origins == [] then 0 else s.origins[0];
        var left := Stream(rest, if s.origins == [] then [] else s.origins[1..], true);
        var e := Route(p, m, origin);
        (e.after, left, e.sent)
  }

  function Step(l: Link, e: Event): Link
    requires Sound(l)
  {
    match e
    case CallAtA(call) => var x := Perform(l.a, call); l.(a := x.after, ab := Put(l.ab, x.sent))
    case CallAtB(call) => var x := Perform(l.b, call); l.(b := x.after, ba := Put(l.ba, x.sent))
    case ReadAtA(g) => var (p, s, sent) := ReadTurn(l.a, l.ba, g); Link(p, l.b, Put(l.ab, sent), s)
    case ReadAtB(g) => var (p, s, sent) := ReadTurn(l.b, l.ab, g); Link(l.a, p, s, Put(l.ba, sent))
  }

  lemma StepSound(l: Link, e: Event)
    requires Sound(l)
    ensures Sound(Step(l, e))
  {
    hide Perform, Forward, ReadFrom, Parse;
    match e
    case CallAtA(call) => PerformSound(l.a, call);
    case CallAtB(call) => PerformSound(l.b, call);
    case ReadAtA(g) => ReadTurnSound(l.a, l.ba, g);
    case ReadAtB(g) => ReadTurnSound(l.b, l.ab, g);
  }

  lemma ReadTurnSound(p: Peer, s: Stream, g: Grant)
    requires p.Sound()
    ensures ReadTurn(p, s, g).0.Sound()
  {
    hide Forward, ReadFrom, Parse;
    if s.reading {
      match ReadFrom(s.bytes, g)
      case Short(rest) =>
      case Got(m, rest) =>
        if Parse(m).Known? {
          ForwardSound(p, Packet(Parse(m).frame, if s.origins == [] then 0 else s.origins[0]));
        }
    }
  }

  function Run(l: Link, events: seq<Event>): Link
    requires Sound(l)
    decreases |events|
  {
    if events == [] then l
    else
      StepSound(l, events[0]);
      Run(Step(l, events[0]), events[1..])
  }

  function Initial(max: nat): (l: Link)
    requires max < U32_LIMIT
    ensures Sound(l)
  {
    Link(InitialPeer(max), InitialPeer(max), Stream([], [], true), Stream([], [], true))
  }

  // ---- Refinement ----

  /** While it is being read, the stream holds exactly the frames of the message-level wire. */
  ghost predicate Carries(s: Stream, wire: seq<Packet>) {
    s.reading ==> s.bytes == SerializedAll(Encodings(wire)) && s.origins == Origins(wire)
  }

  ghost predicate Matches(l: Link, c: Duplex.Connection) {
    && l.a == c.a && l.b == c.b
    && Carries(l.ab, c.ab) && Carries(l.ba, c.ba)
  }

  lemma PutCarries(s: Stream, wire: seq<Packet>, packets: seq<Packet>)
    requires Carries(s, wire)
    ensures Carries(Put(s, packets), wire + packets)
  {
    hide SerializedAll, Serialized, Encode;
    SerializedAllAppend(Encodings(wire), Encodings(packets));
    assert Encodings(wire + packets) == Encodings(wire) + Encodings(packets);
    assert Origins(wire + packets) == Origins(wire) + Origins(packets);
  }

  /** A read that succeeds takes exactly the next frame of the wire, and it is routed as that frame. */
  lemma ReadTakesNextFrame(s: Stream, wire: seq<Packet>, g: Grant)
    requires s.reading && Carries(s, wire) && ReadFrom(s.bytes, g).Got?
    ensures wire != []
    ensures var r := ReadFrom(s.bytes, g);
            && Parse(r.message) == Known(wire[0].frame)
            && s.origins != [] && s.origins[0] == wire[0].origin
            && Carries(Stream(r.rest, s.origins[1..], true), wire[1..])
  {
    hide Parse, Encode, Serialized;
    if wire != [] {
      var ms := Encodings(wire);
      assert ms[1..] == Encodings(wire[1..]);
      assert s.bytes == Serialized(ms[0]) + SerializedAll(ms[1..]);
      ReadOne(ms[0], SerializedAll(ms[1..]), g);
      ParseEncode(wire[0].frame);
      assert Origins(wire)[1..] == Origins(wire[1..]);
    }
  }

  /** What a turn of the reader is at message level: the routing of one frame, or nothing. */
  function Routed(l: Link, e: Event): Option<Duplex.Event> {
    match e
    case CallAtA(call) => Some(Duplex.CallAtA(call))
    case CallAtB(call) => Some(Duplex.CallAtB(call))
    case ReadAtA(g) => if l.ba.reading && ReadFrom(l.ba.bytes, g).Got? then Some(Duplex.RouteAtA) else None
    case ReadAtB(g) => if l.ab.reading && ReadFrom(l.ab.bytes, g).Got? then Some(Duplex.RouteAtB) else None
  }

  function Advance(c: Duplex.Connection, e: Option<Duplex.Event>): Duplex.Connection
    requires Duplex.Sound(c)
  {
    if e.None? then c else Duplex.Step(c, e.value)
  }

  lemma ReadAtBRefines(l: Link, c: Duplex.Connection, g: Grant)
    requires Sound(l) && Matches(l, c)
    ensures Matches(Step(l, ReadAtB(g)), Advance(c, Routed(l, ReadAtB(g))))
  {
    hide Parse, ReadFrom, SerializedAll, Forward, Encode;
    if l.ab.reading && ReadFrom(l.ab.bytes, g).Got? {
      ReadTakesNextFrame(l.ab, c.ab, g);
      PutCarries(l.ba, c.ba, Forward(l.b, c.ab[0]).sent);
    } else {
      PutNothing(l.ba);
    }
  }

  lemma ReadAtARefines(l: Link, c: Duplex.Connection, g: Grant)
    requires Sound(l) && Matches(l, c)
    ensures Matches(Step(l, ReadAtA(g)), Advance(c, Routed(l, ReadAtA(g))))
  {
    hide Parse, ReadFrom, SerializedAll, Forward, Encode;
    if l.ba.reading && ReadFrom(l.ba.bytes, g).Got? {
      ReadTakesNextFrame(l.ba, c.ba, g);
      PutCarries(l.ab, c.ab, Forward(l.a, c.ba[0]).sent);
    } else {
      PutNothing(l.ab);
    }
  }

  lemma PutNothing(s: Stream)
    ensures Put(s, []) == s
  {
    assert Encodings([]) == [] && Origins([]) == [];
    assert s.bytes + [] == s.bytes && s.origins + [] == s.origins;
  }

  lemma StepRefines(l: Link, c: Duplex.Connection, e: Event)
    requires Sound(l) && Matches(l, c)
    ensures Matches(Step(l, e), Advance(c, Routed(l, e)))
    ensures e.CallAtA? ==> Matches(Step(l, e), Duplex.Step(c, Duplex.CallAtA(e.call)))
    ensures e.CallAtB? ==> Matches(Step(l, e), Duplex.Step(c, Duplex.CallAtB(e.call)))
  {
    hide Parse, ReadFrom, SerializedAll, Forward, Encode, Perform, ReadTurn;
    match e
    case CallAtA(call) => PutCarries(l.ab, c.ab, Perform(l.a, call).sent);
    case CallAtB(call) => PutCarries(l.ba, c.ba, Perform(l.b, call).sent);
    case ReadAtA(g) => ReadAtARefines(l, c, g);
    case ReadAtB(g) => ReadAtBRefines(l, c, g);
  }

  function RoutedInRun(l: Link, events: seq<Event>): seq<Duplex.Event>
    requires Sound(l)
    decreases |events|
  {
    if events == [] then []
    else
      StepSound(l, events[0]);
      (if Routed(l, events[0]).None? then [] else [Routed(l, events[0]).value])
      + RoutedInRun(Step(l, events[0]), events[1..])
  }

  lemma AdvanceCons(c: Duplex.Connection, e: Option<Duplex.Event>, rest: seq<Duplex.Event>)
    requires Duplex.Sound(c)
    ensures Duplex.Sound(Advance(c, e))
    ensures Duplex.Run(c, (if e.None? then [] else [e.value]) + rest) == Duplex.Run(Advance(c, e), rest)
  {
    hide Duplex.Step;
    if e.Some? {
      Duplex.StepSound(c, e.value);
      assert ([e.value] + rest)[1..] == rest;
    } else {
      assert [] + rest == rest;
    }
  }

  lemma {:induction false} RunRefines(l: Link, c: Duplex.Connection, events: seq<Event>)
    requires Sound(l) && Duplex.Sound(c) && Matches(l, c)
    ensures Matches(Run(l, events), Duplex.Run(c, RoutedInRun(l, events)))
    decreases |events|
  {
    hide Step, Matches, Advance, Routed;
    if events != [] {
      StepSound(l, events[0]);
      StepRefines(l, c, events[0]);
      AdvanceCons(c, Routed(l, events[0]), RoutedInRun(Step(l, events[0]), events[1..]));
      RunRefines(Step(l, events[0]), Advance(c, Routed(l, events[0])), events[1..]);
    }
  }

  lemma InitialMatches(max: nat)
    requires max < U32_LIMIT
    ensures Matches(Initial(max), Duplex.Initial(max))
  {
    assert Encodings([]) == [] && Origins([]) == [];
  }

  ghost predicate IsConnectionRun(max: nat, l: Link)
    requires max < U32_LIMIT
  {
    exists events :: Matches(l, Duplex.Run(Duplex.Initial(max), events))
  }

  /** Whatever lengths the reads return and whatever protocol numbers the payloads carry, a run over byte
      streams leaves both peers where some run of the message-level connection does, with the same frames
      on every stream still being read. */
  lemma BytesRefineFrames(max: nat, events: seq<Event>)
    requires max < U32_LIMIT
    ensures IsConnectionRun(max, Run(Initial(max), events))
  {
    hide Run, Duplex.Run, Matches, RoutedInRun;
    InitialMatches(max);
    RunRefines(Initial(max), Duplex.Initial(max), events);
    assert Matches(Run(Initial(max), events), Duplex.Run(Duplex.Initial(max), RoutedInRun(Initial(max), events)));
  }

  /** Every message a reader gets off a stream is one of the four frames with an id inside the tables: the
      undefined and error branches of routing are never reached between two peers of this code. */
  lemma EveryReadIsRoutable(max: nat, events: seq<Event>, atB: bool, g: Grant)
    requires max < U32_LIMIT
    requires var l := Run(Initial(max), events);
             var s := if atB then l.ab else l.ba;
             s.reading && ReadFrom(s.bytes, g).Got?
    ensures var l := Run(Initial(max), events);
            var incoming := Parse(ReadFrom((if atB then l.ab else l.ba).bytes, g).message);
            incoming.Known? && incoming.frame.id < max
  {
    hide Run, Parse, ReadFrom, SerializedAll, Encodings;
    BytesRefineFrames(max, events);
    var l := Run(Initial(max), events);
    var es :| Matches(l, Duplex.Run(Duplex.Initial(max), es));
    var c := Duplex.Run(Duplex.Initial(max), es);
    var wire := if atB then c.ab else c.ba;
    ReadTakesNextFrame(if atB then l.ab else l.ba, wire, g);
    Duplex.EveryIdInRange(max, es);
    assert Duplex.IdsBelow(wire, max);
  }

  lemma EmptyStreamEmptyWire(wire: seq<Packet>)
    ensures wire != [] ==> |SerializedAll(Encodings(wire))| >= HEADER_LENGTH
  {
  }

  /** End to end over bytes, for the sessions of either peer: what the far end's response channels took
      because of session s is a prefix of what s wrote, and all of it once the stream is read to its end. */
  lemma EndToEndDelivery(max: nat, events: seq<Event>, atA: bool, s: nat)
    requires max < U32_LIMIT
    requires s < |OpeningPeer(Run(Initial(max), events), atA).requester.table.log|
    ensures var l := Run(Initial(max), events);
            var written := OpeningPeer(l, atA).requester.table.log[s].written;
            var taken := Delivered(AnsweringPeer(l, atA).responder.log, s);
            && taken <= written
            && (Outgoing(l, atA).reading && Outgoing(l, atA).bytes == [] ==> taken == written)
  {
    hide Run, SerializedAll, Encodings, Delivered;
    BytesRefineFrames(max, events);
    var l := Run(Initial(max), events);
    var es :| Matches(l, Duplex.Run(Duplex.Initial(max), es));
    var c := Duplex.Run(Duplex.Initial(max), es);
    Duplex.ConnectionConserves(max, es, s, 0);
    EmptyStreamEmptyWire(if atA then c.ab else c.ba);
  }

  /** The peer whose sessions are looked at, the other one, and the streams from and to it. */
  function OpeningPeer(l: Link, atA: bool): Peer {
    if atA then l.a else l.b
  }

  function AnsweringPeer(l: Link, atA: bool): Peer {
    if atA then l.b else l.a
  }

  function Outgoing(l: Link, atA: bool): Stream {
    if atA then l.ab else l.ba
  }

  function Returning(l: Link, atA: bool): Stream {
    if atA then l.ba else l.ab
  }

  function CreateAt(atA: bool): Event {
    if atA then CallAtA(CallCreate) else CallAtB(CallCreate)
  }

  /** Over bytes, session s has heard only response channels it opened itself, a prefix of what they wrote,
      and while it is live all of it once the returning stream is read to its end. */
  ghost predicate HearsItself(l: Link, atA: bool, s: nat) {
    var t, log := OpeningPeer(l, atA).requester.table, AnsweringPeer(l, atA).responder.log;
    && s < |t.log|
    && (forall j | 0 <= j < |t.log[s].taken| ::
          t.log[s].taken[j].origin < |log| && OpenedBy(log[t.log[s].taken[j].origin], s))
    && Payloads(t.log[s].taken) <= Replied(log, s)
    && (t.Live(s) && Returning(l, atA).reading && Returning(l, atA).bytes == [] ==>
          Payloads(t.log[s].taken) == Replied(log, s))
  }

  lemma FaithfulOverBytes(max: nat, l: Link, c: Duplex.Connection, atA: bool, s: nat)
    requires Matches(l, c) && Faithful(max, Duplex.OpenedBy(c, atA), s)
    ensures HearsItself(l, atA, s)
  {
    hide SerializedAll, Encodings, Replied, Payloads, Faithful;
    EmptyStreamEmptyWire(if atA then c.ba else c.ab);
    FaithfulHears(max, Duplex.OpenedBy(c, atA), s);
  }

  /** The replies over bytes: a session either peer creates on an id that is clean on the wires the streams
      carry hears only itself, whatever happens on the link afterwards. */
  lemma CleanSessionsHearThemselves(max: nat, before: seq<Event>, after: seq<Event>, atA: bool)
    requires max < U32_LIMIT
    requires Duplex.CleanNext(Duplex.OpenedBy(Duplex.Run(Duplex.Initial(max), RoutedInRun(Initial(max), before)), atA))
    ensures var l := Run(Initial(max), before);
            && Sound(l) && Sound(Step(l, CreateAt(atA)))
            && HearsItself(Run(Step(l, CreateAt(atA)), after), atA, |OpeningPeer(l, atA).requester.table.log|)
  {
    hide Run, Duplex.Run, RoutedInRun, Step, Duplex.Step, Faithful, HearsItself;
    InitialMatches(max);
    var l, c := Run(Initial(max), before), Duplex.Run(Duplex.Initial(max), RoutedInRun(Initial(max), before));
    RunSound(Initial(max), before);
    RunRefines(Initial(max), Duplex.Initial(max), before);
    var e := CreateAt(atA);
    StepSound(l, e);
    StepRefines(l, c, e);
    Duplex.CleanSessionsStayFaithful(max, RoutedInRun(Initial(max), before), RoutedInRun(Step(l, e), after), atA);
    assert Advance(c, Routed(l, e)) == Duplex.Step(c, Duplex.CreateAt(atA));
    RunRefines(Step(l, e), Duplex.Step(c, Duplex.CreateAt(atA)), after);
    FaithfulOverBytes(max, Run(Step(l, e), after),
                      Duplex.Run(Duplex.Step(c, Duplex.CreateAt(atA)), RoutedInRun(Step(l, e), after)), atA,
                      |OpeningPeer(l, atA).requester.table.log|);
  }

  lemma {:induction false} RunSound(l: Link, events: seq<Event>)
    requires Sound(l)
    ensures Sound(Run(l, events))
    decreases |events|
  {
    hide Step;
    if events != [] {
      StepSound(l, events[0]);
      RunSound(Step(l, events[0]), events[1..]);
    }
  }

  // ---- And back: every connection run is a run over bytes ----

  const FULL: Grant := Grant(HEADER_LENGTH, U32_LIMIT)

  function AsBytes(e: Duplex.Event): Event {
    match e
    case CallAtA(call) => CallAtA(call)
    case CallAtB(call) => CallAtB(call)
    case RouteAtA => ReadAtA(FULL)
    case RouteAtB => ReadAtB(FULL)
  }

  /** A reader with nothing to route. */
  predicate Waits(c: Duplex.Connection, e: Duplex.Event) {
    (e.RouteAtA? && c.ba == []) || (e.RouteAtB? && c.ab == [])
  }

  ghost predicate BothReading(l: Link) {
    l.ab.reading && l.ba.reading
  }

  lemma FullReadGets(s: Stream, wire: seq<Packet>)
    requires s.reading && Carries(s, wire) && wire != []
    ensures ReadFrom(s.bytes, FULL).Got?
  {
    hide Encode, Serialized, ReadFrom;
    var ms := Encodings(wire);
    FirstSerialized(ms);
    ReadOne(ms[0], SerializedAll(ms[1..]), FULL);
  }

  /** With reads that return all they ask for, a routing step is one turn of the reader, and it reads on. */
  lemma StepRealised(l: Link, c: Duplex.Connection, e: Duplex.Event)
    requires Sound(l) && Matches(l, c) && BothReading(l) && !Waits(c, e)
    ensures Matches(Step(l, AsBytes(e)), Duplex.Step(c, e)) && BothReading(Step(l, AsBytes(e)))
  {
    hide Parse, ReadFrom, SerializedAll, Forward, Encode, Perform, Encodings;
    match e
    case CallAtA(call) => StepRefines(l, c, CallAtA(call));
    case CallAtB(call) => StepRefines(l, c, CallAtB(call));
    case RouteAtA => FullReadGets(l.ba, c.ba); ReadAtARefines(l, c, FULL);
    case RouteAtB => FullReadGets(l.ab, c.ab); ReadAtBRefines(l, c, FULL);
  }

  /** The calls of a connection run, with a full read for each routing of a frame. */
  function Realising(c: Duplex.Connection, es: seq<Duplex.Event>): seq<Event>
    requires Duplex.Sound(c)
    decreases |es|
  {
    if es == [] then []
    else
      Duplex.StepSound(c, es[0]);
      (if Waits(c, es[0]) then [] else [AsBytes(es[0])]) + Realising(Duplex.Step(c, es[0]), es[1..])
  }

  lemma RunCons(l: Link, e: Event, rest: seq<Event>)
    requires Sound(l)
    ensures Sound(Step(l, e)) && Run(l, [e] + rest) == Run(Step(l, e), rest)
  {
    hide Step;
    StepSound(l, e);
    assert ([e] + rest)[1..] == rest;
  }

  lemma {:induction false} RunRealised(l: Link, c: Duplex.Connection, es: seq<Duplex.Event>)
    requires Sound(l) && Duplex.Sound(c) && Matches(l, c) && BothReading(l)
    ensures Matches(Run(l, Realising(c, es)), Duplex.Run(c, es)) && BothReading(Run(l, Realising(c, es)))
    decreases |es|
  {
    hide Step, Duplex.Step, Matches, AsBytes, BothReading, Waits;
    if es != [] {
      Duplex.StepSound(c, es[0]);
      var c' := Duplex.Step(c, es[0]);
      var rest := Realising(c', es[1..]);
      if Waits(c, es[0]) {
        NothingToRoute(c, es[0]);
        assert [] + rest == rest;
        RunRealised(l, c', es[1..]);
      } else {
        StepRealised(l, c, es[0]);
        RunCons(l, AsBytes(es[0]), rest);
        RunRealised(Step(l, AsBytes(es[0])), c', es[1..]);
      }
    }
  }

  lemma NothingToRoute(c: Duplex.Connection, e: Duplex.Event)
    requires Duplex.Sound(c) && Waits(c, e)
    ensures Duplex.Step(c, e) == c
  {
  }

  /** Whatever the connection can do frame by frame it does over bytes, with both readers going on: together
      with BytesRefineFrames, the two have the same reachable peers and the same frames on live streams. */
  lemma FramesAreRealised(max: nat, es: seq<Duplex.Event>)
    requires max < U32_LIMIT
    ensures exists events :: Matches(Run(Initial(max), events), Duplex.Run(Duplex.Initial(max), es))
                             && BothReading(Run(Initial(max), events))
  {
    hide Run, Duplex.Run, Matches, Realising;
    InitialMatches(max);
    RunRealised(Initial(max), Duplex.Initial(max), es);
  }

  // ---- A reader that met an error ----

  /** From p to q nothing was pushed into any channel, and no channel was made for an incoming Request. */
  ghost predicate HeardNothing(p: Peer, q: Peer) {
    && |q.responder.log| == |p.responder.log|
    && (forall k | 0 <= k < |p.responder.log| :: q.responder.log[k].taken == p.responder.log[k].taken)
    && |p.requester.table.log| <= |q.requester.table.log|
    && (forall s | 0 <= s < |q.requester.table.log| ::
          q.requester.table.log[s].taken == if s < |p.requester.table.log| then p.requester.table.log[s].taken else [])
  }

  lemma CallsHearNothing(p: Peer, call: Call)
    ensures HeardNothing(p, Perform(p, call).after)
  {
  }

  lemma HeardNothingStill(p: Peer, q: Peer, r: Peer)
    requires HeardNothing(p, q) && HeardNothing(q, r)
    ensures HeardNothing(p, r)
  {
  }

  lemma DeafStep(l: Link, e: Event, atA: bool)
    requires Sound(l) && !Returning(l, atA).reading
    ensures !Returning(Step(l, e), atA).reading && HeardNothing(OpeningPeer(l, atA), OpeningPeer(Step(l, e), atA))
  {
    hide Perform, ReadFrom, Forward, Parse, SerializedAll, Encodings;
    match e
    case CallAtA(call) => CallsHearNothing(l.a, call);
    case CallAtB(call) => CallsHearNothing(l.b, call);
    case ReadAtA(_) =>
    case ReadAtB(_) =>
  }

  lemma {:induction false} DeafRun(l: Link, events: seq<Event>, atA: bool)
    requires Sound(l) && !Returning(l, atA).reading
    ensures !Returning(Run(l, events), atA).reading && HeardNothing(OpeningPeer(l, atA), OpeningPeer(Run(l, events), atA))
    decreases |events|
  {
    hide Step, Returning, OpeningPeer, HeardNothing;
    if events == [] {
      HeardNothingYet(OpeningPeer(l, atA));
    } else {
      StepSound(l, events[0]);
      DeafStep(l, events[0], atA);
      DeafRun(Step(l, events[0]), events[1..], atA);
      HeardNothingStill(OpeningPeer(l, atA), OpeningPeer(Step(l, events[0]), atA), OpeningPeer(Run(l, events), atA));
    }
  }

  lemma HeardNothingYet(p: Peer)
    ensures HeardNothing(p, p)
  {
  }

  /** The first read that falls short is the last: the peer hears nothing of that stream ever after, whatever
      arrives, while its own calls go on. */
  lemma ShortReadEndsTheReader(l: Link, g: Grant, after: seq<Event>, atA: bool)
    requires Sound(l) && ReadFrom(Returning(l, atA).bytes, g).Short?
    ensures var read := if atA then ReadAtA(g) else ReadAtB(g);
            && Sound(Step(l, read))
            && HeardNothing(OpeningPeer(l, atA), OpeningPeer(Run(Step(l, read), after), atA))
  {
    hide ReadFrom, Forward, Parse, SerializedAll, Encodings, HeardNothing, Run;
    var read := if atA then ReadAtA(g) else ReadAtB(g);
    StepSound(l, read);
    assert OpeningPeer(Step(l, read), atA) == OpeningPeer(l, atA) && !Returning(Step(l, read), atA).reading;
    DeafRun(Step(l, read), after, atA);
  }
}
