/** The whole connection: both peers open channels and answer, and each wire carries both kinds of traffic.
    Each direction of opening is a run of the one-way protocol that the other cannot disturb. */
module Duplex {
  import opened Bytes
  import opened Messages
  import opened Frames
  import opened Peers
  import OneWay
  import opened Invariant
  import opened Preservation
  import opened Protocol
  import opened Replies

  datatype Connection = Connection(a: Peer, b: Peer, ab: seq<Packet>, ba: seq<Packet>)

  /** Which peer acts: by a call of its users, or by routing the frame at the head of its incoming wire. */
  datatype Event =
    | CallAtA(call: Call)
    | CallAtB(call: Call)
    | RouteAtA
    | RouteAtB

  ghost predicate Sound(c: Connection) {
    c.a.Sound() && c.b.Sound()
  }

  function ByA(c: Connection, e: Effect<Peer>): Connection {
    c.(a := e.after, ab := c.ab + e.sent)
  }

  function ByB(c: Connection, e: Effect<Peer>): Connection {
    c.(b := e.after, ba := c.ba + e.sent)
  }

  function Step(c: Connection, e: Event): Connection
    requires Sound(c)
  {
    match e
    case CallAtA(call) => ByA(c, Perform(c.a, call))
    case CallAtB(call) => ByB(c, Perform(c.b, call))
    case RouteAtA => if c.ba == [] then c else ByA(c.(ba := c.ba[1..]), Forward(c.a, c.ba[0]))
    case RouteAtB => if c.ab == [] then c else ByB(c.(ab := c.ab[1..]), Forward(c.b, c.ab[0]))
  }

  lemma StepSound(c: Connection, e: Event)
    requires Sound(c)
    ensures Sound(Step(c, e))
  {
    match e
    case CallAtA(call) => PerformSound(c.a, call);
    case CallAtB(call) => PerformSound(c.b, call);
    case RouteAtA => if c.ba != [] { ForwardSound(c.a, c.ba[0]); }
    case RouteAtB => if c.ab != [] { ForwardSound(c.b, c.ab[0]); }
  }

  function Run(c: Connection, events: seq<Event>): (r: Connection)
    requires Sound(c)
    ensures Sound(r)
    decreases |events|
  {
    if events == [] then c
    else
      StepSound(c, events[0]);
      Run(Step(c, events[0]), events[1..])
  }

  function Initial(max: nat): (c: Connection)
    requires max < U32_LIMIT
    ensures Sound(c)
  {
    Connection(InitialPeer(max), InitialPeer(max), [], [])
  }

  // ---- Looking at the channels of one opener only ----

  function Outward(wire: seq<Packet>): seq<Packet>
    decreases |wire|
  {
    if wire == [] then []
    else (if wire[0].frame.FromOpener() then [wire[0]] else []) + Outward(wire[1..])
  }

  function Homeward(wire: seq<Packet>): seq<Packet>
    decreases |wire|
  {
    if wire == [] then []
    else (if wire[0].frame.FromOpener() then [] else [wire[0]]) + Homeward(wire[1..])
  }

  lemma OutwardHead(wire: seq<Packet>)
    ensures wire == [] ==> Outward(wire) == []
    ensures wire != [] ==> Outward(wire) == (if wire[0].frame.FromOpener() then [wire[0]] else []) + Outward(wire[1..])
  {
  }

  lemma {:induction false} OutwardAppend(wire: seq<Packet>, more: seq<Packet>)
    ensures Outward(wire + more) == Outward(wire) + Outward(more)
    decreases |wire|
  {
    hide Outward;
    OutwardHead(wire);
    if wire == [] {
      assert wire + more == more;
    } else {
      OutwardHead(wire + more);
      assert (wire + more)[1..] == wire[1..] + more;
      OutwardAppend(wire[1..], more);
    }
  }

  lemma HomewardHead(wire: seq<Packet>)
    ensures wire == [] ==> Homeward(wire) == []
    ensures wire != [] ==> Homeward(wire) == (if wire[0].frame.FromOpener() then [] else [wire[0]]) + Homeward(wire[1..])
  {
  }

  lemma {:induction false} HomewardAppend(wire: seq<Packet>, more: seq<Packet>)
    ensures Homeward(wire + more) == Homeward(wire) + Homeward(more)
    decreases |wire|
  {
    hide Homeward;
    HomewardHead(wire);
    if wire == [] {
      assert wire + more == more;
    } else {
      HomewardHead(wire + more);
      assert (wire + more)[1..] == wire[1..] + more;
      HomewardAppend(wire[1..], more);
    }
  }

  lemma WiresAppend(wire: seq<Packet>, more: seq<Packet>)
    ensures Outward(wire + more) == Outward(wire) + Outward(more)
    ensures Homeward(wire + more) == Homeward(wire) + Homeward(more)
  {
    OutwardAppend(wire, more);
    HomewardAppend(wire, more);
  }

  /** The channels A opened. */
  function OpenedByA(c: Connection): OneWay.State {
    OneWay.State(c.a.requester, c.b.responder, Outward(c.ab), Homeward(c.ba))
  }

  /** The channels B opened: the same with the peers swapped. */
  function OpenedByB(c: Connection): OneWay.State {
    OpenedByA(Swapped(c))
  }

  function Swapped(c: Connection): Connection {
    Connection(c.b, c.a, c.ba, c.ab)
  }

  function SwappedEvent(e: Event): Event {
    match e
    case CallAtA(call) => CallAtB(call)
    case CallAtB(call) => CallAtA(call)
    case RouteAtA => RouteAtB
    case RouteAtB => RouteAtA
  }

  /** What an event is to the channels A opened: one step, or nothing. */
  function SeenByA(c: Connection, e: Event): Option<OneWay.Action> {
    match e
    case CallAtA(CallCreate) => Some(OneWay.ACreate)
    case CallAtA(CallRequestWrite(s, m)) => Some(OneWay.ARequestWrite(s, m))
    case CallAtA(CallRequestClose(s)) => Some(OneWay.ARequestClose(s))
    case CallAtA(_) => None
    case CallAtB(CallResponseWrite(k, m)) => Some(OneWay.AResponseWrite(k, m))
    case CallAtB(CallResponseClose(k)) => Some(OneWay.AResponseClose(k))
    case CallAtB(_) => None
    case RouteAtB => if c.ab != [] && c.ab[0].frame.FromOpener() then Some(OneWay.ADeliverUp) else None
    case RouteAtA => if c.ba != [] && !c.ba[0].frame.FromOpener() then Some(OneWay.ADeliverDown) else None
  }

  function Advance(st: OneWay.State, a: Option<OneWay.Action>): OneWay.State
    requires OneWay.Routable(st)
  {
    if a.None? then st else OneWay.Step(st, a.value)
  }

  lemma {:induction false} WiresSorted(wire: seq<Packet>)
    ensures forall i | 0 <= i < |Outward(wire)| :: Outward(wire)[i].frame.FromOpener()
    ensures forall i | 0 <= i < |Homeward(wire)| :: !Homeward(wire)[i].frame.FromOpener()
    decreases |wire|
  {
    if wire != [] {
      WiresSorted(wire[1..]);
    }
  }

  lemma ProjectionRoutable(c: Connection)
    requires Sound(c)
    ensures OneWay.Routable(OpenedByA(c))
  {
    WiresSorted(c.ab);
    WiresSorted(c.ba);
  }

  /** Packets of one call all travel in one of the two directions. */
  lemma Sorted(sent: seq<Packet>, outward: bool)
    requires |sent| <= 1 && forall i | 0 <= i < |sent| :: sent[i].frame.FromOpener() == outward
    ensures Outward(sent) == if outward then sent else []
    ensures Homeward(sent) == if outward then [] else sent
  {
    if |sent| == 1 {
      assert sent[1..] == [] && sent == [sent[0]];
    }
  }

  predicate OfOpener(call: Call) {
    call.CallCreate? || call.CallRequestWrite? || call.CallRequestClose?
  }

  lemma CallSends(p: Peer, call: Call)
    ensures var sent := Perform(p, call).sent;
            |sent| <= 1 && forall i | 0 <= i < |sent| :: sent[i].frame.FromOpener() == OfOpener(call)
  {
  }

  /** Routing answers in the other direction of the same opener. */
  lemma RoutingSends(p: Peer, packet: Packet)
    requires p.Sound()
    ensures var sent := Forward(p, packet).sent;
            |sent| <= 1 && forall i | 0 <= i < |sent| :: sent[i].frame.FromOpener() == !packet.frame.FromOpener()
  {
  }

  lemma CallAtAIsSeen(c: Connection, call: Call)
    requires Sound(c)
    ensures OneWay.Routable(OpenedByA(c))
    ensures OpenedByA(Step(c, CallAtA(call))) == Advance(OpenedByA(c), SeenByA(c, CallAtA(call)))
  {
    hide Outward, Homeward, Create, RequestWrite, RequestClose, ResponseWrite, ResponseClose;
    ProjectionRoutable(c);
    CallSends(c.a, call);
    var sent := Perform(c.a, call).sent;
    WiresAppend(c.ab, sent);
    Sorted(sent, OfOpener(call));
    assert Outward(c.ab) + [] == Outward(c.ab);
  }

  lemma CallAtBIsSeen(c: Connection, call: Call)
    requires Sound(c)
    ensures OneWay.Routable(OpenedByA(c))
    ensures OpenedByA(Step(c, CallAtB(call))) == Advance(OpenedByA(c), SeenByA(c, CallAtB(call)))
  {
    hide Outward, Homeward, Create, RequestWrite, RequestClose, ResponseWrite, ResponseClose;
    ProjectionRoutable(c);
    CallSends(c.b, call);
    var sent := Perform(c.b, call).sent;
    WiresAppend(c.ba, sent);
    Sorted(sent, OfOpener(call));
    assert Homeward(c.ba) + [] == Homeward(c.ba);
  }

  lemma RouteAtBIsSeen(c: Connection)
    requires Sound(c)
    ensures OneWay.Routable(OpenedByA(c))
    ensures OpenedByA(Step(c, RouteAtB)) == Advance(OpenedByA(c), SeenByA(c, RouteAtB))
  {
    hide Outward, Homeward, TakeRequest, TakeReply;
    ProjectionRoutable(c);
    if c.ab != [] {
      var p := c.ab[0];
      RoutingSends(c.b, p);
      var sent := Forward(c.b, p).sent;
      WiresAppend(c.ba, sent);
      Sorted(sent, !p.frame.FromOpener());
      WiresAppend([p], c.ab[1..]);
      assert c.ab == [p] + c.ab[1..];
      Sorted([p], p.frame.FromOpener());
      assert Homeward(c.ba) + [] == Homeward(c.ba);
    }
  }

  lemma RouteAtAIsSeen(c: Connection)
    requires Sound(c)
    ensures OneWay.Routable(OpenedByA(c))
    ensures OpenedByA(Step(c, RouteAtA)) == Advance(OpenedByA(c), SeenByA(c, RouteAtA))
  {
    hide Outward, Homeward, TakeRequest, TakeReply;
    ProjectionRoutable(c);
    if c.ba != [] {
      var p := c.ba[0];
      RoutingSends(c.a, p);
      var sent := Forward(c.a, p).sent;
      WiresAppend(c.ab, sent);
      Sorted(sent, !p.frame.FromOpener());
      WiresAppend([p], c.ba[1..]);
      assert c.ba == [p] + c.ba[1..];
      Sorted([p], p.frame.FromOpener());
      assert Outward(c.ab) + [] == Outward(c.ab);
    }
  }

  lemma EventIsSeen(c: Connection, e: Event)
    requires Sound(c)
    ensures OneWay.Routable(OpenedByA(c))
    ensures OpenedByA(Step(c, e)) == Advance(OpenedByA(c), SeenByA(c, e))
  {
    hide Step, Advance, SeenByA, OpenedByA;
    match e
    case CallAtA(call) => CallAtAIsSeen(c, call);
    case CallAtB(call) => CallAtBIsSeen(c, call);
    case RouteAtA => RouteAtAIsSeen(c);
    case RouteAtB => RouteAtBIsSeen(c);
  }

  /** Nothing tells the two peers apart. */
  lemma StepSwapped(c: Connection, e: Event)
    requires Sound(c)
    ensures Step(Swapped(c), SwappedEvent(e)) == Swapped(Step(c, e))
  {
  }

  // ---- Every run ----

  function SeenInRun(c: Connection, events: seq<Event>): seq<OneWay.Action>
    requires Sound(c)
    decreases |events|
  {
    if events == [] then []
    else
      StepSound(c, events[0]);
      (if SeenByA(c, events[0]).None? then [] else [SeenByA(c, events[0]).value])
      + SeenInRun(Step(c, events[0]), events[1..])
  }

  function SwappedEvents(events: seq<Event>): seq<Event> {
    seq(|events|, i requires 0 <= i < |events| => SwappedEvent(events[i]))
  }

  lemma RunCons(st: OneWay.State, a: Option<OneWay.Action>, rest: seq<OneWay.Action>)
    requires OneWay.Routable(st)
    ensures OneWay.Routable(Advance(st, a))
    ensures OneWay.Run(st, (if a.None? then [] else [a.value]) + rest) == OneWay.Run(Advance(st, a), rest)
  {
    if a.Some? {
      OneWay.StepRoutable(st, a.value);
      assert ([a.value] + rest)[1..] == rest;
    } else {
      assert [] + rest == rest;
    }
  }

  lemma {:induction false} RunIsSeen(c: Connection, events: seq<Event>)
    requires Sound(c)
    ensures OneWay.Routable(OpenedByA(c))
    ensures OpenedByA(Run(c, events)) == OneWay.Run(OpenedByA(c), SeenInRun(c, events))
    decreases |events|
  {
    hide Step, Advance, SeenByA, OpenedByA, OneWay.Run;
    ProjectionRoutable(c);
    if events == [] {
      OneWay.RunNothing(OpenedByA(c));
    } else {
      StepSound(c, events[0]);
      EventIsSeen(c, events[0]);
      RunIsSeen(Step(c, events[0]), events[1..]);
      RunCons(OpenedByA(c), SeenByA(c, events[0]), SeenInRun(Step(c, events[0]), events[1..]));
    }
  }

  lemma {:induction false} RunSwapped(c: Connection, events: seq<Event>)
    requires Sound(c)
    ensures Run(Swapped(c), SwappedEvents(events)) == Swapped(Run(c, events))
    decreases |events|
  {
    hide Step;
    if events != [] {
      StepSound(c, events[0]);
      StepSwapped(c, events[0]);
      RunSwapped(Step(c, events[0]), events[1..]);
      assert SwappedEvents(events)[1..] == SwappedEvents(events[1..]);
    }
  }

  ghost predicate IsOneWayRun(max: nat, st: OneWay.State)
    requires max < U32_LIMIT
  {
    exists actions :: st == Reached(max, actions)
  }

  /** Both projections of every run of the connection are runs of the one-way protocol: equal id numbers in
      the two name spaces never interact. */
  lemma DirectionsAreIndependent(max: nat, events: seq<Event>)
    requires max < U32_LIMIT
    ensures var c := Run(Initial(max), events);
            IsOneWayRun(max, OpenedByA(c)) && IsOneWayRun(max, OpenedByB(c))
  {
    hide Run, OneWay.Run, SeenInRun;
    var c0 := Initial(max);
    assert OpenedByA(c0) == OneWay.Initial(max);
    assert Swapped(c0) == c0;
    RunIsSeen(c0, events);
    assert OpenedByA(Run(c0, events)) == Reached(max, SeenInRun(c0, events));
    RunSwapped(c0, events);
    RunIsSeen(c0, SwappedEvents(events));
    assert OpenedByB(Run(c0, events)) == Reached(max, SeenInRun(c0, SwappedEvents(events)));
  }

  /** So the one-way results hold of the channels of either peer on the shared wires. */
  lemma BothDirectionsKeep(max: nat, events: seq<Event>)
    requires max < U32_LIMIT
    ensures var c := Run(Initial(max), events);
            Inv(max, OpenedByA(c)) && Inv(max, OpenedByB(c))
  {
    hide Inv, Run, OneWay.Run;
    var c := Run(Initial(max), events);
    DirectionsAreIndependent(max, events);
    var a :| OpenedByA(c) == Reached(max, a);
    var b :| OpenedByB(c) == Reached(max, b);
    ReachedKeeps(max, a);
    ReachedKeeps(max, b);
  }

  /** Conservation and isolation on the shared wires, for the sessions of either peer. */
  lemma ConnectionConserves(max: nat, events: seq<Event>, s: nat, k: nat)
    requires max < U32_LIMIT
    ensures var c := Run(Initial(max), events);
            && (s < |c.a.requester.table.log| ==>
                  Delivered(c.b.responder.log, s) + InFlight(Outward(c.ab), s) == c.a.requester.table.log[s].written)
            && (s < |c.b.requester.table.log| ==>
                  Delivered(c.a.responder.log, s) + InFlight(Outward(c.ba), s) == c.b.requester.table.log[s].written)
            && Isolated(c.a.requester, c.b.responder) && Isolated(c.b.requester, c.a.responder)
  {
    hide Run, Delivered, InFlight, Isolated;
    BothDirectionsKeep(max, events);
    var c := Run(Initial(max), events);
    assert Conserved(OpenedByA(c)) && Conserved(OpenedByB(c));
  }

  // ---- Ids on the shared wires ----

  lemma {:induction false} SplitWire(wire: seq<Packet>, max: nat)
    requires forall i | 0 <= i < |Outward(wire)| :: Outward(wire)[i].frame.id < max
    requires forall i | 0 <= i < |Homeward(wire)| :: Homeward(wire)[i].frame.id < max
    ensures forall i | 0 <= i < |wire| :: wire[i].frame.id < max
    decreases |wire|
  {
    if wire != [] {
      var o, h := Outward(wire), Homeward(wire);
      if wire[0].frame.FromOpener() {
        assert o[0] == wire[0] && o[1..] == Outward(wire[1..]) && h == Homeward(wire[1..]);
      } else {
        assert h[0] == wire[0] && h[1..] == Homeward(wire[1..]) && o == Outward(wire[1..]);
      }
      SplitWire(wire[1..], max);
    }
  }

  lemma OneWayIds(max: nat, st: OneWay.State)
    requires Inv(max, st)
    ensures forall i | 0 <= i < |st.up| :: st.up[i].frame.id < max
    ensures forall i | 0 <= i < |st.down| :: st.down[i].frame.id < max
  {
    forall i | 0 <= i < |st.down| ensures st.down[i].frame.id < max {
      assert st.req.table.log[Opener(st.resp, st.down[i].origin)].id == st.down[i].frame.id;
    }
  }

  ghost predicate IdsBelow(wire: seq<Packet>, max: nat) {
    forall i | 0 <= i < |wire| :: wire[i].frame.id < max
  }

  /** `forwardMessage` always indexes inside its arrays. */
  lemma EveryIdInRange(max: nat, events: seq<Event>)
    requires max < U32_LIMIT
    ensures IdsBelow(Run(Initial(max), events).ab, max) && IdsBelow(Run(Initial(max), events).ba, max)
  {
    hide Inv, Run, Outward, Homeward;
    BothDirectionsKeep(max, events);
    var c := Run(Initial(max), events);
    OneWayIds(max, OpenedByA(c));
    OneWayIds(max, OpenedByB(c));
    SplitWire(c.ab, max);
    SplitWire(c.ba, max);
  }

  // ---- The End exchange over shared wires ----

  function Weight(c: Connection): nat {
    Measure(OpenedByA(c)) + Measure(OpenedByB(c))
  }

  /** Routing the next frame, whichever kind it is, lowers the weight of the connection. */
  lemma RoutingLowers(c: Connection, e: Event)
    requires Sound(c)
    requires (e.RouteAtA? && c.ba != []) || (e.RouteAtB? && c.ab != [])
    ensures Weight(Step(c, e)) < Weight(c)
  {
    hide Step, Measure, Inv, Outward, Homeward;
    var d := Swapped(c);
    ProjectionRoutable(c);
    ProjectionRoutable(d);
    EventIsSeen(c, e);
    EventIsSeen(d, SwappedEvent(e));
    StepSwapped(c, e);
    HeadIsSeen(c.ab);
    HeadIsSeen(c.ba);
    var x, y := SeenByA(c, e), SeenByA(d, SwappedEvent(e));
    if x.Some? {
      DeliveryLowers(OpenedByA(c), x.value);
    } else {
      DeliveryLowers(OpenedByA(d), y.value);
    }
  }

  lemma HeadIsSeen(wire: seq<Packet>)
    ensures wire != [] ==> if wire[0].frame.FromOpener() then Outward(wire) != [] else Homeward(wire) != []
  {
  }

  function RouteSome(c: Connection, preferA: bool): Connection
    requires Sound(c)
  {
    if (preferA && c.ba != []) || c.ab == [] then Step(c, RouteAtA) else Step(c, RouteAtB)
  }

  function RouteMany(c: Connection, scheduler: seq<bool>): Connection
    requires Sound(c)
    decreases |scheduler|
  {
    if scheduler == [] then c
    else
      StepSound(c, RouteAtA);
      StepSound(c, RouteAtB);
      RouteMany(RouteSome(c, scheduler[0]), scheduler[1..])
  }

  /** With the users silent, any scheduling of the two readers empties both wires in at most Weight steps. */
  lemma {:induction false} ConnectionSettles(c: Connection, scheduler: seq<bool>)
    requires Sound(c) && |scheduler| >= Weight(c)
    ensures var end := RouteMany(c, scheduler); end.ab == [] && end.ba == []
    decreases |scheduler|
  {
    hide Step, Weight;
    if c.ab == [] && c.ba == [] {
      StaysSettled(c, scheduler);
    } else {
      var e := if scheduler != [] && ((scheduler[0] && c.ba != []) || c.ab == []) then RouteAtA
               else if c.ab != [] then RouteAtB else RouteAtA;
      RoutingLowers(c, e);
      StepSound(c, e);
      ConnectionSettles(Step(c, e), scheduler[1..]);
    }
  }

  lemma {:induction false} StaysSettled(c: Connection, scheduler: seq<bool>)
    requires Sound(c) && c.ab == [] && c.ba == []
    ensures RouteMany(c, scheduler) == c
    decreases |scheduler|
  {
    if scheduler != [] {
      StaysSettled(c, scheduler[1..]);
    }
  }

  ghost predicate BothInv(max: nat, c: Connection) {
    Sound(c) && Inv(max, OpenedByA(c)) && Inv(max, OpenedByB(c))
  }

  lemma EventKeepsBoth(max: nat, c: Connection, e: Event)
    requires BothInv(max, c)
    ensures BothInv(max, Step(c, e))
  {
    hide Step, Inv, OpenedByA;
    StepSound(c, e);
    EventIsSeen(c, e);
    EventIsSeen(Swapped(c), SwappedEvent(e));
    StepSwapped(c, e);
    AdvanceKeeps(max, OpenedByA(c), SeenByA(c, e));
    AdvanceKeeps(max, OpenedByB(c), SeenByA(Swapped(c), SwappedEvent(e)));
  }

  lemma AdvanceKeeps(max: nat, st: OneWay.State, a: Option<OneWay.Action>)
    requires Inv(max, st) && OneWay.Routable(st)
    ensures Inv(max, Advance(st, a))
  {
    hide Inv;
    if a.Some? {
      StepKeeps(max, st, a.value);
    }
  }

  lemma {:induction false} RouteManyKeeps(max: nat, c: Connection, scheduler: seq<bool>)
    requires BothInv(max, c)
    ensures BothInv(max, RouteMany(c, scheduler))
    decreases |scheduler|
  {
    hide Step, BothInv;
    BothSound(max, c);
    if scheduler != [] {
      StepSound(c, RouteAtA);
      StepSound(c, RouteAtB);
      EventKeepsBoth(max, c, RouteAtA);
      EventKeepsBoth(max, c, RouteAtB);
      RouteManyKeeps(max, RouteSome(c, scheduler[0]), scheduler[1..]);
    }
  }

  lemma BothSound(max: nat, c: Connection)
    requires BothInv(max, c)
    ensures Sound(c)
  {
  }

  /** From any reachable state, once the users fall silent, the connection settles and the two tables of
      each direction agree: open exactly where a live session has written something. */
  lemma SettledConnectionIsConsistent(max: nat, events: seq<Event>, scheduler: seq<bool>, id: u32)
    requires max < U32_LIMIT
    requires |scheduler| >= Weight(Run(Initial(max), events))
    ensures var c := RouteMany(Run(Initial(max), events), scheduler);
            var ra, rb := c.a.requester.table, c.b.requester.table;
            && BothInv(max, c) && c.ab == [] && c.ba == []
            && (id in c.b.responder.slots <==> id in ra.slots && ra.log[ra.slots[id]].written != [])
            && (id in c.a.responder.slots <==> id in rb.slots && rb.log[rb.slots[id]].written != [])
  {
    hide Weight, RouteMany, Inv, Run;
    var c0 := Run(Initial(max), events);
    BothDirectionsKeep(max, events);
    RouteManyKeeps(max, c0, scheduler);
    ConnectionSettles(c0, scheduler);
    var c := RouteMany(c0, scheduler);
    QuietIsConsistent(max, OpenedByA(c), id);
    QuietIsConsistent(max, OpenedByB(c), id);
  }

  /** The channels one of the peers opened. */
  function OpenedBy(c: Connection, atA: bool): OneWay.State {
    if atA then OpenedByA(c) else OpenedByB(c)
  }

  function CreateAt(atA: bool): Event {
    if atA then CallAtA(CallCreate) else CallAtB(CallCreate)
  }

  ghost predicate CleanNext(st: OneWay.State) {
    st.req.free != [] && Clean(st, NextId(st))
  }

  lemma CleanAtA(max: nat, c: Connection, after: seq<Event>)
    requires BothInv(max, c) && CleanNext(OpenedByA(c))
    ensures Sound(Step(c, CallAtA(CallCreate)))
    ensures Faithful(max, OpenedByA(Run(Step(c, CallAtA(CallCreate)), after)), |c.a.requester.table.log|)
  {
    hide Inv, Faithful, Clean, Run;
    var next := Step(c, CallAtA(CallCreate));
    EventIsSeen(c, CallAtA(CallCreate));
    StepSound(c, CallAtA(CallCreate));
    CreateFaithful(max, OpenedByA(c));
    RunIsSeen(next, after);
    RunFaithful(max, OpenedByA(next), SeenInRun(next, after), |c.a.requester.table.log|);
  }

  /** A session either peer begins on a clean id hears only itself however the rest of the connection runs. */
  lemma CleanSessionsStayFaithful(max: nat, before: seq<Event>, after: seq<Event>, atA: bool)
    requires max < U32_LIMIT && CleanNext(OpenedBy(Run(Initial(max), before), atA))
    ensures var c := Run(Initial(max), before);
            && Sound(Step(c, CreateAt(atA)))
            && Faithful(max, OpenedBy(Run(Step(c, CreateAt(atA)), after), atA), |OpenedBy(c, atA).req.table.log|)
  {
    hide Inv, Faithful, CleanNext, Run, Step;
    BothDirectionsKeep(max, before);
    var c := Run(Initial(max), before);
    StepSound(c, CreateAt(atA));
    if atA {
      CleanAtA(max, c, after);
    } else {
      CleanAtA(max, Swapped(c), SwappedEvents(after));
      StepSwapped(c, CreateAt(atA));
      RunSwapped(Step(c, CreateAt(atA)), after);
    }
  }

  // ---- What the calls do on a connection with nothing under way ----

  lemma RunTwo(c: Connection, e1: Event, e2: Event)
    requires Sound(c)
    ensures Sound(Step(c, e1))
    ensures Run(c, [e1, e2]) == Step(Step(c, e1), e2)
  {
    hide Step;
    StepSound(c, e1);
    StepSound(Step(c, e1), e2);
    RunOne(Step(c, e1), e2);
    assert [e1, e2][1..] == [e2];
  }

  lemma RunOne(c: Connection, e: Event)
    requires Sound(c)
    ensures Run(c, [e]) == Step(c, e)
  {
    hide Step;
    StepSound(c, e);
  }

  lemma RunThree(c: Connection, e1: Event, e2: Event, e3: Event)
    requires Sound(c)
    ensures Sound(Step(c, e1)) && Sound(Step(Step(c, e1), e2))
    ensures Run(c, [e1, e2, e3]) == Step(Step(Step(c, e1), e2), e3)
  {
    hide Step;
    StepSound(c, e1);
    StepSound(Step(c, e1), e2);
    RunTwo(Step(c, e1), e2, e3);
    assert [e1, e2, e3][1..] == [e2, e3];
  }

  lemma {:induction false} RunSplit(c: Connection, before: seq<Event>, after: seq<Event>)
    requires Sound(c)
    ensures Run(c, before + after) == Run(Run(c, before), after)
    decreases |before|
  {
    hide Step;
    if before == [] {
      assert before + after == after;
    } else {
      StepSound(c, before[0]);
      assert (before + after)[1..] == before[1..] + after;
      RunSplit(Step(c, before[0]), before[1..], after);
    }
  }

  ghost predicate Idle(c: Connection) {
    Sound(c) && c.ab == [] && c.ba == []
  }

  /** Session s at A and channel k at B are open for the same id. */
  ghost predicate Talking(c: Connection, s: nat, k: nat) {
    c.a.requester.table.Live(s) && c.b.responder.Live(k) && c.b.responder.log[k].id == c.a.requester.table.log[s].id
  }

  /** The connection with other channel tables. */
  function WithChannels(c: Connection, req: Requester, resp: Table): Connection {
    c.(a := c.a.(requester := req), b := c.b.(responder := resp))
  }

  /** One step each, on a connection whose wires hold at most the frame in question. */
  lemma CreateTakesTop(c: Connection)
    requires Idle(c) && c.a.requester.free != []
    ensures var ra := c.a.requester; var top := |ra.free| - 1;
            Step(c, CallAtA(CallCreate))
            == WithChannels(c, Requester(ra.free[..top], Table(ra.table.slots[ra.free[top] := |ra.table.log|],
                                                               ra.table.log + [ChannelLog(ra.free[top], [], [])])), c.b.responder)
  {
    assert c.ab + [] == c.ab;
  }

  lemma RequestSent(c: Connection, s: nat, m: Payload)
    requires Idle(c) && c.a.requester.table.Live(s)
    ensures var ra := c.a.requester;
            Step(c, CallAtA(CallRequestWrite(s, m)))
            == WithChannels(c, ra.(table := ra.table.Wrote(s, m)), c.b.responder).(ab := [Packet(Request(ra.table.log[s].id, m), s)])
  {
  }

  lemma RequestArrives(c: Connection, id: u32, m: Payload, s: nat)
    requires Sound(c) && c.ab == [Packet(Request(id, m), s)] && c.ba == [] && id in c.b.responder.slots
    ensures var rb := c.b.responder;
            Step(c, RouteAtB) == WithChannels(c, c.a.requester, rb.Took(rb.slots[id], Parcel(s, m))).(ab := [])
  {
    hide Table.Took;
  }

  lemma FirstRequestArrives(c: Connection, id: u32, m: Payload, s: nat)
    requires Sound(c) && c.ab == [Packet(Request(id, m), s)] && c.ba == [] && id !in c.b.responder.slots
    ensures var rb := c.b.responder;
            Step(c, RouteAtB)
            == WithChannels(c, c.a.requester, Table(rb.slots[id := |rb.log|], rb.log + [ChannelLog(id, [], [Parcel(s, m)])])).(ab := [])
  {
    hide Table.Took;
    TookLast(c.b.responder.slots[id := |c.b.responder.log|], c.b.responder.log, id, [], Parcel(s, m));
  }

  lemma ReplySent(c: Connection, k: nat, r: Payload)
    requires Idle(c) && c.b.responder.Live(k)
    ensures var rb := c.b.responder;
            Step(c, CallAtB(CallResponseWrite(k, r)))
            == WithChannels(c, c.a.requester, rb.Wrote(k, r)).(ba := [Packet(Response(rb.log[k].id, r), k)])
  {
  }

  lemma ReplyArrives(c: Connection, id: u32, r: Payload, k: nat)
    requires Sound(c) && c.ba == [Packet(Response(id, r), k)] && c.ab == [] && id in c.a.requester.table.slots
    ensures var ra := c.a.requester;
            Step(c, RouteAtA)
            == WithChannels(c, ra.(table := ra.table.Took(ra.table.slots[id], Parcel(k, r))), c.b.responder).(ba := [])
  {
    hide Table.Took;
  }

  lemma RequestEndSent(c: Connection, s: nat)
    requires Idle(c) && c.a.requester.table.Live(s)
    ensures var ra := c.a.requester; var id := ra.table.log[s].id;
            Step(c, CallAtA(CallRequestClose(s)))
            == WithChannels(c, Requester(ra.free + [id], ra.table.Unlinked(id)), c.b.responder).(ab := [Packet(RequestEnd(id), s)])
  {
    hide Table.Unlinked;
  }

  lemma RequestEndArrives(c: Connection, id: u32, s: nat)
    requires Sound(c) && c.ab == [Packet(RequestEnd(id), s)] && c.ba == []
    ensures var rb := c.b.responder;
            Step(c, RouteAtB)
            == if id in rb.slots then
                 WithChannels(c, c.a.requester, rb.Unlinked(id)).(ab := [], ba := [Packet(ResponseEnd(id), rb.slots[id])])
               else c.(ab := [])
  {
    hide Table.Unlinked;
  }

  lemma ResponseEndSent(c: Connection, k: nat)
    requires Idle(c) && c.b.responder.Live(k)
    ensures var rb := c.b.responder; var id := rb.log[k].id;
            Step(c, CallAtB(CallResponseClose(k)))
            == WithChannels(c, c.a.requester, rb.Unlinked(id)).(ba := [Packet(ResponseEnd(id), k)])
  {
    hide Table.Unlinked;
  }

  lemma ResponseEndArrives(c: Connection, id: u32, k: nat)
    requires Sound(c) && c.ba == [Packet(ResponseEnd(id), k)] && c.ab == []
    ensures var ra := c.a.requester;
            Step(c, RouteAtA)
            == if id in ra.table.slots then
                 WithChannels(c, Requester(ra.free + [id], ra.table.Unlinked(id)), c.b.responder)
                   .(ba := [], ab := [Packet(RequestEnd(id), ra.table.slots[id])])
               else c.(ba := [])
  {
    hide Table.Unlinked;
  }

  /** A channel at the end of a log that takes its first message, or writes it. */
  lemma TookLast(slots: map<u32, nat>, log: seq<ChannelLog>, id: u32, written: seq<Payload>, p: Parcel)
    ensures Table(slots, log + [ChannelLog(id, written, [])]).Took(|log|, p) == Table(slots, log + [ChannelLog(id, written, [p])])
  {
    assert [] + [p] == [p];
    assert (log + [ChannelLog(id, written, [])])[|log| := ChannelLog(id, written, [p])] == log + [ChannelLog(id, written, [p])];
  }

  lemma WroteLast(slots: map<u32, nat>, log: seq<ChannelLog>, id: u32, m: Payload, taken: seq<Parcel>)
    ensures Table(slots, log + [ChannelLog(id, [], taken)]).Wrote(|log|, m) == Table(slots, log + [ChannelLog(id, [m], taken)])
  {
    assert [] + [m] == [m];
    assert (log + [ChannelLog(id, [], taken)])[|log| := ChannelLog(id, [m], taken)] == log + [ChannelLog(id, [m], taken)];
  }

  /** The first message of a new session makes the channel that answers it, and is its first. */
  lemma OpenDelivers(c: Connection, m: Payload)
    requires Idle(c) && c.a.requester.free != []
    requires c.a.requester.free[|c.a.requester.free| - 1] !in c.b.responder.slots
    ensures var ra, rb := c.a.requester, c.b.responder;
            var s, k, top := |ra.table.log|, |rb.log|, |ra.free| - 1;
            var id := ra.free[top];
            Run(c, [CallAtA(CallCreate), CallAtA(CallRequestWrite(s, m)), RouteAtB])
            == WithChannels(c, Requester(ra.free[..top], Table(ra.table.slots[id := s], ra.table.log + [ChannelLog(id, [m], [])])),
                            Table(rb.slots[id := k], rb.log + [ChannelLog(id, [], [Parcel(s, m)])]))
  {
    hide Run, Step, Table.Wrote;
    var ra, rb := c.a.requester, c.b.responder;
    var s, id := |ra.table.log|, ra.free[|ra.free| - 1];
    RunThree(c, CallAtA(CallCreate), CallAtA(CallRequestWrite(s, m)), RouteAtB);
    CreateTakesTop(c);
    var c1 := Step(c, CallAtA(CallCreate));
    RequestSent(c1, s, m);
    WroteLast(c1.a.requester.table.slots, ra.table.log, id, m, []);
    StepSound(c1, CallAtA(CallRequestWrite(s, m)));
    FirstRequestArrives(Step(c1, CallAtA(CallRequestWrite(s, m))), id, m, s);
  }

  /** A further message is appended at both ends. */
  lemma AskDelivers(c: Connection, s: nat, k: nat, m: Payload)
    requires Idle(c) && Talking(c, s, k)
    ensures Run(c, [CallAtA(CallRequestWrite(s, m)), RouteAtB])
         == WithChannels(c, c.a.requester.(table := c.a.requester.table.Wrote(s, m)), c.b.responder.Took(k, Parcel(s, m)))
  {
    hide Run, Step, Table.Took, Table.Wrote;
    RunTwo(c, CallAtA(CallRequestWrite(s, m)), RouteAtB);
    RequestSent(c, s, m);
    StepSound(c, CallAtA(CallRequestWrite(s, m)));
    RequestArrives(Step(c, CallAtA(CallRequestWrite(s, m))), c.a.requester.table.log[s].id, m, s);
  }

  /** So is a reply. */
  lemma AnswerDelivers(c: Connection, s: nat, k: nat, r: Payload)
    requires Idle(c) && Talking(c, s, k)
    ensures Run(c, [CallAtB(CallResponseWrite(k, r)), RouteAtA])
         == WithChannels(c, c.a.requester.(table := c.a.requester.table.Took(s, Parcel(k, r))), c.b.responder.Wrote(k, r))
  {
    hide Run, Step, Table.Took, Table.Wrote;
    RunTwo(c, CallAtB(CallResponseWrite(k, r)), RouteAtA);
    ReplySent(c, k, r);
    StepSound(c, CallAtB(CallResponseWrite(k, r)));
    ReplyArrives(Step(c, CallAtB(CallResponseWrite(k, r))), c.a.requester.table.log[s].id, r, k);
  }

  /** Both slots emptied, the id on top of the free list, the logs as they were. */
  function Parted(c: Connection, id: u32): Connection {
    WithChannels(c, Requester(c.a.requester.free + [id], c.a.requester.table.(slots := c.a.requester.table.slots - {id})),
                 c.b.responder.(slots := c.b.responder.slots - {id}))
  }

  /** Whoever closes, once the two End frames are routed the channels are gone at both ends. */
  lemma OpenerParts(c: Connection, s: nat, k: nat)
    requires Idle(c) && Talking(c, s, k)
    ensures Run(c, [CallAtA(CallRequestClose(s)), RouteAtB, RouteAtA]) == Parted(c, c.a.requester.table.log[s].id)
  {
    hide Run, Step;
    var id := c.a.requester.table.log[s].id;
    RunThree(c, CallAtA(CallRequestClose(s)), RouteAtB, RouteAtA);
    RequestEndSent(c, s);
    var c1 := Step(c, CallAtA(CallRequestClose(s)));
    RequestEndArrives(c1, id, s);
    StepSound(c1, RouteAtB);
    ResponseEndArrives(Step(c1, RouteAtB), id, k);
  }

  lemma AnswererParts(c: Connection, s: nat, k: nat)
    requires Idle(c) && Talking(c, s, k)
    ensures Run(c, [CallAtB(CallResponseClose(k)), RouteAtA, RouteAtB]) == Parted(c, c.a.requester.table.log[s].id)
  {
    hide Run, Step;
    var id := c.a.requester.table.log[s].id;
    RunThree(c, CallAtB(CallResponseClose(k)), RouteAtA, RouteAtB);
    ResponseEndSent(c, k);
    var c1 := Step(c, CallAtB(CallResponseClose(k)));
    ResponseEndArrives(c1, id, k);
    StepSound(c1, RouteAtA);
    RequestEndArrives(Step(c1, RouteAtA), id, s);
  }

  /** A session of one request and one reply, closed by its opener or by the peer that answers. */
  function Session(s: nat, k: nat, m: Payload, r: Payload, byOpener: bool): seq<Event> {
    [CallAtA(CallCreate), CallAtA(CallRequestWrite(s, m)), RouteAtB]
    + [CallAtB(CallResponseWrite(k, r)), RouteAtA]
    + if byOpener then [CallAtA(CallRequestClose(s)), RouteAtB, RouteAtA] else [CallAtB(CallResponseClose(k)), RouteAtA, RouteAtB]
  }

  /** The session before it is closed. */
  function Answered(c: Connection, m: Payload, r: Payload): Connection
    requires c.a.requester.free != []
  {
    var ra, rb := c.a.requester, c.b.responder;
    var s, k, top := |ra.table.log|, |rb.log|, |ra.free| - 1;
    var id := ra.free[top];
    WithChannels(c, Requester(ra.free[..top], Table(ra.table.slots[id := s], ra.table.log + [ChannelLog(id, [m], [Parcel(k, r)])])),
                 Table(rb.slots[id := k], rb.log + [ChannelLog(id, [r], [Parcel(s, m)])]))
  }

  lemma SessionIsAnswered(c: Connection, m: Payload, r: Payload)
    requires Idle(c) && c.a.requester.free != []
    requires c.a.requester.free[|c.a.requester.free| - 1] !in c.b.responder.slots
    ensures var s, k := |c.a.requester.table.log|, |c.b.responder.log|;
            Run(c, [CallAtA(CallCreate), CallAtA(CallRequestWrite(s, m)), RouteAtB] + [CallAtB(CallResponseWrite(k, r)), RouteAtA])
            == Answered(c, m, r)
  {
    hide Run, Table.Took, Table.Wrote;
    var ra, rb := c.a.requester, c.b.responder;
    var s, k, id := |ra.table.log|, |rb.log|, ra.free[|ra.free| - 1];
    var open := [CallAtA(CallCreate), CallAtA(CallRequestWrite(s, m)), RouteAtB];
    RunSplit(c, open, [CallAtB(CallResponseWrite(k, r)), RouteAtA]);
    OpenDelivers(c, m);
    AnswerDelivers(Run(c, open), s, k, r);
    TookLast(ra.table.slots[id := s], ra.table.log, id, [m], Parcel(k, r));
    WroteLast(rb.slots[id := k], rb.log, id, r, [Parcel(s, m)]);
  }

  lemma AnsweredIsTalking(c: Connection, m: Payload, r: Payload)
    requires Idle(c) && c.a.requester.free != []
    ensures var end := Answered(c, m, r);
            && Idle(end) && Talking(end, |c.a.requester.table.log|, |c.b.responder.log|)
            && end.a.requester.table.log[|c.a.requester.table.log|].id == c.a.requester.free[|c.a.requester.free| - 1]
  {
  }

  /** The connection after a whole session: two more entries in the logs, and no other trace. */
  function Remembered(c: Connection, m: Payload, r: Payload): Connection
    requires c.a.requester.free != []
  {
    var ra, rb := c.a.requester, c.b.responder;
    var s, k, id := |ra.table.log|, |rb.log|, ra.free[|ra.free| - 1];
    WithChannels(c, ra.(table := Table(ra.table.slots, ra.table.log + [ChannelLog(id, [m], [Parcel(k, r)])])),
                 Table(rb.slots, rb.log + [ChannelLog(id, [r], [Parcel(s, m)])]))
  }

  lemma PartedAgain(c: Connection, m: Payload, r: Payload)
    requires c.a.requester.free != []
    requires c.a.requester.free[|c.a.requester.free| - 1] !in c.a.requester.table.slots
    requires c.a.requester.free[|c.a.requester.free| - 1] !in c.b.responder.slots
    ensures Parted(Answered(c, m, r), c.a.requester.free[|c.a.requester.free| - 1]) == Remembered(c, m, r)
  {
    var ra, rb := c.a.requester, c.b.responder;
    var s, k, id := |ra.table.log|, |rb.log|, ra.free[|ra.free| - 1];
    assert ra.free[..|ra.free| - 1] + [id] == ra.free;
    assert ra.table.slots[id := s] - {id} == ra.table.slots;
    assert rb.slots[id := k] - {id} == rb.slots;
  }

  lemma WholeSession(c: Connection, m: Payload, r: Payload, byOpener: bool)
    requires Idle(c) && c.a.requester.free != []
    requires c.a.requester.free[|c.a.requester.free| - 1] !in c.a.requester.table.slots
    requires c.a.requester.free[|c.a.requester.free| - 1] !in c.b.responder.slots
    ensures Run(c, Session(|c.a.requester.table.log|, |c.b.responder.log|, m, r, byOpener)) == Remembered(c, m, r)
  {
    hide Run, Talking, Answered, Parted, Remembered;
    var s, k := |c.a.requester.table.log|, |c.b.responder.log|;
    SessionIsAnswered(c, m, r);
    AnsweredIsTalking(c, m, r);
    PartedAgain(c, m, r);
    RunSplit(c, [CallAtA(CallCreate), CallAtA(CallRequestWrite(s, m)), RouteAtB] + [CallAtB(CallResponseWrite(k, r)), RouteAtA],
             if byOpener then [CallAtA(CallRequestClose(s)), RouteAtB, RouteAtA] else [CallAtB(CallResponseClose(k)), RouteAtA, RouteAtB]);
    if byOpener {
      OpenerParts(Answered(c, m, r), s, k);
    } else {
      AnswererParts(Answered(c, m, r), s, k);
    }
  }

  function SessionAt(atA: bool, s: nat, k: nat, m: Payload, r: Payload, byOpener: bool): seq<Event> {
    if atA then Session(s, k, m, r, byOpener) else SwappedEvents(Session(s, k, m, r, byOpener))
  }

  /** From any reachable state with nothing under way and an id free, a session of either peer leaves both
      tables, the free list and the wires as it found them, and in the logs exactly the request and the reply,
      each at both ends. */
  lemma SessionLeavesNoTrace(max: nat, before: seq<Event>, m: Payload, r: Payload, byOpener: bool, atA: bool)
    requires max < U32_LIMIT
    requires var c := Run(Initial(max), before); c.ab == [] && c.ba == [] && OpenedBy(c, atA).req.free != []
    ensures var c := Run(Initial(max), before);
            var st := OpenedBy(c, atA);
            var s, k, id := |st.req.table.log|, |st.resp.log|, NextId(st);
            var end := Run(c, SessionAt(atA, s, k, m, r, byOpener));
            && end.ab == [] && end.ba == [] && OpenedBy(end, !atA) == OpenedBy(c, !atA)
            && OpenedBy(end, atA).req.free == st.req.free
            && OpenedBy(end, atA).req.table == Table(st.req.table.slots, st.req.table.log + [ChannelLog(id, [m], [Parcel(k, r)])])
            && OpenedBy(end, atA).resp == Table(st.resp.slots, st.resp.log + [ChannelLog(id, [r], [Parcel(s, m)])])
  {
    hide Inv, Run, Step, Session;
    BothDirectionsKeep(max, before);
    var c := Run(Initial(max), before);
    var st := OpenedBy(c, atA);
    TopIsUnused(max, st);
    if atA {
      WholeSession(c, m, r, byOpener);
    } else {
      var s, k := |st.req.table.log|, |st.resp.log|;
      WholeSession(Swapped(c), m, r, byOpener);
      RunSwapped(Swapped(c), Session(s, k, m, r, byOpener));
    }
  }

  /** With both wires empty the id on top of the free list is in no slot at either end. */
  lemma TopIsUnused(max: nat, st: OneWay.State)
    requires Inv(max, st) && Quiet(st) && st.req.free != []
    ensures NextId(st) !in st.req.table.slots && NextId(st) !in st.resp.slots
  {
    QuietIsConsistent(max, st, NextId(st));
    TopIsFree(max, st);
  }

  lemma TopIsFree(max: nat, st: OneWay.State)
    requires Inv(max, st) && st.req.free != []
    ensures NextId(st) !in st.req.table.slots
  {
  }
}
