/** Every step of the one-way protocol keeps the invariant. A delivery that also closes a channel is
    taken apart: the close, then the removal of the frame from the wire. */
module Preservation {
  import opened Bytes
  import opened Messages
  import opened Frames
  import opened Peers
  import opened OneWay
  import opened Invariant

  // ---- Calls of the requester ----

  lemma CreateOrderly(max: nat, st: State)
    requires Orderly(max, st) && st.req.free != []
    ensures Orderly(max, st.(req := Create(st.req)))
  {
    hide From, Delivered, InFlight, InTurn;
    PartitionAfterCreate(max, st.req);
    assert st.req.free[|st.req.free| - 1] in st.req.free;
    assert st.req.free[|st.req.free| - 1] < max;
  }

  lemma CreateTurns(max: nat, st: State)
    requires Inv(max, st) && st.req.free != []
    ensures Turns(st.(req := Create(st.req)))
  {
    hide From, Delivered, InFlight, InTurn, Conserved, NotForgotten, Ordered, EndsAreFinal, LastIsOpen, IdsKnown;
    var st' := st.(req := Create(st.req));
    var id := st.req.free[|st.req.free| - 1];
    forall i: u32 ensures InTurn(st'.up, i, Answering(st'.resp, i), Using(st'.req, i)) {
      assert InTurn(st.up, i, Answering(st.resp, i), Using(st.req, i));
      if i == id {
        InTurnReuse(st.up, i, Answering(st.resp, i), Using(st'.req, i));
      }
    }
  }

  lemma CreateKeeps(max: nat, st: State)
    requires Inv(max, st) && st.req.free != []
    ensures Inv(max, st.(req := Create(st.req)))
  {
    hide From, Delivered, InFlight, InTurn, IdsPartitioned, Ordered, EndsAreFinal, LastIsOpen, Turns;
    CreateOrderly(max, st);
    CreateTurns(max, st);
    var st' := st.(req := Create(st.req));
    var s := |st.req.table.log|;
    forall k | 0 <= k < |st.resp.log| ensures Opener(st.resp, k) != s {}
    assert Delivered(st'.resp.log, s) == [] && InFlight(st'.up, s) == [] by {
      NothingFromNobody(st, s);
    }
  }

  lemma NothingFromNobody(st: State, s: nat)
    requires Isolated(st.req, st.resp)
    requires forall i | 0 <= i < |st.up| :: st.up[i].origin != s
    requires forall k | 0 <= k < |st.resp.log| :: Opener(st.resp, k) != s
    ensures Delivered(st.resp.log, s) == [] && InFlight(st.up, s) == []
  {
    forall k | 0 <= k < |st.resp.log| ensures From(st.resp.log[k].taken, s) == [] {
      FromNobody(st.resp.log[k].taken, s);
    }
    DeliveredTail(st.resp.log, 0, s);
    NoneInFlight(st.up, s);
  }

  lemma {:induction false} NoneInFlight(wire: seq<Packet>, s: nat)
    requires forall i | 0 <= i < |wire| && wire[i].frame.Request? :: wire[i].origin != s
    ensures InFlight(wire, s) == []
    decreases |wire|
  {
    if wire != [] {
      NoneInFlight(wire[1..], s);
    }
  }

  /** The wire's turns after session s appends a frame of its own. */
  lemma TurnsAfterSend(st: State, st': State, s: nat, p: Packet)
    requires st.resp.Sound() && AllOpened(st.resp) && Turns(st)
    requires st.req.table.Live(s) && p.origin == s && p.frame.id == st.req.table.log[s].id
    requires st'.up == st.up + [p] && st'.resp == st.resp
    requires forall i: u32 :: Using(st'.req, i) ==
               if i == p.frame.id && !p.frame.Request? then None else Using(st.req, i)
    ensures Turns(st')
  {
    forall i: u32 ensures InTurn(st'.up, i, Answering(st'.resp, i), Using(st'.req, i)) {
      assert InTurn(st.up, i, Answering(st.resp, i), Using(st.req, i));
      if i == p.frame.id {
        InTurnAppend(st.up, p, i, Answering(st.resp, i), s);
      } else {
        InTurnAppendOther(st.up, p, i, Answering(st.resp, i), Using(st.req, i));
      }
    }
  }

  /** Nothing that says whose a channel is has changed, and no slot is taken anew. */
  ghost predicate SameChannels(t: Table, t': Table) {
    && |t'.log| == |t.log|
    && (forall k | 0 <= k < |t.log| :: t'.log[k].id == t.log[k].id && t'.log[k].taken == t.log[k].taken)
    && (forall id | id in t'.slots :: id in t.slots && t'.slots[id] == t.slots[id])
  }

  lemma StillIsolated(req: Requester, resp: Table, req': Requester, resp': Table)
    requires Isolated(req, resp) && SameChannels(resp, resp')
    requires |req'.table.log| == |req.table.log|
    requires forall s | 0 <= s < |req.table.log| :: req'.table.log[s].id == req.table.log[s].id
    ensures AllOpened(resp) && AllOpened(resp') && Isolated(req', resp')
  {
  }

  lemma StillLast(t: Table, t': Table)
    requires AllOpened(t) && t.Sound() && LastIsOpen(t) && SameChannels(t, t') && t'.Sound()
    ensures AllOpened(t') && LastIsOpen(t')
  {
    forall id, k | id in t'.slots && t'.slots[id] < k < |t'.log| ensures Opener(t', k) != Opener(t', t'.slots[id]) {
      assert Opener(t, k) != Opener(t, t.slots[id]);
    }
  }

  lemma StillOrdered(st: State, st': State)
    requires AllOpened(st.resp) && Ordered(st) && SameChannels(st.resp, st'.resp)
    requires st'.req == st.req && st'.up == st.up
    ensures AllOpened(st'.resp) && Ordered(st')
  {
  }

  /** A frame of the session using an id goes behind all others of that id. */
  lemma SentInOrder(st: State, st': State, s: nat, p: Packet)
    requires AllOpened(st.resp) && Ordered(st) && st.req.table.Live(s)
    requires p.origin == s && p.frame.id == st.req.table.log[s].id
    requires st'.up == st.up + [p] && st'.resp == st.resp
    requires forall id | id in st'.req.table.slots :: id in st.req.table.slots && st'.req.table.slots[id] == st.req.table.slots[id]
    ensures Ordered(st')
  {
  }

  lemma RequestWriteOrderly(max: nat, st: State, s: nat, m: Payload)
    requires Orderly(max, st) && st.req.table.Live(s)
    ensures Orderly(max, ByA(st, RequestWrite(st.req, s, m)))
  {
    hide From, Delivered, InFlight, InTurn, Isolated, LastIsOpen, Ordered;
    StillIsolated(st.req, st.resp, RequestWrite(st.req, s, m).after, st.resp);
    SentInOrder(st, ByA(st, RequestWrite(st.req, s, m)), s, Packet(Request(st.req.table.log[s].id, m), s));
  }

  lemma RequestWriteKeeps(max: nat, st: State, s: nat, m: Payload)
    requires Inv(max, st) && st.req.table.Live(s)
    ensures Inv(max, ByA(st, RequestWrite(st.req, s, m)))
  {
    hide From, Delivered, InFlight, InTurn, IdsPartitioned, IdsKnown, Ordered, EndsAreFinal, LastIsOpen;
    var st' := ByA(st, RequestWrite(st.req, s, m));
    var p := Packet(Request(st.req.table.log[s].id, m), s);
    RequestWriteOrderly(max, st, s, m);
    assert st'.up == st.up + [p];
    TurnsAfterSend(st, st', s, p);
    forall x | 0 <= x < |st'.req.table.log|
      ensures Delivered(st'.resp.log, x) + InFlight(st'.up, x) == st'.req.table.log[x].written
    {
      InFlightAppend(st.up, p, x);
    }
  }

  lemma RequestCloseOrderly(max: nat, st: State, s: nat)
    requires Orderly(max, st) && st.req.table.Live(s)
    ensures Orderly(max, ByA(st, RequestClose(st.req, s)))
  {
    hide From, Delivered, InFlight, InTurn, IdsPartitioned, Isolated, LastIsOpen, Ordered;
    PartitionAfterClose(max, st.req, s);
    StillIsolated(st.req, st.resp, RequestClose(st.req, s).after, st.resp);
    SentInOrder(st, ByA(st, RequestClose(st.req, s)), s, Packet(RequestEnd(st.req.table.log[s].id), s));
  }

  lemma RequestCloseKeeps(max: nat, st: State, s: nat)
    requires Inv(max, st) && st.req.table.Live(s)
    ensures Inv(max, ByA(st, RequestClose(st.req, s)))
  {
    hide From, Delivered, InFlight, InTurn, IdsPartitioned, IdsKnown, Ordered, EndsAreFinal, LastIsOpen;
    var st' := ByA(st, RequestClose(st.req, s));
    var id := st.req.table.log[s].id;
    var p := Packet(RequestEnd(id), s);
    RequestCloseOrderly(max, st, s);
    assert st'.up == st.up + [p];
    TurnsAfterSend(st, st', s, p);
    forall x | 0 <= x < |st'.req.table.log|
      ensures Delivered(st'.resp.log, x) + InFlight(st'.up, x) == st'.req.table.log[x].written
    {
      InFlightAppend(st.up, p, x);
    }
  }

  // ---- Calls of the responder ----

  lemma ResponseWriteOrderly(max: nat, st: State, k: nat, m: Payload)
    requires Orderly(max, st) && st.resp.Live(k)
    ensures Orderly(max, ByB(st, ResponseWrite(st.resp, k, m)))
  {
    hide From, Delivered, InFlight, InTurn, IdsPartitioned, Isolated, LastIsOpen, Ordered;
    var st' := ByB(st, ResponseWrite(st.resp, k, m));
    StillIsolated(st.req, st.resp, st'.req, st'.resp);
    StillLast(st.resp, st'.resp);
    StillOrdered(st, st');
  }

  lemma ResponseWriteKeeps(max: nat, st: State, k: nat, m: Payload)
    requires Inv(max, st) && st.resp.Live(k)
    ensures Inv(max, ByB(st, ResponseWrite(st.resp, k, m)))
  {
    hide From, Delivered, InFlight, InTurn, IdsPartitioned, IdsKnown, Ordered, EndsAreFinal, LastIsOpen;
    var st' := ByB(st, ResponseWrite(st.resp, k, m));
    ResponseWriteOrderly(max, st, k, m);
    SameOpeners(st.resp, st'.resp);
    forall i: u32 ensures InTurn(st'.up, i, Answering(st'.resp, i), Using(st'.req, i)) {
      assert InTurn(st.up, i, Answering(st.resp, i), Using(st.req, i));
    }
    forall x | 0 <= x < |st'.req.table.log|
      ensures Delivered(st'.resp.log, x) + InFlight(st'.up, x) == st'.req.table.log[x].written
    {
      DeliveredSame(st.resp.log, st'.resp.log, x);
    }
    EndStillComing(st, st');
  }

  lemma SameOpeners(t: Table, t': Table)
    requires AllOpened(t) && |t.log| <= |t'.log|
    requires forall k | 0 <= k < |t.log| :: t.log[k].taken <= t'.log[k].taken
    ensures forall k | 0 <= k < |t.log| :: t'.log[k].taken != [] && Opener(t', k) == Opener(t, k)
  {
  }

  lemma EndStillComing(st: State, st': State)
    requires st.down <= st'.down
    ensures forall id :: EndComing(st.down, id) ==> EndComing(st'.down, id)
  {
    forall id | EndComing(st.down, id) ensures EndComing(st'.down, id) {
      var i :| 0 <= i < |st.down| && st.down[i].frame == ResponseEnd(id);
      assert st'.down[i].frame == ResponseEnd(id);
    }
  }

  lemma ResponseCloseOrderly(max: nat, st: State, k: nat)
    requires Orderly(max, st) && st.resp.Live(k)
    ensures Orderly(max, ByB(st, ResponseClose(st.resp, k)))
  {
    hide From, Delivered, InFlight, InTurn, IdsPartitioned, Isolated, LastIsOpen, Ordered;
    var st' := ByB(st, ResponseClose(st.resp, k));
    StillIsolated(st.req, st.resp, st'.req, st'.resp);
    StillLast(st.resp, st'.resp);
    StillOrdered(st, st');
  }

  lemma ResponseCloseKeeps(max: nat, st: State, k: nat)
    requires Inv(max, st) && st.resp.Live(k)
    ensures Inv(max, ByB(st, ResponseClose(st.resp, k)))
  {
    hide From, Delivered, InFlight, InTurn, IdsPartitioned, IdsKnown, Ordered, EndsAreFinal, LastIsOpen;
    ResponseCloseOrderly(max, st, k);
    var st' := ByB(st, ResponseClose(st.resp, k));
    var id := st.resp.log[k].id;
    forall i: u32 ensures InTurn(st'.up, i, Answering(st'.resp, i), Using(st'.req, i)) {
      assert InTurn(st.up, i, Answering(st.resp, i), Using(st.req, i));
      if i == id {
        InTurnClose(st.up, i, Answering(st.resp, i), Using(st.req, i));
      }
    }
    EndStillComing(st, st');
    assert st'.down[|st.down|].frame == ResponseEnd(id);
    assert EndComing(st'.down, id);
  }

  // ---- Deliveries to the responder ----

  lemma PopUpOrderly(max: nat, st: State)
    requires Orderly(max, st) && st.up != []
    ensures Orderly(max, st.(up := st.up[1..]))
  {
    hide From, Delivered, InFlight, InTurn, IdsPartitioned;
  }

  /** A RequestEnd with nothing to close is only taken off the wire. */
  lemma IdleEndKeeps(max: nat, st: State)
    requires Inv(max, st) && st.up != [] && st.up[0].frame.RequestEnd? && st.up[0].frame.id !in st.resp.slots
    ensures Inv(max, st.(up := st.up[1..]))
  {
    hide From, Delivered, InFlight, IdsPartitioned, IdsKnown, Ordered, EndsAreFinal, LastIsOpen;
    PopUpOrderly(max, st);
    var st' := st.(up := st.up[1..]);
    forall i: u32 ensures InTurn(st'.up, i, Answering(st'.resp, i), Using(st'.req, i)) {
      assert InTurn(st.up, i, Answering(st.resp, i), Using(st.req, i));
    }
    forall x | 0 <= x < |st'.req.table.log|
      ensures Delivered(st'.resp.log, x) + InFlight(st'.up, x) == st'.req.table.log[x].written
    {
      InFlightHead(st.up, x);
    }
  }

  /** A channel open for the id of the frame at the head of the wire answers the session that sent it. */
  lemma HeadIsInTurn(st: State)
    requires Routable(st) && AllOpened(st.resp) && Turns(st)
    requires st.up != [] && st.up[0].frame.id in st.resp.slots
    ensures Opener(st.resp, st.resp.slots[st.up[0].frame.id]) == st.up[0].origin
  {
    var id := st.up[0].frame.id;
    assert InTurn(st.up, id, Answering(st.resp, id), Using(st.req, id));
  }

  lemma RequestArrives(st: State)
    requires Routable(st) && st.up != [] && st.up[0].frame.Request?
    ensures Step(st, ADeliverUp) == st.(up := st.up[1..], resp := TakeRequest(st.resp, st.up[0]).after)
  {
    assert st.down + [] == st.down;
  }

  /** A Request adds to the channel open for its id, or makes one; all else stays. */
  ghost predicate Extends(t: Table, t': Table, id: u32, origin: nat)
    requires AllOpened(t) && t.Sound()
  {
    && t'.Sound() && AllOpened(t')
    && id in t'.slots && Opener(t', t'.slots[id]) == origin
    && |t.log| <= |t'.log| <= |t.log| + 1
    && (forall k | 0 <= k < |t.log| :: t'.log[k].id == t.log[k].id && Opener(t', k) == Opener(t, k))
    && (|t'.log| > |t.log| ==>
          t'.log[|t.log|].id == id && Opener(t', |t.log|) == origin && id !in t.slots && t'.slots[id] == |t.log|)
    && (forall i: u32 | i != id :: (i in t'.slots <==> i in t.slots) && (i in t.slots ==> t'.slots[i] == t.slots[i]))
    && (if id in t.slots then t'.slots[id] == t.slots[id] else |t'.log| == |t.log| + 1)
  }

  lemma RequestExtends(st: State)
    requires Routable(st) && AllOpened(st.resp) && Turns(st)
    requires st.up != [] && st.up[0].frame.Request?
    ensures Extends(st.resp, TakeRequest(st.resp, st.up[0]).after, st.up[0].frame.id, st.up[0].origin)
  {
    hide Turns, InTurn, Opener;
    if st.up[0].frame.id in st.resp.slots {
      HeadIsInTurn(st);
    }
    RequestOpeners(st.resp, st.up[0]);
  }

  lemma RequestOpeners(t: Table, p: Packet)
    requires t.Sound() && AllOpened(t) && p.frame.Request?
    ensures var t' := TakeRequest(t, p).after;
            && AllOpened(t') && |t.log| <= |t'.log|
            && (forall k | 0 <= k < |t.log| :: t'.log[k].id == t.log[k].id && Opener(t', k) == Opener(t, k))
            && (|t'.log| > |t.log| ==> Opener(t', |t.log|) == p.origin)
  {
    var t' := TakeRequest(t, p).after;
    forall k | 0 <= k < |t.log| ensures t.log[k].taken <= t'.log[k].taken {}
    SameOpeners(t, t');
  }

  /** The responder's table after the Request at the head of the wire. */
  lemma AfterRequest(max: nat, st: State)
    requires Inv(max, st) && st.up != [] && st.up[0].frame.Request?
    ensures var t' := TakeRequest(st.resp, st.up[0]).after;
            && Extends(st.resp, t', st.up[0].frame.id, st.up[0].origin)
            && Isolated(st.req, t') && LastIsOpen(t')
  {
    hide From, Delivered, InFlight, InTurn, Turns, Conserved, NotForgotten, Ordered, EndsAreFinal, IdsPartitioned, Isolated,
         LastIsOpen;
    AboutOpened(st);
    RequestExtends(st);
    RequestIsolated(max, st);
    RequestLast(max, st);
  }

  lemma AboutOpened(st: State)
    requires Isolated(st.req, st.resp)
    ensures AllOpened(st.resp)
  {
  }

  /** The new channel's opener has the id of the frame, so it opened none of the channels under other ids. */
  lemma RequestLast(max: nat, st: State)
    requires Inv(max, st) && st.up != [] && st.up[0].frame.Request?
    ensures var t' := TakeRequest(st.resp, st.up[0]).after; t'.Sound() && AllOpened(t') && LastIsOpen(t')
  {
    hide From, Delivered, InFlight, InTurn, Turns, Conserved, NotForgotten, Ordered, EndsAreFinal, IdsPartitioned, TakeRequest;
    RequestExtends(st);
    var t' := TakeRequest(st.resp, st.up[0]).after;
    forall i, k | i in t'.slots && t'.slots[i] < k < |t'.log| ensures Opener(t', k) != Opener(t', t'.slots[i]) {
      if k < |st.resp.log| {
        assert Opener(st.resp, k) != Opener(st.resp, t'.slots[i]);
      } else {
        assert st.req.table.log[Opener(st.resp, t'.slots[i])].id == i;
      }
    }
  }

  lemma RequestIsolated(max: nat, st: State)
    requires Inv(max, st) && st.up != [] && st.up[0].frame.Request?
    ensures Isolated(st.req, TakeRequest(st.resp, st.up[0]).after)
  {
    hide From, Delivered, InFlight, InTurn, Turns, Conserved, NotForgotten, Ordered, EndsAreFinal, IdsPartitioned, LastIsOpen;
    var t' := TakeRequest(st.resp, st.up[0]).after;
    RequestExtends(st);
    forall k, j | 0 <= k < |t'.log| && 0 <= j < |t'.log[k].taken|
      ensures t'.log[k].taken[j].origin == Opener(t', k)
    {
      if k < |st.resp.log| && j < |st.resp.log[k].taken| {
        assert st.resp.log[k].taken[j].origin == Opener(st.resp, k);
      }
    }
  }

  lemma InFlightHead(wire: seq<Packet>, s: nat)
    requires wire != []
    ensures InFlight(wire, s)
         == (if wire[0].frame.Request? && wire[0].origin == s then [wire[0].frame.message] else []) + InFlight(wire[1..], s)
  {
  }

  lemma RequestDelivers(max: nat, st: State, x: nat)
    requires Inv(max, st) && st.up != [] && st.up[0].frame.Request?
    ensures Delivered(TakeRequest(st.resp, st.up[0]).after.log, x) + InFlight(st.up[1..], x)
         == Delivered(st.resp.log, x) + InFlight(st.up, x)
  {
    hide From, Delivered, InFlight, IdsPartitioned, IdsKnown, Ordered, EndsAreFinal, Conserved, NotForgotten;
    var p := st.up[0];
    var t := if p.frame.id in st.resp.slots then st.resp else st.resp.Opened(p.frame.id);
    DeliveredOpened(st.resp.log, p.frame.id, x);
    var k := t.slots[p.frame.id];
    AfterRequest(max, st);
    if p.origin == x {
      forall j | k < j < |t.log| ensures From(t.log[j].taken, x) == [] {
        HeadIsInTurn(st);
        assert Opener(st.resp, j) != x;
        FromNobody(t.log[j].taken, x);
      }
    }
    DeliveredPush(t.log, k, Parcel(p.origin, p.frame.message), x);
    InFlightHead(st.up, x);
  }

  lemma TakeRequestConserves(max: nat, st: State)
    requires Inv(max, st) && st.up != [] && st.up[0].frame.Request?
    ensures Conserved(ByB(st.(up := st.up[1..]), TakeRequest(st.resp, st.up[0])))
  {
    hide From, Delivered, InFlight, IdsPartitioned, IdsKnown, Ordered, EndsAreFinal, LastIsOpen, Isolated, Turns, NotForgotten;
    forall x | 0 <= x < |st.req.table.log|
      ensures Delivered(TakeRequest(st.resp, st.up[0]).after.log, x) + InFlight(st.up[1..], x)
           == st.req.table.log[x].written
    {
      RequestDelivers(max, st, x);
    }
  }

  /** Channel k of t' is channel k of t, or a new one of the session `origin` on id. */
  ghost predicate OldOrNew(t: Table, t': Table, id: u32, origin: nat, k: nat)
    requires AllOpened(t) && AllOpened(t') && k < |t'.log|
  {
    if k < |t.log| then t'.log[k].id == t.log[k].id && Opener(t', k) == Opener(t, k)
    else t'.log[k].id == id && Opener(t', k) == origin
  }

  lemma ExtendedChannels(t: Table, t': Table, id: u32, origin: nat)
    requires AllOpened(t) && t.Sound() && Extends(t, t', id, origin)
    ensures AllOpened(t') && forall k | 0 <= k < |t'.log| :: OldOrNew(t, t', id, origin, k)
  {
  }

  /** What a Request adds is the oldest of what is left for its id. */
  lemma ExtendedInOrder(st: State, st': State, id: u32, origin: nat)
    requires AllOpened(st.resp) && Ordered(st) && AllOpened(st'.resp)
    requires forall k | 0 <= k < |st'.resp.log| :: OldOrNew(st.resp, st'.resp, id, origin, k)
    requires st'.req == st.req && st'.up == st.up
    requires forall i | 0 <= i < |st.up| && st.up[i].frame.id == id :: origin <= st.up[i].origin
    requires id in st.req.table.slots ==> origin <= st.req.table.slots[id]
    ensures Ordered(st')
  {
    hide Opener;
    forall k, i | 0 <= k < |st'.resp.log| && 0 <= i < |st'.up| && st'.resp.log[k].id == st'.up[i].frame.id
      ensures Opener(st'.resp, k) <= st'.up[i].origin
    {
      assert OldOrNew(st.resp, st'.resp, id, origin, k);
    }
    forall k | 0 <= k < |st'.resp.log| && st'.resp.log[k].id in st'.req.table.slots
      ensures Opener(st'.resp, k) <= st'.req.table.slots[st'.resp.log[k].id]
    {
      assert OldOrNew(st.resp, st'.resp, id, origin, k);
    }
  }

  lemma TakeRequestOrdered(max: nat, st: State)
    requires Inv(max, st) && st.up != [] && st.up[0].frame.Request?
    ensures Isolated(st.req, TakeRequest(st.resp, st.up[0]).after)
    ensures Ordered(ByB(st.(up := st.up[1..]), TakeRequest(st.resp, st.up[0])))
  {
    hide From, Delivered, InFlight, InTurn, Conserved, NotForgotten, Turns, IdsPartitioned, LastIsOpen, EndsAreFinal, TakeRequest,
         Extends, OldOrNew;
    AfterRequest(max, st);
    PopUpOrderly(max, st);
    ExtendedChannels(st.resp, TakeRequest(st.resp, st.up[0]).after, st.up[0].frame.id, st.up[0].origin);
    var rest := st.(up := st.up[1..]);
    forall i | 0 <= i < |rest.up| && rest.up[i].frame.id == st.up[0].frame.id ensures st.up[0].origin <= rest.up[i].origin {
      assert rest.up[i] == st.up[i + 1];
    }
    ExtendedInOrder(rest, ByB(rest, TakeRequest(st.resp, st.up[0])), st.up[0].frame.id, st.up[0].origin);
  }

  lemma TakeRequestOrderly(max: nat, st: State)
    requires Inv(max, st) && st.up != [] && st.up[0].frame.Request?
    ensures Orderly(max, ByB(st.(up := st.up[1..]), TakeRequest(st.resp, st.up[0])))
  {
    hide From, Delivered, InFlight, InTurn, Conserved, NotForgotten, Turns, IdsPartitioned, Isolated, LastIsOpen, Ordered;
    AfterRequest(max, st);
    TakeRequestOrdered(max, st);
    assert ByB(st.(up := st.up[1..]), TakeRequest(st.resp, st.up[0])).down == st.down;
  }

  lemma TakeRequestTurns(max: nat, st: State)
    requires Inv(max, st) && st.up != [] && st.up[0].frame.Request?
    ensures Orderly(max, ByB(st.(up := st.up[1..]), TakeRequest(st.resp, st.up[0])))
    ensures Turns(ByB(st.(up := st.up[1..]), TakeRequest(st.resp, st.up[0])))
  {
    hide From, Delivered, InFlight, IdsPartitioned, EndsAreFinal, LastIsOpen, IdsKnown, Ordered, Conserved, NotForgotten, TakeRequest;
    var st' := ByB(st.(up := st.up[1..]), TakeRequest(st.resp, st.up[0]));
    TakeRequestOrderly(max, st);
    AfterRequest(max, st);
    forall i: u32 ensures InTurn(st'.up, i, Answering(st'.resp, i), Using(st'.req, i)) {
      assert InTurn(st.up, i, Answering(st.resp, i), Using(st.req, i));
    }
  }

  /** A live session that was answered before is answered still, or its ResponseEnd is still coming. */
  lemma ExtendedRemembers(st: State, st': State, id: u32, origin: nat)
    requires AllOpened(st.resp) && st.resp.Sound() && NotForgotten(st) && Extends(st.resp, st'.resp, id, origin)
    requires st'.req == st.req && st'.down == st.down
    requires forall i | i in st.req.table.slots && i != id :: st.req.table.slots[i] != origin
    requires id in st.req.table.slots ==>
               forall k | 0 <= k < |st.resp.log| && Opener(st.resp, k) == st.req.table.slots[id] :: origin == st.req.table.slots[id]
    ensures NotForgotten(st')
  {
    hide EndComing;
    forall i, k | i in st'.req.table.slots && 0 <= k < |st'.resp.log| && Opener(st'.resp, k) == st'.req.table.slots[i]
      ensures Answering(st'.resp, i) == Using(st'.req, i) || EndComing(st'.down, i)
    {
      if i != id {
        assert k < |st.resp.log|;
        assert Answering(st.resp, i) == Using(st.req, i) || EndComing(st.down, i);
      }
    }
  }

  lemma TakeRequestRemembers(max: nat, st: State)
    requires Inv(max, st) && st.up != [] && st.up[0].frame.Request?
    ensures Orderly(max, ByB(st.(up := st.up[1..]), TakeRequest(st.resp, st.up[0])))
    ensures NotForgotten(ByB(st.(up := st.up[1..]), TakeRequest(st.resp, st.up[0])))
  {
    hide From, Delivered, InFlight, InTurn, IdsPartitioned, EndsAreFinal, LastIsOpen, Conserved, Turns, NotForgotten, Extends;
    var st' := ByB(st.(up := st.up[1..]), TakeRequest(st.resp, st.up[0]));
    var p := st.up[0];
    TakeRequestOrderly(max, st);
    AfterRequest(max, st);
    assert st'.down == st.down;
    var slots := st.req.table.slots;
    forall k | p.frame.id in slots && 0 <= k < |st.resp.log| && Opener(st.resp, k) == slots[p.frame.id]
      ensures p.origin == slots[p.frame.id]
    {
      assert Opener(st.resp, k) <= p.origin <= slots[p.frame.id];
    }
    ExtendedRemembers(st, st', p.frame.id, p.origin);
  }

  lemma TakeRequestKeeps(max: nat, st: State)
    requires Inv(max, st) && st.up != [] && st.up[0].frame.Request?
    ensures Inv(max, ByB(st.(up := st.up[1..]), TakeRequest(st.resp, st.up[0])))
  {
    hide Orderly, Turns, Conserved, NotForgotten;
    TakeRequestTurns(max, st);
    TakeRequestConserves(max, st);
    TakeRequestRemembers(max, st);
  }

  lemma DeliverUpKeeps(max: nat, st: State)
    requires Inv(max, st) && st.up != []
    ensures Inv(max, Step(st, ADeliverUp))
  {
    hide Turns, Conserved, NotForgotten, IdsPartitioned, IdsKnown, Ordered, EndsAreFinal, LastIsOpen, Isolated;
    var p := st.up[0];
    if p.frame.Request? {
      TakeRequestKeeps(max, st);
    } else if p.frame.id in st.resp.slots {
      var k := st.resp.slots[p.frame.id];
      ResponseCloseKeeps(max, st, k);
      var closed := ByB(st, ResponseClose(st.resp, k));
      IdleEndKeeps(max, closed);
      assert Step(st, ADeliverUp) == closed.(up := closed.up[1..]);
    } else {
      IdleEndKeeps(max, st);
      assert Step(st, ADeliverUp) == st.(up := st.up[1..]);
    }
  }

  // ---- Deliveries to the requester ----

  lemma PopDownOrderly(max: nat, st: State)
    requires Orderly(max, st) && st.down != []
    ensures Orderly(max, st.(down := st.down[1..]))
  {
    hide From, Delivered, InFlight, InTurn, IdsPartitioned, LastIsOpen;
  }

  /** Taking a frame off `down` is harmless unless it is the ResponseEnd a live session waits for. */
  lemma PopDownKeeps(max: nat, st: State)
    requires Inv(max, st) && st.down != []
    requires st.down[0].frame.ResponseEnd? ==> st.down[0].frame.id !in st.req.table.slots
    ensures Inv(max, st.(down := st.down[1..]))
  {
    hide From, Delivered, InFlight, InTurn, IdsPartitioned, LastIsOpen, EndsAreFinal, Ordered, IdsKnown;
    PopDownOrderly(max, st);
    var st' := st.(down := st.down[1..]);
    assert Turns(st');
    forall id, k | id in st'.req.table.slots && 0 <= k < |st'.resp.log| && Opener(st'.resp, k) == st'.req.table.slots[id]
      ensures Answering(st'.resp, id) == Using(st'.req, id) || EndComing(st'.down, id)
    {
      assert Answering(st.resp, id) == Using(st.req, id) || EndComing(st.down, id);
      if EndComing(st.down, id) {
        var i :| 0 <= i < |st.down| && st.down[i].frame == ResponseEnd(id);
        assert i > 0 && st'.down[i - 1].frame == ResponseEnd(id);
      }
    }
  }

  lemma TakeResponseKeeps(max: nat, st: State, s: nat, p: Parcel)
    requires Inv(max, st) && st.req.table.Live(s)
    ensures Inv(max, st.(req := st.req.(table := st.req.table.Took(s, p))))
  {
    hide From, Delivered, InFlight, InTurn;
    var st' := st.(req := st.req.(table := st.req.table.Took(s, p)));
    forall i: u32 ensures InTurn(st'.up, i, Answering(st'.resp, i), Using(st'.req, i)) {
      assert InTurn(st.up, i, Answering(st.resp, i), Using(st.req, i));
    }
  }

  lemma DeliverDownKeeps(max: nat, st: State)
    requires Inv(max, st) && st.down != []
    ensures Inv(max, Step(st, ADeliverDown))
  {
    hide Turns, Conserved, NotForgotten, IdsPartitioned, IdsKnown, Ordered, EndsAreFinal, LastIsOpen, Isolated;
    var p := st.down[0];
    if p.frame.id !in st.req.table.slots {
      PopDownKeeps(max, st);
      assert Step(st, ADeliverDown) == st.(down := st.down[1..]);
    } else {
      var s := st.req.table.slots[p.frame.id];
      if p.frame.Response? {
        var taken := st.(req := st.req.(table := st.req.table.Took(s, Parcel(p.origin, p.frame.message))));
        TakeResponseKeeps(max, st, s, Parcel(p.origin, p.frame.message));
        PopDownKeeps(max, taken);
        assert Step(st, ADeliverDown) == taken.(down := taken.down[1..]);
      } else {
        var closed := ByA(st, RequestClose(st.req, s));
        RequestCloseKeeps(max, st, s);
        PopDownKeeps(max, closed);
        assert Step(st, ADeliverDown) == closed.(down := closed.down[1..]);
      }
    }
  }

  // ---- Every step, every run ----

  lemma StepKeeps(max: nat, st: State, a: Action)
    requires Inv(max, st)
    ensures Inv(max, Step(st, a))
  {
    hide Turns, Conserved, NotForgotten, IdsPartitioned, IdsKnown, Ordered, EndsAreFinal, LastIsOpen, Isolated;
    match a
    case ACreate => if st.req.free != [] { CreateKeeps(max, st); }
    case ARequestWrite(s, m) => if st.req.table.Live(s) { RequestWriteKeeps(max, st, s, m); } else { Unmoved(st, a); }
    case ARequestClose(s) => if st.req.table.Live(s) { RequestCloseKeeps(max, st, s); } else { Unmoved(st, a); }
    case AResponseWrite(k, m) => if st.resp.Live(k) { ResponseWriteKeeps(max, st, k, m); } else { Unmoved(st, a); }
    case AResponseClose(k) => if st.resp.Live(k) { ResponseCloseKeeps(max, st, k); } else { Unmoved(st, a); }
    case ADeliverUp => if st.up != [] { DeliverUpKeeps(max, st); }
    case ADeliverDown => if st.down != [] { DeliverDownKeeps(max, st); }
  }

  /** A handle whose channel is closed does nothing, whoever uses its id now. */
  lemma Unmoved(st: State, a: Action)
    requires Routable(st)
    requires match a
             case ARequestWrite(s, _) => !st.req.table.Live(s)
             case ARequestClose(s) => !st.req.table.Live(s)
             case AResponseWrite(k, _) => !st.resp.Live(k)
             case AResponseClose(k) => !st.resp.Live(k)
             case _ => false
    ensures Step(st, a) == st
  {
    assert st.up + [] == st.up && st.down + [] == st.down;
  }

  lemma {:induction false} RunKeeps(max: nat, st: State, actions: seq<Action>)
    requires Inv(max, st)
    ensures Inv(max, Run(st, actions))
    decreases |actions|
  {
    if actions != [] {
      StepKeeps(max, st, actions[0]);
      RunKeeps(max, Step(st, actions[0]), actions[1..]);
    }
  }
}
