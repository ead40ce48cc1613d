/** The way back. A request channel only ever hears from response channels opened by itself, exactly when its
    id was clean as it was taken from the free list: the code reuses ids at once, so this needs a proviso. */
module Replies {
  import opened Bytes
  import opened Messages
  import opened Frames
  import opened Peers
  import opened OneWay
  import opened Invariant
  import opened Preservation

  /** Nothing of an earlier session on id can still reach the requester. (A RequestEnd still on its way to
      an empty slot is harmless.) */
  ghost predicate Clean(st: State, id: u32) {
    && id !in st.resp.slots
    && (forall i | 0 <= i < |st.up| && st.up[i].frame.Request? :: st.up[i].frame.id != id)
    && (forall i | 0 <= i < |st.down| :: st.down[i].frame.id != id)
  }

  function NextId(st: State): u32
    requires st.req.free != []
  {
    st.req.free[|st.req.free| - 1]
  }

  /** The frame about to be routed to session s was written by a channel that another session opened. */
  ghost predicate Misdirected(st: State, s: nat)
    requires AllOpened(st.resp)
  {
    && st.down != []
    && st.down[0].frame.id in st.req.table.slots && st.req.table.slots[st.down[0].frame.id] == s
    && !(st.down[0].origin < |st.resp.log| && Opener(st.resp, st.down[0].origin) == s)
  }

  /** The Response frames of one id still on the wire. */
  function RepliesOn(wire: seq<Packet>, id: u32): seq<Payload>
    decreases |wire|
  {
    if wire == [] then []
    else (if wire[0].frame.Response? && wire[0].frame.id == id then [wire[0].frame.message] else [])
         + RepliesOn(wire[1..], id)
  }

  /** Everything written on the response channels that session s opened, channel after channel. */
  function Replied(log: seq<ChannelLog>, s: nat): seq<Payload>
    decreases |log|
  {
    if log == [] then []
    else
      var last := log[|log| - 1];
      Replied(log[..|log| - 1], s) + if last.taken != [] && last.taken[0].origin == s then last.written else []
  }

  // ---- What holds of a session for the rest of the run, once it began clean ----

  /** While s is live, all traffic of its id on the way back, or still to cause some, is its own. */
  ghost predicate OwnsId(st: State, s: nat)
    requires AllOpened(st.resp) && st.resp.Sound()
  {
    st.req.table.Live(s) ==>
      var id := st.req.table.log[s].id;
      && (id in st.resp.slots ==> Opener(st.resp, st.resp.slots[id]) == s)
      && (forall i | 0 <= i < |st.up| && st.up[i].frame.Request? && st.up[i].frame.id == id :: st.up[i].origin == s)
      && (forall i | 0 <= i < |st.down| && st.down[i].frame.id == id ::
            st.down[i].origin < |st.resp.log| && Opener(st.resp, st.down[i].origin) == s)
  }

  ghost predicate HeardOnlyItsOwn(st: State, s: nat)
    requires AllOpened(st.resp) && s < |st.req.table.log|
  {
    forall j | 0 <= j < |st.req.table.log[s].taken| ::
      st.req.table.log[s].taken[j].origin < |st.resp.log| && Opener(st.resp, st.req.table.log[s].taken[j].origin) == s
  }

  /** What s heard is a prefix, in write order, of what was written to it; while s is live the rest is on
      the wire. */
  ghost predicate HeardInOrder(st: State, s: nat)
    requires s < |st.req.table.log|
  {
    var heard := Payloads(st.req.table.log[s].taken);
    if st.req.table.Live(s) then heard + RepliesOn(st.down, st.req.table.log[s].id) == Replied(st.resp.log, s)
    else heard <= Replied(st.resp.log, s)
  }

  ghost predicate Faithful(max: nat, st: State, s: nat) {
    && Inv(max, st) && s < |st.req.table.log|
    && OwnsId(st, s)
    && HeardOnlyItsOwn(st, s)
    && HeardInOrder(st, s)
  }

  lemma RepliesOnHead(wire: seq<Packet>, id: u32)
    requires wire != []
    ensures RepliesOn(wire, id)
         == (if wire[0].frame.Response? && wire[0].frame.id == id then [wire[0].frame.message] else [])
            + RepliesOn(wire[1..], id)
  {
  }

  lemma RepliesOnNothing(id: u32)
    ensures RepliesOn([], id) == []
  {
  }

  lemma {:induction false} RepliesOnAppend(wire: seq<Packet>, p: Packet, id: u32)
    ensures RepliesOn(wire + [p], id)
         == RepliesOn(wire, id) + if p.frame.Response? && p.frame.id == id then [p.frame.message] else []
    decreases |wire|
  {
    hide RepliesOn;
    RepliesOnHead(wire + [p], id);
    RepliesOnNothing(id);
    if wire == [] {
      assert (wire + [p])[1..] == [];
    } else {
      assert (wire + [p])[1..] == wire[1..] + [p];
      RepliesOnAppend(wire[1..], p, id);
      RepliesOnHead(wire, id);
    }
  }

  lemma {:induction false} NoRepliesOn(wire: seq<Packet>, id: u32)
    requires forall i | 0 <= i < |wire| :: wire[i].frame.id != id
    ensures RepliesOn(wire, id) == []
    decreases |wire|
  {
    if wire != [] {
      NoRepliesOn(wire[1..], id);
    }
  }

  ghost predicate OpenedBy(c: ChannelLog, s: nat) {
    c.taken != [] && c.taken[0].origin == s
  }

  lemma {:induction false} RepliedSame(log: seq<ChannelLog>, log': seq<ChannelLog>, s: nat)
    requires |log| == |log'|
    requires forall j | 0 <= j < |log| :: OpenedBy(log[j], s) == OpenedBy(log'[j], s)
    requires forall j | 0 <= j < |log| && OpenedBy(log[j], s) :: log[j].written == log'[j].written
    ensures Replied(log, s) == Replied(log', s)
    decreases |log|
  {
    if log != [] {
      assert OpenedBy(log[|log| - 1], s) == OpenedBy(log'[|log| - 1], s);
      RepliedSame(log[..|log| - 1], log'[..|log| - 1], s);
    }
  }

  lemma {:induction false} RepliedNothing(log: seq<ChannelLog>, k: nat, s: nat)
    requires k <= |log|
    requires forall j | k <= j < |log| :: OpenedBy(log[j], s) ==> log[j].written == []
    ensures Replied(log, s) == Replied(log[..k], s)
    decreases |log|
  {
    if k == |log| {
      assert log[..k] == log;
    } else {
      assert OpenedBy(log[|log| - 1], s) ==> log[|log| - 1].written == [];
      RepliedNothing(log[..|log| - 1], k, s);
      assert log[..|log| - 1][..k] == log[..k];
    }
  }

  lemma RepliedWrite(log: seq<ChannelLog>, k: nat, m: Payload, s: nat)
    requires k < |log|
    requires OpenedBy(log[k], s) ==> forall j | k < j < |log| :: !OpenedBy(log[j], s)
    ensures Replied(log[k := log[k].(written := log[k].written + [m])], s)
         == Replied(log, s) + if OpenedBy(log[k], s) then [m] else []
  {
    var log' := log[k := log[k].(written := log[k].written + [m])];
    if OpenedBy(log[k], s) {
      forall j | k < j < |log| ensures !OpenedBy(log'[j], s) {
        assert log'[j] == log[j];
      }
      RepliedNothing(log, k + 1, s);
      RepliedNothing(log', k + 1, s);
      assert log'[..k + 1][..k] == log[..k + 1][..k];
      assert OpenedBy(log'[k], s);
    } else {
      RepliedSame(log, log', s);
    }
  }

  /** What faithfulness says of a session in terms of the two tables alone. */
  lemma FaithfulHears(max: nat, st: State, s: nat)
    requires Faithful(max, st, s)
    ensures s < |st.req.table.log|
    ensures var taken, log := st.req.table.log[s].taken, st.resp.log;
            && (forall j | 0 <= j < |taken| :: taken[j].origin < |log| && OpenedBy(log[taken[j].origin], s))
            && Payloads(taken) <= Replied(log, s)
            && (st.req.table.Live(s) && st.down == [] ==> Payloads(taken) == Replied(log, s))
  {
    hide Replied, OwnsId, Turns, Conserved, NotForgotten, IdsPartitioned, IdsKnown, Ordered, EndsAreFinal, LastIsOpen, Payloads;
    var heard := Payloads(st.req.table.log[s].taken);
    assert heard <= heard + RepliesOn(st.down, st.req.table.log[s].id);
    assert heard + [] == heard;
  }

  // ---- Clean sessions start faithful ----

  lemma CreateFaithful(max: nat, st: State)
    requires Inv(max, st) && st.req.free != [] && Clean(st, NextId(st))
    ensures Faithful(max, Step(st, ACreate), |st.req.table.log|)
  {
    hide From, Delivered, InFlight, InTurn, RepliesOn, Replied, Turns, Conserved, NotForgotten, IdsPartitioned, Ordered, EndsAreFinal,
         LastIsOpen;
    CreateKeeps(max, st);
    var s := |st.req.table.log|;
    forall j | 0 <= j < |st.resp.log| ensures !OpenedBy(st.resp.log[j], s) {
      assert Opener(st.resp, j) < s;
    }
    RepliedNothing(st.resp.log, 0, s);
    RepliedEmpty(st.resp.log[..0], s);
    NoRepliesOn(st.down, NextId(st));
  }

  lemma RepliedEmpty(log: seq<ChannelLog>, s: nat)
    requires log == []
    ensures Replied(log, s) == []
  {
  }

  // ---- and stay faithful ----

  /** A call of the requester changes nothing for s unless it closes s. */
  lemma ByRequesterFaithful(max: nat, st: State, st': State, s: nat)
    requires Faithful(max, st, s) && Inv(max, st')
    requires st'.resp == st.resp && st'.down == st.down && s < |st'.req.table.log|
    requires st'.req.table.log[s].taken == st.req.table.log[s].taken && st'.req.table.log[s].id == st.req.table.log[s].id
    requires st'.req.table.Live(s) ==> st.req.table.Live(s)
    requires st.up <= st'.up && (forall i | |st.up| <= i < |st'.up| && st'.up[i].frame.Request? ::
               st'.req.table.Live(st'.up[i].origin))
    ensures Faithful(max, st', s)
  {
    hide From, Delivered, InFlight, InTurn, RepliesOn, Replied, Turns, Conserved, NotForgotten, IdsPartitioned, Ordered, EndsAreFinal, LastIsOpen;
    if st'.req.table.Live(s) {
      var id := st.req.table.log[s].id;
      forall i | 0 <= i < |st'.up| && st'.up[i].frame.Request? && st'.up[i].frame.id == id
        ensures st'.up[i].origin == s
      {
        if i < |st.up| {
          assert st'.up[i] == st.up[i];
        }
      }
    }
    var heard := Payloads(st.req.table.log[s].taken);
    assert heard <= heard + RepliesOn(st.down, st.req.table.log[s].id);
  }

  lemma ResponseWriteFaithful(max: nat, st: State, s: nat, k: nat, m: Payload)
    requires Faithful(max, st, s) && st.resp.Live(k)
    ensures Faithful(max, ByB(st, ResponseWrite(st.resp, k, m)), s)
  {
    hide From, Delivered, InFlight, InTurn, RepliesOn, Replied, Turns, Conserved, NotForgotten, IdsPartitioned, Ordered, EndsAreFinal,
         HeardOnlyItsOwn;
    ResponseWriteKeeps(max, st, k, m);
    var st' := ByB(st, ResponseWrite(st.resp, k, m));
    SameOpeners(st.resp, st'.resp);
    StillItsOwn(st, st', s);
    var id := st.req.table.log[s].id;
    var p := Packet(Response(st.resp.log[k].id, m), k);
    assert st'.down == st.down + [p];
    forall j | k < j < |st.resp.log| && OpenedBy(st.resp.log[k], s) ensures !OpenedBy(st.resp.log[j], s) {
      assert Opener(st.resp, j) != Opener(st.resp, k);
    }
    RepliedWrite(st.resp.log, k, m, s);
    RepliesOnAppend(st.down, p, id);
    assert OpenedBy(st.resp.log[k], s) <==> Opener(st.resp, k) == s;
  }

  lemma ResponseCloseFaithful(max: nat, st: State, s: nat, k: nat)
    requires Faithful(max, st, s) && st.resp.Live(k)
    ensures Faithful(max, ByB(st, ResponseClose(st.resp, k)), s)
  {
    hide From, Delivered, InFlight, InTurn, RepliesOn, Replied, Turns, Conserved, NotForgotten, IdsPartitioned, Ordered, EndsAreFinal;
    ResponseCloseKeeps(max, st, k);
    RepliesOnAppend(st.down, Packet(ResponseEnd(st.resp.log[k].id), k), st.req.table.log[s].id);
  }

  /** Delivering a Request writes no reply. */
  lemma TakeRequestReplies(st: State, s: nat)
    requires Routable(st) && AllOpened(st.resp) && Turns(st)
    requires st.up != [] && st.up[0].frame.Request?
    ensures Replied(TakeRequest(st.resp, st.up[0]).after.log, s) == Replied(st.resp.log, s)
  {
    hide InTurn, Replied, Turns;
    RequestExtends(st);
    var t' := TakeRequest(st.resp, st.up[0]).after;
    var log, log' := st.resp.log, t'.log;
    forall j | 0 <= j < |log| ensures OpenedBy(log'[j], s) == OpenedBy(log[j], s) && log'[j].written == log[j].written {
      assert Opener(t', j) == Opener(st.resp, j);
    }
    RepliedNothing(log', |log|, s);
    RepliedSame(log, log'[..|log|], s);
  }

  lemma StillItsOwn(st: State, st': State, s: nat)
    requires AllOpened(st.resp) && AllOpened(st'.resp) && s < |st.req.table.log| && HeardOnlyItsOwn(st, s)
    requires st'.req == st.req && |st.resp.log| <= |st'.resp.log|
    requires forall k | 0 <= k < |st.resp.log| :: Opener(st'.resp, k) == Opener(st.resp, k)
    ensures HeardOnlyItsOwn(st', s)
  {
  }

  lemma TakeRequestFaithful(max: nat, st: State, s: nat)
    requires Faithful(max, st, s) && st.up != [] && st.up[0].frame.Request?
    ensures Faithful(max, ByB(st.(up := st.up[1..]), TakeRequest(st.resp, st.up[0])), s)
  {
    hide From, Delivered, InFlight, InTurn, RepliesOn, Replied, Turns, Conserved, NotForgotten, IdsPartitioned, Ordered, EndsAreFinal, LastIsOpen,
         HeardOnlyItsOwn;
    TakeRequestKeeps(max, st);
    RequestExtends(st);
    TakeRequestReplies(st, s);
    var st' := ByB(st.(up := st.up[1..]), TakeRequest(st.resp, st.up[0]));
    assert st'.down == st.down;
    StillItsOwn(st, st', s);
  }

  lemma IdleEndFaithful(max: nat, st: State, s: nat)
    requires Faithful(max, st, s)
    requires st.up != [] && st.up[0].frame.RequestEnd? && st.up[0].frame.id !in st.resp.slots
    ensures Faithful(max, st.(up := st.up[1..]), s)
  {
    hide From, Delivered, InFlight, InTurn, RepliesOn, Replied, Turns, Conserved, NotForgotten, IdsPartitioned, Ordered, EndsAreFinal;
    IdleEndKeeps(max, st);
  }

  lemma DeliverUpFaithful(max: nat, st: State, s: nat)
    requires Faithful(max, st, s) && st.up != []
    ensures Faithful(max, Step(st, ADeliverUp), s)
  {
    hide Turns, Conserved, NotForgotten, IdsPartitioned, IdsKnown, Ordered, EndsAreFinal, LastIsOpen, Isolated, OwnsId, HeardOnlyItsOwn, HeardInOrder;
    var p := st.up[0];
    if p.frame.Request? {
      TakeRequestFaithful(max, st, s);
    } else if p.frame.id in st.resp.slots {
      var k := st.resp.slots[p.frame.id];
      ResponseCloseFaithful(max, st, s, k);
      var closed := ByB(st, ResponseClose(st.resp, k));
      IdleEndFaithful(max, closed, s);
      assert Step(st, ADeliverUp) == closed.(up := closed.up[1..]);
    } else {
      IdleEndFaithful(max, st, s);
      assert Step(st, ADeliverUp) == st.(up := st.up[1..]);
    }
  }

  /** A frame that is not a Response for s is only taken off the wire. */
  lemma PopDownFaithful(max: nat, st: State, s: nat)
    requires Faithful(max, st, s) && st.down != []
    requires st.down[0].frame.ResponseEnd? ==> st.down[0].frame.id !in st.req.table.slots
    requires st.down[0].frame.Response? && st.req.table.Live(s) ==> st.down[0].frame.id != st.req.table.log[s].id
    ensures Faithful(max, st.(down := st.down[1..]), s)
  {
    hide From, Delivered, InFlight, InTurn, RepliesOn, Replied, Turns, Conserved, NotForgotten, IdsPartitioned, Ordered, EndsAreFinal;
    PopDownKeeps(max, st);
    RepliesOnHead(st.down, st.req.table.log[s].id);
  }

  lemma TakeReplyFaithful(max: nat, st: State, s: nat)
    requires Faithful(max, st, s) && st.down != [] && st.down[0].frame.Response?
    requires st.down[0].frame.id in st.req.table.slots
    ensures Faithful(max, Step(st, ADeliverDown), s)
  {
    hide From, Delivered, InFlight, InTurn, RepliesOn, Replied, Turns, Conserved, NotForgotten, IdsPartitioned, Ordered, EndsAreFinal, LastIsOpen;
    DeliverDownKeeps(max, st);
    var st' := Step(st, ADeliverDown);
    var p := st.down[0];
    RepliesOnHead(st.down, st.req.table.log[s].id);
    var taken, taken' := st.req.table.log[s].taken, st'.req.table.log[s].taken;
    if st.req.table.slots[p.frame.id] == s {
      assert taken' == taken + [Parcel(p.origin, p.frame.message)];
      assert Payloads(taken') == Payloads(taken) + [p.frame.message];
      assert st.req.table.Live(s);
    } else {
      assert taken' == taken;
    }
    assert st'.up == st.up;
  }

  lemma DeliverDownFaithful(max: nat, st: State, s: nat)
    requires Faithful(max, st, s) && st.down != []
    ensures Faithful(max, Step(st, ADeliverDown), s)
  {
    hide Turns, Conserved, NotForgotten, IdsPartitioned, IdsKnown, Ordered, EndsAreFinal, LastIsOpen, Isolated, OwnsId, HeardOnlyItsOwn, HeardInOrder;
    var p := st.down[0];
    if p.frame.id !in st.req.table.slots {
      PopDownFaithful(max, st, s);
      assert Step(st, ADeliverDown) == st.(down := st.down[1..]);
    } else if p.frame.Response? {
      TakeReplyFaithful(max, st, s);
    } else {
      var x := st.req.table.slots[p.frame.id];
      var closed := ByA(st, RequestClose(st.req, x));
      RequestCloseKeeps(max, st, x);
      ByRequesterFaithful(max, st, closed, s);
      PopDownFaithful(max, closed, s);
      assert Step(st, ADeliverDown) == closed.(down := closed.down[1..]);
    }
  }

  lemma StepFaithful(max: nat, st: State, a: Action, s: nat)
    requires Faithful(max, st, s)
    ensures Faithful(max, Step(st, a), s)
  {
    hide Turns, Conserved, NotForgotten, IdsPartitioned, IdsKnown, Ordered, EndsAreFinal, LastIsOpen, Isolated, OwnsId, HeardOnlyItsOwn, HeardInOrder;
    StepKeeps(max, st, a);
    match a
    case ACreate => CreateOtherFaithful(max, st, s);
    case ARequestWrite(x, m) => if st.req.table.Live(x) { ByRequesterFaithful(max, st, Step(st, a), s); } else { Unmoved(st, a); }
    case ARequestClose(x) => if st.req.table.Live(x) { ByRequesterFaithful(max, st, Step(st, a), s); } else { Unmoved(st, a); }
    case AResponseWrite(k, m) => if st.resp.Live(k) { ResponseWriteFaithful(max, st, s, k, m); } else { Unmoved(st, a); }
    case AResponseClose(k) => if st.resp.Live(k) { ResponseCloseFaithful(max, st, s, k); } else { Unmoved(st, a); }
    case ADeliverUp => if st.up != [] { DeliverUpFaithful(max, st, s); }
    case ADeliverDown => if st.down != [] { DeliverDownFaithful(max, st, s); }
  }

  lemma CreateOtherFaithful(max: nat, st: State, s: nat)
    requires Faithful(max, st, s)
    ensures Faithful(max, Step(st, ACreate), s)
  {
    hide Turns, Conserved, NotForgotten, IdsKnown, Ordered, EndsAreFinal, LastIsOpen, Isolated, OwnsId, HeardOnlyItsOwn, HeardInOrder;
    StepKeeps(max, st, ACreate);
    if st.req.free != [] {
      ByRequesterFaithful(max, st, Step(st, ACreate), s);
    }
  }

  lemma {:induction false} RunFaithful(max: nat, st: State, actions: seq<Action>, s: nat)
    requires Faithful(max, st, s)
    ensures Faithful(max, Run(st, actions), s)
    decreases |actions|
  {
    if actions != [] {
      StepFaithful(max, st, actions[0], s);
      RunFaithful(max, Step(st, actions[0]), actions[1..], s);
    }
  }
}
