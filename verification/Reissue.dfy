/** Exactly when an id may be reissued: the guard on createRequestChannel that the code does not have. */
module Reissue {
  import opened Bytes
  import opened Messages
  import opened Frames
  import opened Peers
  import opened OneWay
  import opened Invariant
  import opened Preservation
  import opened Protocol
  import opened Replies

  // ---- Clean is enough, whatever anybody does afterwards ----

  /** A session created on a clean id hears only channels it opened itself, in the order they wrote, nothing
      lost while it is live; and no frame of anybody else's ever closes it. */
  lemma ResponseIsolation(max: nat, before: seq<Action>, after: seq<Action>)
    requires max < U32_LIMIT
    requires Reached(max, before).req.free != [] && Clean(Reached(max, before), NextId(Reached(max, before)))
    ensures var st := Reached(max, before);
            var s := |st.req.table.log|;
            var end := Run(Step(st, ACreate), after);
            Faithful(max, end, s) && !Misdirected(end, s)
  {
    ReachedKeeps(max, before);
    var st := Reached(max, before);
    var s := |st.req.table.log|;
    CreateFaithful(max, st);
    RunFaithful(max, Step(st, ACreate), after, s);
    NeverMisdirected(max, Run(Step(st, ACreate), after), s);
  }

  lemma NeverMisdirected(max: nat, st: State, s: nat)
    requires Faithful(max, st, s)
    ensures !Misdirected(st, s)
  {
    hide HeardInOrder, HeardOnlyItsOwn, Turns, Conserved, NotForgotten, Ordered, EndsAreFinal, LastIsOpen, IdsPartitioned;
  }

  lemma Next(st: State, a: Action, rest: seq<Action>) returns (st': State)
    requires Routable(st)
    ensures st' == Step(st, a) && Routable(st') && Run(st, [a] + rest) == Run(st', rest)
  {
    StepRoutable(st, a);
    st' := Step(st, a);
    assert ([a] + rest)[1..] == rest;
  }

  // ---- Clean is needed ----

  /** Session s has just been created on id and an earlier session's traffic can still reach it. */
  ghost predicate Tainted(max: nat, st: State, s: nat) {
    && Inv(max, st) && st.req.table.Live(s)
    && (forall i | 0 <= i < |st.up| :: st.up[i].origin != s)
    && (forall k | 0 <= k < |st.resp.log| :: Opener(st.resp, k) != s)
    && !Clean(st, st.req.table.log[s].id)
  }

  lemma CreateTaints(max: nat, st: State)
    requires Inv(max, st) && st.req.free != [] && !Clean(st, NextId(st))
    ensures Tainted(max, Step(st, ACreate), |st.req.table.log|)
  {
    hide From, Delivered, InFlight, InTurn, Turns, Conserved, NotForgotten, EndsAreFinal, LastIsOpen, Ordered, IdsPartitioned;
    CreateKeeps(max, st);
    forall k | 0 <= k < |st.resp.log| ensures Opener(st.resp, k) < |st.req.table.log| {}
  }

  lemma TaintSurvivesRequest(max: nat, st: State, s: nat)
    requires Tainted(max, st, s) && st.up != [] && st.up[0].frame.Request?
    ensures Tainted(max, Step(st, ADeliverUp), s)
  {
    hide From, Delivered, InFlight, InTurn, Conserved, NotForgotten, Turns, Ordered, LastIsOpen, IdsPartitioned, EndsAreFinal, Step, TakeRequest;
    DeliverUpKeeps(max, st);
    var st' := Step(st, ADeliverUp);
    RequestArrives(st);
    RequestExtends(st);
    forall k | 0 <= k < |st'.resp.log| ensures Opener(st'.resp, k) != s {
      if k < |st.resp.log| {
        assert Opener(st'.resp, k) == Opener(st.resp, k);
      }
    }
    if Clean(st', st.req.table.log[s].id) {
      CleanBeforeUp(st, st', st.req.table.log[s].id);
    }
  }

  /** Delivering a frame of the old traffic leaves old traffic: at worst it comes back as a ResponseEnd. */
  lemma TaintSurvivesUp(max: nat, st: State, s: nat)
    requires Tainted(max, st, s) && st.up != []
    ensures Tainted(max, Step(st, ADeliverUp), s)
  {
    hide From, Delivered, InFlight, InTurn, Conserved, NotForgotten, Turns, Ordered, LastIsOpen, IdsPartitioned, IdsKnown, EndsAreFinal;
    var id := st.req.table.log[s].id;
    if st.up[0].frame.Request? {
      TaintSurvivesRequest(max, st, s);
    } else {
      DeliverUpKeeps(max, st);
      var st' := Step(st, ADeliverUp);
      if st.up[0].frame.id == id && id in st.resp.slots {
        assert st'.down[|st.down|].frame == ResponseEnd(id);
      } else {
        assert id in st.resp.slots ==> id in st'.resp.slots;
        if Clean(st', id) {
          CleanBeforeUp(st, st', id);
        }
      }
    }
  }

  /** A delivery cannot make an id clean, except by opening or closing what the old traffic asks for. */
  lemma CleanBeforeUp(st: State, st': State, id: u32)
    requires st.up != [] && st'.up == st.up[1..] && st.down <= st'.down
    requires id in st.resp.slots || (st.up[0].frame.Request? && st.up[0].frame.id == id) ==> id in st'.resp.slots
    requires Clean(st', id)
    ensures Clean(st, id)
  {
    forall i | 0 <= i < |st.up| && st.up[i].frame.Request? ensures st.up[i].frame.id != id {
      if i > 0 {
        assert st'.up[i - 1] == st.up[i];
      }
    }
    forall i | 0 <= i < |st.down| ensures st.down[i].frame.id != id {
      assert st'.down[i] == st.down[i];
    }
  }

  lemma CleanBeforeDown(st: State, st': State, id: u32)
    requires st.up == [] && st.down != [] && st'.down == st.down[1..] && st'.resp == st.resp
    requires st.down[0].frame.id != id && Clean(st', id)
    ensures Clean(st, id)
  {
    forall i | 0 <= i < |st.down| ensures st.down[i].frame.id != id {
      if i > 0 {
        assert st'.down[i - 1] == st.down[i];
      }
    }
  }

  lemma TaintSurvivesDown(max: nat, st: State, s: nat)
    requires Tainted(max, st, s) && st.up == [] && st.down != [] && st.down[0].frame.id != st.req.table.log[s].id
    ensures Tainted(max, Step(st, ADeliverDown), s)
  {
    hide From, Delivered, InFlight, InTurn, Conserved, NotForgotten, Turns, Ordered, LastIsOpen, IdsPartitioned, IdsKnown, EndsAreFinal;
    DeliverDownKeeps(max, st);
    var st' := Step(st, ADeliverDown);
    var id := st.req.table.log[s].id;
    assert st'.resp == st.resp;
    if Clean(st', id) {
      CleanBeforeDown(st, st', id);
    }
  }

  /** With nothing left on the way up, the old traffic is on the way down. */
  lemma TaintIsOnTheWayDown(max: nat, st: State, s: nat)
    requires Tainted(max, st, s) && st.up == []
    ensures exists i :: 0 <= i < |st.down| && st.down[i].frame.id == st.req.table.log[s].id
  {
    var id := st.req.table.log[s].id;
    assert InTurn(st.up, id, Answering(st.resp, id), Using(st.req, id));
  }

  ghost predicate OnlyDeliveries(actions: seq<Action>) {
    forall i | 0 <= i < |actions| :: actions[i].ADeliverUp? || actions[i].ADeliverDown?
  }

  /** It takes nothing but deliveries for the old traffic to reach the new session. */
  lemma {:induction false} TaintArrives(max: nat, st: State, s: nat) returns (actions: seq<Action>)
    requires Tainted(max, st, s)
    ensures OnlyDeliveries(actions)
    ensures Inv(max, Run(st, actions)) && Misdirected(Run(st, actions), s)
    decreases Measure(st)
  {
    hide Conserved, NotForgotten, Turns, Ordered, LastIsOpen, IdsPartitioned, IdsKnown, EndsAreFinal, Clean, Measure, From, Delivered, InFlight, InTurn;
    if st.up != [] {
      TaintSurvivesUp(max, st, s);
      DeliveryLowers(st, ADeliverUp);
      var rest := TaintArrives(max, Step(st, ADeliverUp), s);
      actions := [ADeliverUp] + rest;
      var _ := Next(st, ADeliverUp, rest);
    } else {
      TaintIsOnTheWayDown(max, st, s);
      if st.down[0].frame.id == st.req.table.log[s].id {
        actions := [];
      } else {
        TaintSurvivesDown(max, st, s);
        DeliveryLowers(st, ADeliverDown);
        var rest := TaintArrives(max, Step(st, ADeliverDown), s);
        actions := [ADeliverDown] + rest;
        var _ := Next(st, ADeliverDown, rest);
      }
    }
  }

  // ---- Together ----

  ghost predicate Astray(max: nat, st: State, after: seq<Action>, s: nat)
    requires Routable(st)
  {
    Inv(max, Run(st, after)) && Misdirected(Run(st, after), s)
  }

  /** Taking an id from the free list is safe, for every continuation of the run, exactly when the id is clean. */
  lemma ReissueIsSafeIffClean(max: nat, before: seq<Action>)
    requires max < U32_LIMIT && Reached(max, before).req.free != []
    ensures Routable(Step(Reached(max, before), ACreate))
    ensures var st := Reached(max, before);
            Clean(st, NextId(st)) <==>
              forall after :: !Astray(max, Step(st, ACreate), after, |st.req.table.log|)
  {
    ReachedKeeps(max, before);
    var st := Reached(max, before);
    var next := Step(st, ACreate);
    StepRoutable(st, ACreate);
    var s := |st.req.table.log|;
    if Clean(st, NextId(st)) {
      forall after ensures !Astray(max, next, after, s) {
        ResponseIsolation(max, before, after);
      }
    } else {
      CreateTaints(max, st);
      var after := TaintArrives(max, next, s);
      assert Astray(max, next, after, s);
    }
  }

  /** One session, answered once; the reply is on its way. */
  lemma AnsweredOnce(m: Payload, r: Payload) returns (st: State)
    ensures Routable(st) && st == Reached(1, [ACreate, ARequestWrite(0, m), ADeliverUp, AResponseWrite(0, r)])
    ensures st.req == Requester([], Table(map[0 := 0], [ChannelLog(0, [m], [])]))
    ensures st.up == [] && st.down == [Packet(Response(0, r), 0)]
    ensures |st.resp.log| == 1 && st.resp.log[0].taken == [Parcel(0, m)]
  {
    var s0 := Initial(1);
    assert s0.req.free == [0];
    var s1 := Next(s0, ACreate, [ARequestWrite(0, m), ADeliverUp, AResponseWrite(0, r)]);
    assert s1.req.free == [] && s1.req.table == Table(map[0 := 0], [ChannelLog(0, [], [])]);
    var s2 := Next(s1, ARequestWrite(0, m), [ADeliverUp, AResponseWrite(0, r)]);
    assert s2.up == [Packet(Request(0, m), 0)] && s2.resp == Table(map[], []);
    var s3 := Next(s2, ADeliverUp, [AResponseWrite(0, r)]);
    assert s3.up == [] && s3.resp.slots == map[0 := 0] && |s3.resp.log| == 1 && s3.resp.log[0].id == 0;
    assert s2.req.table.log[0].written == [m] && s2.req.table.log == [ChannelLog(0, [m], [])];
    assert s3.req.table == Table(map[0 := 0], [ChannelLog(0, [m], [])]);
    assert s3.resp.log[0].taken == [Parcel(0, m)];
    st := Next(s3, AResponseWrite(0, r), []);
    assert st.resp.log[0].taken == [Parcel(0, m)];
    assert st.req == Requester([], Table(map[0 := 0], [ChannelLog(0, [m], [])]));
  }

  lemma FirstCloses(st: State, m: Payload)
    requires Routable(st) && st.req == Requester([], Table(map[0 := 0], [ChannelLog(0, [m], [])]))
    ensures var st' := Step(st, ARequestClose(0));
            st'.req == Requester([0], Table(map[], [ChannelLog(0, [m], [])])) && st'.resp == st.resp && st'.down == st.down
  {
    assert st.req.table.Live(0);
    assert map[0 := 0] - {0} == map[];
  }

  lemma IdTakenAgain(st: State, m: Payload)
    requires Routable(st) && st.req == Requester([0], Table(map[], [ChannelLog(0, [m], [])]))
    ensures var st' := Step(st, ACreate);
            && st'.req == Requester([], Table(map[0 := 1], [ChannelLog(0, [m], []), ChannelLog(0, [], [])]))
            && st'.resp == st.resp && st'.down == st.down
  {
  }

  lemma ReplyArrives(st: State, m: Payload, r: Payload)
    requires Routable(st) && st.down == [Packet(Response(0, r), 0)]
    requires st.req == Requester([], Table(map[0 := 1], [ChannelLog(0, [m], []), ChannelLog(0, [], [])]))
    ensures var st' := Step(st, ADeliverDown);
            && st'.req.table.log == [ChannelLog(0, [m], []), ChannelLog(0, [], [Parcel(0, r)])] && st'.resp == st.resp
  {
    assert [] + [Parcel(0, r)] == [Parcel(0, r)];
  }

  /** The session closes, its id is taken again, and the reply arrives. */
  lemma Overtaken(s4: State, m: Payload, r: Payload)
    requires Routable(s4) && s4.req == Requester([], Table(map[0 := 0], [ChannelLog(0, [m], [])]))
    requires s4.up == [] && s4.down == [Packet(Response(0, r), 0)]
    ensures var st := Run(s4, [ARequestClose(0), ACreate, ADeliverDown]);
            && |st.req.table.log| == 2 && st.req.table.log[1] == ChannelLog(0, [], [Parcel(0, r)])
            && st.resp == s4.resp
  {
    hide Run, Step, Routable;
    assert [ARequestClose(0), ACreate, ADeliverDown] == [ARequestClose(0)] + [ACreate, ADeliverDown];
    assert [ACreate, ADeliverDown] == [ACreate] + [ADeliverDown] && [ADeliverDown] == [ADeliverDown] + [];
    FirstCloses(s4, m);
    var s5 := Next(s4, ARequestClose(0), [ACreate, ADeliverDown]);
    IdTakenAgain(s5, m);
    var s6 := Next(s5, ACreate, [ADeliverDown]);
    ReplyArrives(s6, m, r);
    var s7 := Next(s6, ADeliverDown, []);
    RunNothing(s7);
  }

  /** The code reissues ids that are not clean: with one id, a reply to the closed session 0 ends up in the
      buffer of session 1, which never wrote anything. */
  lemma ReuseMisdelivers(m: Payload, r: Payload)
    ensures var st := Reached(1, [ACreate, ARequestWrite(0, m), ADeliverUp, AResponseWrite(0, r)]
                                 + [ARequestClose(0), ACreate, ADeliverDown]);
            && |st.req.table.log| == 2 && st.req.table.log[1] == ChannelLog(0, [], [Parcel(0, r)])
            && |st.resp.log| == 1 && st.resp.log[0].taken == [Parcel(0, m)]
  {
    hide Run;
    var s4 := AnsweredOnce(m, r);
    RunSplit(Initial(1), [ACreate, ARequestWrite(0, m), ADeliverUp, AResponseWrite(0, r)], [ARequestClose(0), ACreate, ADeliverDown]);
    Overtaken(s4, m, r);
  }
}
