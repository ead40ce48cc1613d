/** The main results about the requests of one opener, over every run: any interleaving of creates, writes,
    closes and deliveries, with ids reused at once. */
module Protocol {
  import opened Bytes
  import opened Frames
  import opened Peers
  import opened OneWay
  import opened Invariant
  import opened Preservation

  function Reached(max: nat, actions: seq<Action>): (st: State)
    requires max < U32_LIMIT
    ensures Routable(st)
  {
    RunSplit(Initial(max), actions, []);
    Run(Initial(max), actions)
  }

  lemma ReachedKeeps(max: nat, actions: seq<Action>)
    requires max < U32_LIMIT
    ensures Inv(max, Reached(max, actions))
  {
    InvInitial(max);
    RunKeeps(max, Initial(max), actions);
  }

  /** What the response channels took because of session s, in the order they were made, followed by what
      is still on the wire, is exactly what s wrote. */
  lemma RequestConservation(max: nat, actions: seq<Action>, s: nat)
    requires max < U32_LIMIT
    requires s < |Reached(max, actions).req.table.log|
    ensures var st := Reached(max, actions);
            Delivered(st.resp.log, s) + InFlight(st.up, s) == st.req.table.log[s].written
  {
    ReachedKeeps(max, actions);
  }

  /** No response channel ever holds messages of two sessions, and the session it serves has its id. */
  lemma RequestIsolation(max: nat, actions: seq<Action>, k: nat, i: nat, j: nat)
    requires max < U32_LIMIT
    requires var st := Reached(max, actions);
             k < |st.resp.log| && i < |st.resp.log[k].taken| && j < |st.resp.log[k].taken|
    ensures var st := Reached(max, actions);
            var s := st.resp.log[k].taken[i].origin;
            s == st.resp.log[k].taken[j].origin && s < |st.req.table.log| && st.req.table.log[s].id == st.resp.log[k].id
  {
    ReachedKeeps(max, actions);
    var st := Reached(max, actions);
    assert st.resp.log[k].taken[i].origin == Opener(st.resp, k) == st.resp.log[k].taken[j].origin;
  }

  /** Ids are neither lost nor doubled, and every id on a wire indexes inside the tables. */
  lemma IdConservation(max: nat, actions: seq<Action>)
    requires max < U32_LIMIT
    ensures var st := Reached(max, actions);
            && IdsPartitioned(max, st.req)
            && |st.req.free| + |st.req.table.slots| == max
            && (forall i | 0 <= i < |st.up| :: st.up[i].frame.id < max)
            && (forall i | 0 <= i < |st.down| :: st.down[i].frame.id < max)
  {
    ReachedKeeps(max, actions);
    var st := Reached(max, actions);
    forall i | 0 <= i < |st.down| ensures st.down[i].frame.id < max {
      assert st.req.table.log[Opener(st.resp, st.down[i].origin)].id == st.down[i].frame.id;
    }
    PartitionCounts(max, st.req);
  }

  lemma PartitionCounts(max: nat, r: Requester)
    requires max < U32_LIMIT && IdsPartitioned(max, r)
    ensures |r.free| + |r.table.slots| == max
  {
    forall id: u32 ensures id in r.table.slots.Keys <==> id in r.table.slots {}
    DistinctCount(r.free);
    CountSplit(max, Elements(r.free), r.table.slots.Keys);
    assert |r.table.slots| == |r.table.slots.Keys|;
  }

  lemma CountSplit(max: nat, free: set<u32>, used: set<u32>)
    requires max < U32_LIMIT && free !! used
    requires forall id: u32 :: id < max <==> id in free || id in used
    ensures |free| + |used| == max
  {
    assert Below(max) == free + used;
    assert |free + used| == |free| + |used|;
  }

  function Elements(s: seq<u32>): set<u32> {
    set id | id in s
  }

  lemma {:induction false} DistinctCount(s: seq<u32>)
    requires forall i, j | 0 <= i < j < |s| :: s[i] != s[j]
    ensures |Elements(s)| == |s|
    decreases |s|
  {
    if s != [] {
      var n := |s| - 1;
      DistinctCount(s[..n]);
      assert s == s[..n] + [s[n]];
      assert Elements(s) == Elements(s[..n]) + {s[n]};
    }
  }

  function Below(n: nat): (r: set<u32>)
    requires n < U32_LIMIT
    ensures |r| == n && forall id: u32 :: id in r <==> id < n
  {
    if n == 0 then {} else var top: u32 := n - 1; Below(n - 1) + {top}
  }

  // ---- Stale handles ----

  /** Channel k was made and has been closed. */
  ghost predicate Closed(t: Table, k: nat) {
    k < |t.log| && !t.Live(k)
  }

  ghost predicate Untouched(t: Table, t': Table, k: nat) {
    Closed(t, k) ==> Closed(t', k) && t'.log[k] == t.log[k]
  }

  lemma StepSparesClosed(st: State, a: Action, k: nat)
    requires Routable(st)
    ensures Untouched(st.req.table, Step(st, a).req.table, k) && Untouched(st.resp, Step(st, a).resp, k)
  {
  }

  /** A closed channel stays closed and as it was whatever happens later, with its id in use again or not:
      writes, pushes and closes through an old handle reach nobody. */
  lemma {:induction false} ClosedForGood(st: State, actions: seq<Action>, k: nat)
    requires Routable(st)
    ensures Untouched(st.req.table, Run(st, actions).req.table, k) && Untouched(st.resp, Run(st, actions).resp, k)
    decreases |actions|
  {
    hide Step;
    if actions != [] {
      StepRoutable(st, actions[0]);
      StepSparesClosed(st, actions[0], k);
      ClosedForGood(Step(st, actions[0]), actions[1..], k);
    }
  }

  // ---- Quiescence ----

  lemma {:induction false} FromTheirOpener(parcels: seq<Parcel>, s: nat)
    requires parcels != [] && forall j | 0 <= j < |parcels| :: parcels[j].origin == s
    ensures From(parcels, s) != []
  {
    assert parcels[|parcels| - 1].origin == s;
  }

  lemma {:induction false} DeliveredBySome(log: seq<ChannelLog>, s: nat, k: nat)
    requires k < |log| && From(log[k].taken, s) != []
    ensures Delivered(log, s) != []
    decreases |log|
  {
    if k < |log| - 1 {
      DeliveredBySome(log[..|log| - 1], s, k);
    }
  }

  /** Session s has a response channel to its name exactly when something of it was delivered. */
  lemma AnsweredIffDelivered(max: nat, st: State, s: nat)
    requires Inv(max, st)
    ensures Delivered(st.resp.log, s) != [] <==> exists k :: 0 <= k < |st.resp.log| && Opener(st.resp, k) == s
  {
    if k :| 0 <= k < |st.resp.log| && Opener(st.resp, k) == s {
      FromTheirOpener(st.resp.log[k].taken, s);
      DeliveredBySome(st.resp.log, s, k);
    } else {
      forall k | 0 <= k < |st.resp.log| ensures From(st.resp.log[k].taken, s) == [] {
        FromNobody(st.resp.log[k].taken, s);
      }
      DeliveredTail(st.resp.log, 0, s);
    }
  }

  ghost predicate Quiet(st: State) {
    st.up == [] && st.down == []
  }

  /** With both wires empty, a response channel is open for id exactly when id is in use by a session
      that has written something, and it serves that session. */
  lemma QuietIsConsistent(max: nat, st: State, id: u32)
    requires Inv(max, st) && Quiet(st)
    ensures id in st.resp.slots <==>
              id in st.req.table.slots && st.req.table.log[st.req.table.slots[id]].written != []
    ensures id in st.resp.slots ==> Opener(st.resp, st.resp.slots[id]) == st.req.table.slots[id]
  {
    hide From, Delivered, IdsPartitioned, LastIsOpen, Ordered, EndsAreFinal;
    assert InTurn([], id, Answering(st.resp, id), Using(st.req, id));
    if id in st.req.table.slots {
      var s := st.req.table.slots[id];
      assert Delivered(st.resp.log, s) + InFlight(st.up, s) == st.req.table.log[s].written;
      assert Delivered(st.resp.log, s) == st.req.table.log[s].written;
      AnsweredIffDelivered(max, st, s);
      if id in st.resp.slots {
        assert Opener(st.resp, st.resp.slots[id]) == s;
      }
    }
  }

  lemma NoHalfOpenChannels(max: nat, actions: seq<Action>, id: u32)
    requires max < U32_LIMIT && Quiet(Reached(max, actions))
    ensures Inv(max, Reached(max, actions))
    ensures var st := Reached(max, actions);
            && (id in st.resp.slots <==>
                  id in st.req.table.slots && st.req.table.log[st.req.table.slots[id]].written != [])
            && (id in st.resp.slots ==> Opener(st.resp, st.resp.slots[id]) == st.req.table.slots[id])
  {
    ReachedKeeps(max, actions);
    QuietIsConsistent(max, Reached(max, actions), id);
  }

  // ---- The End exchange terminates ----

  function Requests(wire: seq<Packet>): (n: nat)
    ensures n <= |wire|
    decreases |wire|
  {
    if wire == [] then 0 else (if wire[0].frame.Request? then 1 else 0) + Requests(wire[1..])
  }

  lemma {:induction false} RequestsAppend(wire: seq<Packet>, p: Packet)
    ensures Requests(wire + [p]) == Requests(wire) + if p.frame.Request? then 1 else 0
    decreases |wire|
  {
    if wire == [] {
      assert (wire + [p])[1..] == [];
    } else {
      assert (wire + [p])[1..] == wire[1..] + [p];
      RequestsAppend(wire[1..], p);
    }
  }

  /** A Request in flight weighs two, any other frame one, and so does each open channel. */
  function Measure(st: State): nat {
    2 * Requests(st.up) + (|st.up| - Requests(st.up)) + |st.down| + |st.req.table.slots| + |st.resp.slots|
  }

  lemma SlotCounts<K, V>(slots: map<K, V>, id: K, v: V)
    ensures id !in slots ==> |slots[id := v]| == |slots| + 1
    ensures id in slots ==> |slots - {id}| == |slots| - 1
  {
    assert slots[id := v].Keys == slots.Keys + {id};
    assert (slots - {id}).Keys == slots.Keys - {id};
    assert |slots| == |slots.Keys| && |slots - {id}| == |(slots - {id}).Keys|;
    assert |slots[id := v]| == |slots[id := v].Keys|;
  }

  /** Every delivery lowers the measure, so no End frame is ever answered for ever. */
  lemma DeliveryLowers(st: State, a: Action)
    requires Routable(st)
    requires (a.ADeliverUp? && st.up != []) || (a.ADeliverDown? && st.down != [])
    ensures Measure(Step(st, a)) < Measure(st)
  {
    hide Step, Measure;
    if a.ADeliverUp? {
      DeliveryUpLowers(st);
    } else {
      DeliveryDownLowers(st);
    }
  }

  lemma TakingCounts(t: Table, p: Packet)
    requires p.frame.FromOpener() && t.Sound()
    ensures var e := TakeRequest(t, p);
            |e.after.slots| + |e.sent| <= |t.slots| + if p.frame.Request? then 1 else 0
  {
    SlotCounts(t.slots, p.frame.id, |t.log|);
  }

  lemma DeliveryUpLowers(st: State)
    requires Routable(st) && st.up != []
    ensures Measure(Step(st, ADeliverUp)) < Measure(st)
  {
    hide Requests, TakeRequest;
    TakingCounts(st.resp, st.up[0]);
    RequestsHead(st.up);
  }

  lemma RequestsHead(wire: seq<Packet>)
    requires wire != []
    ensures Requests(wire) == (if wire[0].frame.Request? then 1 else 0) + Requests(wire[1..])
  {
  }

  lemma DeliveryDownLowers(st: State)
    requires Routable(st) && st.down != []
    ensures Measure(Step(st, ADeliverDown)) < Measure(st)
  {
    hide Requests;
    var p := st.down[0];
    if p.frame.id in st.req.table.slots {
      SlotCounts(st.req.table.slots, p.frame.id, 0);
      RequestsAppend(st.up, Packet(RequestEnd(p.frame.id), st.req.table.slots[p.frame.id]));
    }
    assert st.up + [] == st.up;
  }

  /** One delivery, from the wire the scheduler prefers if that one has a frame. */
  function DeliverSome(st: State, preferUp: bool): State
    requires Routable(st)
  {
    if (preferUp && st.up != []) || st.down == [] then Step(st, ADeliverUp) else Step(st, ADeliverDown)
  }

  function DeliverMany(st: State, scheduler: seq<bool>): State
    requires Routable(st)
    decreases |scheduler|
  {
    if scheduler == [] then st
    else
      StepRoutable(st, ADeliverUp);
      StepRoutable(st, ADeliverDown);
      DeliverMany(DeliverSome(st, scheduler[0]), scheduler[1..])
  }

  lemma {:induction false} DeliveriesDrain(st: State, scheduler: seq<bool>)
    requires Routable(st)
    ensures var end := DeliverMany(st, scheduler);
            Quiet(end) || Measure(end) + |scheduler| <= Measure(st)
    decreases |scheduler|
  {
    if scheduler != [] {
      StepRoutable(st, ADeliverUp);
      StepRoutable(st, ADeliverDown);
      var next := DeliverSome(st, scheduler[0]);
      if Quiet(st) {
        assert next == st;
      } else {
        DeliveryLowers(st, if (scheduler[0] && st.up != []) || st.down == [] then ADeliverUp else ADeliverDown);
      }
      DeliveriesDrain(next, scheduler[1..]);
      if Quiet(st) {
        StaysQuiet(st, scheduler);
      }
    }
  }

  lemma {:induction false} StaysQuiet(st: State, scheduler: seq<bool>)
    requires Routable(st) && Quiet(st)
    ensures DeliverMany(st, scheduler) == st
    decreases |scheduler|
  {
    if scheduler != [] {
      StaysQuiet(st, scheduler[1..]);
    }
  }

  lemma {:induction false} DeliverManyKeeps(max: nat, st: State, scheduler: seq<bool>)
    requires Inv(max, st)
    ensures Inv(max, DeliverMany(st, scheduler))
    decreases |scheduler|
  {
    if scheduler != [] {
      StepKeeps(max, st, ADeliverUp);
      StepKeeps(max, st, ADeliverDown);
      DeliverManyKeeps(max, DeliverSome(st, scheduler[0]), scheduler[1..]);
    }
  }

  /** When the users fall silent, every order of deliveries empties both wires within Measure steps, and
      leaves no half-open channel behind. */
  lemma EndExchangeTerminates(max: nat, actions: seq<Action>, scheduler: seq<bool>, id: u32)
    requires max < U32_LIMIT && |scheduler| > Measure(Reached(max, actions))
    ensures Inv(max, DeliverMany(Reached(max, actions), scheduler))
    ensures var st := DeliverMany(Reached(max, actions), scheduler);
            && Quiet(st)
            && (id in st.resp.slots <==>
                  id in st.req.table.slots && st.req.table.log[st.req.table.slots[id]].written != [])
  {
    ReachedKeeps(max, actions);
    var st := Reached(max, actions);
    DeliveriesDrain(st, scheduler);
    DeliverManyKeeps(max, st, scheduler);
    QuietIsConsistent(max, DeliverMany(st, scheduler), id);
  }
}
