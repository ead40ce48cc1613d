/** What every step of the one-way protocol keeps. */
module Invariant {
  import opened Bytes
  import opened Messages
  import opened Frames
  import opened Peers
  import opened OneWay

  // ---- Vocabulary ----

  /** The session whose first Request made response channel k: the origin of the first parcel. */
  function Opener(resp: Table, k: nat): nat
    requires k < |resp.log| && resp.log[k].taken != []
  {
    resp.log[k].taken[0].origin
  }

  ghost predicate AllOpened(resp: Table) {
    forall k | 0 <= k < |resp.log| :: resp.log[k].taken != []
  }

  /** The session that has a response channel open on id. */
  function Answering(resp: Table, id: u32): Option<nat>
    requires resp.Sound() && AllOpened(resp)
  {
    if id in resp.slots then Some(Opener(resp, resp.slots[id])) else None
  }

  function Using(req: Requester, id: u32): Option<nat> {
    if id in req.table.slots then Some(req.table.slots[id]) else None
  }

  /** The frames of one id, read in wire order by a peer that is answering session `answering`: they
      come in whole sessions, each closed by its RequestEnd, and the last one that is not closed is the
      session now using the id. */
  predicate InTurn(wire: seq<Packet>, id: u32, answering: Option<nat>, using: Option<nat>)
    decreases |wire|
  {
    if wire == [] then answering.None? || answering == using
    else if wire[0].frame.id != id then InTurn(wire[1..], id, answering, using)
    else
      && (answering.None? || answering.value == wire[0].origin)
      && InTurn(wire[1..], id, if wire[0].frame.Request? then Some(wire[0].origin) else None, using)
  }

  /** The payloads among `parcels` that session s wrote. */
  function From(parcels: seq<Parcel>, s: nat): seq<Payload>
    decreases |parcels|
  {
    if parcels == [] then []
    else
      var n := |parcels| - 1;
      From(parcels[..n], s) + if parcels[n].origin == s then [parcels[n].message] else []
  }

  /** What was pushed to all response channels, in the order they were made, because of session s. */
  function Delivered(log: seq<ChannelLog>, s: nat): seq<Payload>
    decreases |log|
  {
    if log == [] then []
    else Delivered(log[..|log| - 1], s) + From(log[|log| - 1].taken, s)
  }

  /** The Request frames of session s still on the wire. */
  function InFlight(wire: seq<Packet>, s: nat): seq<Payload>
    decreases |wire|
  {
    if wire == [] then []
    else (if wire[0].frame.Request? && wire[0].origin == s then [wire[0].frame.message] else [])
         + InFlight(wire[1..], s)
  }

  // ---- The invariant ----

  /** The free list has no duplicates and, with the ids in use, it partitions 0..max-1. */
  ghost predicate IdsPartitioned(max: nat, r: Requester) {
    && (forall i, j | 0 <= i < j < |r.free| :: r.free[i] != r.free[j])
    && (forall i | 0 <= i < |r.free| :: r.free[i] !in r.table.slots)
    && (forall id: u32 :: id < max <==> id in r.free || id in r.table.slots)
  }

  ghost predicate IdsKnown(max: nat, st: State) {
    && (forall s | 0 <= s < |st.req.table.log| :: st.req.table.log[s].id < max)
    && (forall i | 0 <= i < |st.up| ::
          && st.up[i].origin < |st.req.table.log|
          && st.up[i].frame.id == st.req.table.log[st.up[i].origin].id)
    && (forall i | 0 <= i < |st.down| ::
          && st.down[i].origin < |st.resp.log|
          && st.down[i].frame.id == st.resp.log[st.down[i].origin].id)
  }

  /** Every response channel holds messages of one session, made for the same id. */
  ghost predicate Isolated(req: Requester, resp: Table) {
    && AllOpened(resp)
    && (forall k, j | 0 <= k < |resp.log| && 0 <= j < |resp.log[k].taken| ::
          resp.log[k].taken[j].origin == Opener(resp, k))
    && (forall k | 0 <= k < |resp.log| ::
          Opener(resp, k) < |req.table.log| && req.table.log[Opener(resp, k)].id == resp.log[k].id)
  }

  /** Of the channels of one session, only the last made can be open. */
  ghost predicate LastIsOpen(resp: Table)
    requires AllOpened(resp) && resp.Sound()
  {
    forall id, k | id in resp.slots && resp.slots[id] < k < |resp.log| ::
      Opener(resp, k) != Opener(resp, resp.slots[id])
  }

  /** The sessions of one id are served in the order they were created. */
  ghost predicate Ordered(st: State)
    requires AllOpened(st.resp)
  {
    && (forall i, j | 0 <= i < j < |st.up| && st.up[i].frame.id == st.up[j].frame.id ::
          st.up[i].origin <= st.up[j].origin)
    && (forall k, i | 0 <= k < |st.resp.log| && 0 <= i < |st.up| && st.resp.log[k].id == st.up[i].frame.id ::
          Opener(st.resp, k) <= st.up[i].origin)
    && (forall i | 0 <= i < |st.up| && st.up[i].frame.id in st.req.table.slots ::
          st.up[i].origin <= st.req.table.slots[st.up[i].frame.id])
    && (forall k | 0 <= k < |st.resp.log| && st.resp.log[k].id in st.req.table.slots ::
          Opener(st.resp, k) <= st.req.table.slots[st.resp.log[k].id])
  }

  ghost predicate EndsAreFinal(st: State) {
    forall i | 0 <= i < |st.up| && st.up[i].frame.RequestEnd? :: !st.req.table.Live(st.up[i].origin)
  }

  ghost predicate Turns(st: State)
    requires st.resp.Sound() && AllOpened(st.resp)
  {
    forall id: u32 :: InTurn(st.up, id, Answering(st.resp, id), Using(st.req, id))
  }

  /** Nothing lost, duplicated or reordered. */
  ghost predicate Conserved(st: State) {
    forall s | 0 <= s < |st.req.table.log| ::
      Delivered(st.resp.log, s) + InFlight(st.up, s) == st.req.table.log[s].written
  }

  ghost predicate EndComing(down: seq<Packet>, id: u32) {
    exists i :: 0 <= i < |down| && down[i].frame == ResponseEnd(id)
  }

  /** A live session that was answered is still being answered, or a ResponseEnd is coming for it. */
  ghost predicate NotForgotten(st: State)
    requires st.resp.Sound() && AllOpened(st.resp)
  {
    forall id, k | id in st.req.table.slots && 0 <= k < |st.resp.log| && Opener(st.resp, k) == st.req.table.slots[id] ::
      Answering(st.resp, id) == Using(st.req, id) || EndComing(st.down, id)
  }

  ghost predicate Orderly(max: nat, st: State) {
    && Routable(st)
    && IdsPartitioned(max, st.req)
    && IdsKnown(max, st)
    && Isolated(st.req, st.resp)
    && LastIsOpen(st.resp)
    && Ordered(st)
    && EndsAreFinal(st)
  }

  ghost predicate Inv(max: nat, st: State) {
    && Orderly(max, st)
    && Turns(st)
    && Conserved(st)
    && NotForgotten(st)
  }

  lemma InvInitial(max: nat)
    requires max < U32_LIMIT
    ensures Inv(max, Initial(max))
  {
    var st := Initial(max);
    forall id: u32 ensures id < max <==> id in st.req.free || id in st.req.table.slots {
      if id < max {
        assert st.req.free[id] == id;
      }
    }
  }

  // ---- The free list ----

  /** Ids are reused last in, first out: the next create takes the id the last close gave back. */
  lemma CloseThenCreateReusesTheId(r: Requester, s: nat)
    requires r.table.Live(s)
    ensures var r' := Create(RequestClose(r, s).after);
            && r'.free == r.free && r'.table.slots == r.table.slots[r.table.log[s].id := |r.table.log|]
            && r'.table.log == r.table.log + [ChannelLog(r.table.log[s].id, [], [])]
  {
    var id := r.table.log[s].id;
    assert (r.table.slots - {id})[id := |r.table.log|] == r.table.slots[id := |r.table.log|];
    assert (r.free + [id])[..|r.free|] == r.free;
  }

  /** Closing a channel just created undoes the create. */
  lemma CreateThenCloseUndoes(max: nat, r: Requester)
    requires IdsPartitioned(max, r) && r.free != []
    ensures var e := RequestClose(Create(r), |r.table.log|);
            && e.after.free == r.free && e.after.table.slots == r.table.slots
            && e.sent == [Packet(RequestEnd(r.free[|r.free| - 1]), |r.table.log|)]
  {
    var top := |r.free| - 1;
    assert r.free[top] !in r.table.slots;
    assert r.free[..top] + [r.free[top]] == r.free;
    assert r.table.slots[r.free[top] := |r.table.log|] - {r.free[top]} == r.table.slots;
  }

  lemma PartitionAfterCreate(max: nat, r: Requester)
    requires IdsPartitioned(max, r) && r.free != []
    ensures IdsPartitioned(max, Create(r))
  {
    var top := |r.free| - 1;
    assert r.free[top] in r.free;
    forall id: u32 ensures id < max <==> id in Create(r).free || id in Create(r).table.slots {
      assert id < max <==> id in r.free || id in r.table.slots;
      assert r.free == r.free[..top] + [r.free[top]];
    }
  }

  lemma PartitionAfterClose(max: nat, r: Requester, s: nat)
    requires IdsPartitioned(max, r)
    ensures IdsPartitioned(max, RequestClose(r, s).after)
  {
    var r' := RequestClose(r, s).after;
    forall id: u32 ensures id < max <==> id in r'.free || id in r'.table.slots {
      assert id < max <==> id in r.free || id in r.table.slots;
    }
  }

  // ---- How the recursive measures react to a step ----

  lemma {:induction false} InTurnAppend(wire: seq<Packet>, p: Packet, id: u32, answering: Option<nat>, s: nat)
    requires InTurn(wire, id, answering, Some(s)) && p.origin == s && p.frame.id == id
    ensures InTurn(wire + [p], id, answering, if p.frame.Request? then Some(s) else None)
    decreases |wire|
  {
    if wire == [] {
      assert (wire + [p])[1..] == [];
    } else {
      assert (wire + [p])[1..] == wire[1..] + [p];
      var next := if wire[0].frame.id != id then answering
                  else if wire[0].frame.Request? then Some(wire[0].origin) else None;
      InTurnAppend(wire[1..], p, id, next, s);
    }
  }

  lemma {:induction false} InTurnAppendOther(wire: seq<Packet>, p: Packet, id: u32, answering: Option<nat>, using: Option<nat>)
    requires InTurn(wire, id, answering, using) && p.frame.id != id
    ensures InTurn(wire + [p], id, answering, using)
    decreases |wire|
  {
    if wire == [] {
      assert (wire + [p])[1..] == [];
    } else {
      assert (wire + [p])[1..] == wire[1..] + [p];
      var next := if wire[0].frame.id != id then answering
                  else if wire[0].frame.Request? then Some(wire[0].origin) else None;
      InTurnAppendOther(wire[1..], p, id, next, using);
    }
  }

  /** A free id may be taken into use by anyone: all its frames are in whole, closed sessions. */
  lemma {:induction false} InTurnReuse(wire: seq<Packet>, id: u32, answering: Option<nat>, using: Option<nat>)
    requires InTurn(wire, id, answering, None)
    ensures InTurn(wire, id, answering, using)
    decreases |wire|
  {
    if wire != [] {
      var next := if wire[0].frame.id != id then answering
                  else if wire[0].frame.Request? then Some(wire[0].origin) else None;
      InTurnReuse(wire[1..], id, next, using);
    }
  }

  /** The responder may stop answering at any time. */
  lemma {:induction false} InTurnClose(wire: seq<Packet>, id: u32, answering: Option<nat>, using: Option<nat>)
    requires InTurn(wire, id, answering, using)
    ensures InTurn(wire, id, None, using)
    decreases |wire|
  {
    if wire != [] && wire[0].frame.id != id {
      InTurnClose(wire[1..], id, answering, using);
    }
  }

  lemma {:induction false} InFlightAppend(wire: seq<Packet>, p: Packet, s: nat)
    ensures InFlight(wire + [p], s)
         == InFlight(wire, s) + if p.frame.Request? && p.origin == s then [p.frame.message] else []
    decreases |wire|
  {
    if wire == [] {
      assert (wire + [p])[1..] == [];
    } else {
      assert (wire + [p])[1..] == wire[1..] + [p];
      InFlightAppend(wire[1..], p, s);
    }
  }

  lemma FromAppend(parcels: seq<Parcel>, p: Parcel, s: nat)
    ensures From(parcels + [p], s) == From(parcels, s) + if p.origin == s then [p.message] else []
  {
    assert (parcels + [p])[..|parcels|] == parcels;
  }

  lemma {:induction false} FromNobody(parcels: seq<Parcel>, s: nat)
    requires forall j | 0 <= j < |parcels| :: parcels[j].origin != s
    ensures From(parcels, s) == []
    decreases |parcels|
  {
    if parcels != [] {
      FromNobody(parcels[..|parcels| - 1], s);
    }
  }

  /** Channels that took nothing from s do not matter to what s delivered. */
  lemma {:induction false} DeliveredTail(log: seq<ChannelLog>, k: nat, s: nat)
    requires k <= |log|
    requires forall j | k <= j < |log| :: From(log[j].taken, s) == []
    ensures Delivered(log, s) == Delivered(log[..k], s)
    decreases |log|
  {
    if k == |log| {
      assert log[..k] == log;
    } else {
      var n := |log| - 1;
      DeliveredTail(log[..n], k, s);
      assert log[..n][..k] == log[..k];
    }
  }

  /** A push to channel k reaches the end of the session's delivery when no later channel serves it. */
  lemma DeliveredPush(log: seq<ChannelLog>, k: nat, p: Parcel, s: nat)
    requires k < |log|
    requires p.origin == s ==> forall j | k < j < |log| :: From(log[j].taken, s) == []
    ensures Delivered(log[k := log[k].(taken := log[k].taken + [p])], s)
         == Delivered(log, s) + if p.origin == s then [p.message] else []
  {
    var log' := log[k := log[k].(taken := log[k].taken + [p])];
    FromAppend(log[k].taken, p, s);
    if p.origin == s {
      DeliveredTail(log, k + 1, s);
      DeliveredTail(log', k + 1, s);
      assert log'[..k + 1][..k] == log[..k + 1][..k];
    } else {
      DeliveredSame(log, log', s);
    }
  }

  lemma {:induction false} DeliveredSame(log: seq<ChannelLog>, log': seq<ChannelLog>, s: nat)
    requires |log| == |log'|
    requires forall j | 0 <= j < |log| :: From(log[j].taken, s) == From(log'[j].taken, s)
    ensures Delivered(log, s) == Delivered(log', s)
    decreases |log|
  {
    if log != [] {
      DeliveredSame(log[..|log| - 1], log'[..|log| - 1], s);
    }
  }

  lemma DeliveredOpened(log: seq<ChannelLog>, id: u32, s: nat)
    ensures Delivered(log + [ChannelLog(id, [], [])], s) == Delivered(log, s)
  {
    assert (log + [ChannelLog(id, [], [])])[..|log|] == log;
  }
}
