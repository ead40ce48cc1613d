/** The multiplexing protocol seen from one opener: peer A makes request channels, peer B answers them,
    and two FIFO wires join them. A session is one request channel of A. */
module OneWay {
  import opened Bytes
  import opened Messages
  import opened Peers

  datatype State = State(req: Requester, resp: Table, up: seq<Packet>, down: seq<Packet>)

  datatype Action =
    | ACreate
    | ARequestWrite(s: nat, m: Payload)
    | ARequestClose(s: nat)
    | AResponseWrite(k: nat, m: Payload)
    | AResponseClose(k: nat)
    | ADeliverUp
    | ADeliverDown

  ghost predicate Routable(st: State) {
    && st.req.table.Sound() && st.resp.Sound()
    && (forall i | 0 <= i < |st.up| :: st.up[i].frame.FromOpener())
    && (forall i | 0 <= i < |st.down| :: !st.down[i].frame.FromOpener())
  }

  /** One whole call of either side, or the routing of the frame at the head of a wire. A call on a
      channel that does not exist, or a delivery from an empty wire, changes nothing. */
  function Step(st: State, a: Action): State
    requires Routable(st)
  {
    match a
    case ACreate => st.(req := Create(st.req))
    case ARequestWrite(s, m) => ByA(st, RequestWrite(st.req, s, m))
    case ARequestClose(s) => ByA(st, RequestClose(st.req, s))
    case AResponseWrite(k, m) => ByB(st, ResponseWrite(st.resp, k, m))
    case AResponseClose(k) => ByB(st, ResponseClose(st.resp, k))
    case ADeliverUp =>
      if st.up == [] then st else ByB(st.(up := st.up[1..]), TakeRequest(st.resp, st.up[0]))
    case ADeliverDown =>
      if st.down == [] then st else ByA(st.(down := st.down[1..]), TakeReply(st.req, st.down[0]))
  }

  function ByA(st: State, e: Effect<Requester>): State {
    st.(req := e.after, up := st.up + e.sent)
  }

  function ByB(st: State, e: Effect<Table>): State {
    st.(resp := e.after, down := st.down + e.sent)
  }

  lemma ByARoutable(st: State, e: Effect<Requester>)
    requires Routable(st) && e.after.table.Sound()
    requires forall i | 0 <= i < |e.sent| :: e.sent[i].frame.FromOpener()
    ensures Routable(ByA(st, e))
  {
  }

  lemma ByBRoutable(st: State, e: Effect<Table>)
    requires Routable(st) && e.after.Sound()
    requires forall i | 0 <= i < |e.sent| :: !e.sent[i].frame.FromOpener()
    ensures Routable(ByB(st, e))
  {
  }

  lemma TakeRequestSound(t: Table, p: Packet)
    requires t.Sound() && p.frame.FromOpener()
    ensures var e := TakeRequest(t, p);
            e.after.Sound() && forall i | 0 <= i < |e.sent| :: !e.sent[i].frame.FromOpener()
  {
  }

  lemma StepRoutable(st: State, a: Action)
    requires Routable(st)
    ensures Routable(Step(st, a))
  {
    hide ByA, ByB, TakeRequest;
    match a
    case ACreate =>
    case ARequestWrite(s, m) => ByARoutable(st, RequestWrite(st.req, s, m));
    case ARequestClose(s) => ByARoutable(st, RequestClose(st.req, s));
    case AResponseWrite(k, m) => ByBRoutable(st, ResponseWrite(st.resp, k, m));
    case AResponseClose(k) => ByBRoutable(st, ResponseClose(st.resp, k));
    case ADeliverUp => if st.up != [] {
      TakeRequestSound(st.resp, st.up[0]);
      ByBRoutable(st.(up := st.up[1..]), TakeRequest(st.resp, st.up[0]));
    }
    case ADeliverDown => if st.down != [] { ByARoutable(st.(down := st.down[1..]), TakeReply(st.req, st.down[0])); }
  }

  function Run(st: State, actions: seq<Action>): State
    requires Routable(st)
    decreases |actions|
  {
    if actions == [] then st
    else
      StepRoutable(st, actions[0]);
      Run(Step(st, actions[0]), actions[1..])
  }

  function Initial(max: nat): (st: State)
    requires max < U32_LIMIT
    ensures Routable(st)
  {
    State(InitialPeer(max).requester, InitialPeer(max).responder, [], [])
  }

  lemma RunNothing(st: State)
    requires Routable(st)
    ensures Run(st, []) == st
  {
  }

  lemma {:induction false} RunSplit(st: State, before: seq<Action>, after: seq<Action>)
    requires Routable(st)
    ensures Routable(Run(st, before))
    ensures Run(st, before + after) == Run(Run(st, before), after)
    decreases |before|
  {
    if before == [] {
      assert before + after == after;
    } else {
      StepRoutable(st, before[0]);
      assert (before + after)[1..] == before[1..] + after;
      RunSplit(Step(st, before[0]), before[1..], after);
    }
  }
}
