/** The id allocator under threads (servercc/connectors/include/internal_channel_manager.h): waiting on the
    semaphore, locking, popping, pushing, unlocking and releasing are steps of their own, in any interleaving.
    The semaphore counts up to the number of channels, as its initial value asks for. */
module Allocator {
  import opened Bytes
  import opened Messages
  import opened Peers

  /** Where a thread is; a thread not in the map is outside both calls. */
  datatype Pc =
    | Acquired             // createRequestChannel, past the semaphore
    | Popping              // holds the mutex
    | Popped(id: u32)      // holds the mutex and an id
    | Freeing(id: u32)     // removeRequestChannel, before the mutex
    | Pushing(id: u32)     // holds the mutex
    | Pushed               // holds the mutex, the id is back
    | Releasing            // has unlocked, not yet released the semaphore

  datatype Event =
    | Acquire(t: nat)
    | LockToPop(t: nat)
    | Pop(t: nat)
    | UnlockAfterPop(t: nat)
    | Free(t: nat, id: u32)
    | LockToPush(t: nat)
    | Push(t: nat)
    | UnlockAfterPush(t: nat)
    | Release(t: nat)

  /** `owner` holds the ids handed out, with the thread each was returned to (history); `failed` is set by a
      pop from an empty stack. */
  datatype State = State(permits: nat, mutex: Option<nat>, free: seq<u32>, pcs: map<nat, Pc>, owner: map<u32, nat>, failed: bool)

  /** A step that is not the thread's next one, or that must wait, changes nothing. Any thread may free an id
      that is out, as the reader does for a user's channel on a ResponseEnd; only one gets to. */
  function Step(s: State, e: Event): State {
    var t := e.t;
    match e
    case Acquire(_) =>
      if t !in s.pcs && s.permits > 0 then s.(permits := s.permits - 1, pcs := s.pcs[t := Acquired]) else s
    case LockToPop(_) =>
      if t in s.pcs && s.pcs[t].Acquired? && s.mutex.None? then s.(mutex := Some(t), pcs := s.pcs[t := Popping]) else s
    case Pop(_) =>
      if t in s.pcs && s.pcs[t].Popping? then
        if s.free == [] then s.(failed := true)
        else s.(free := s.free[..|s.free| - 1], pcs := s.pcs[t := Popped(s.free[|s.free| - 1])])
      else s
    case UnlockAfterPop(_) =>
      if t in s.pcs && s.pcs[t].Popped? then s.(mutex := None, pcs := s.pcs - {t}, owner := s.owner[s.pcs[t].id := t]) else s
    case Free(_, id) =>
      if t !in s.pcs && id in s.owner then s.(pcs := s.pcs[t := Freeing(id)], owner := s.owner - {id})
      else s
    case LockToPush(_) =>
      if t in s.pcs && s.pcs[t].Freeing? && s.mutex.None? then s.(mutex := Some(t), pcs := s.pcs[t := Pushing(s.pcs[t].id)])
      else s
    case Push(_) =>
      if t in s.pcs && s.pcs[t].Pushing? then s.(free := s.free + [s.pcs[t].id], pcs := s.pcs[t := Pushed]) else s
    case UnlockAfterPush(_) =>
      if t in s.pcs && s.pcs[t].Pushed? then s.(mutex := None, pcs := s.pcs[t := Releasing]) else s
    case Release(_) =>
      if t in s.pcs && s.pcs[t].Releasing? then s.(permits := s.permits + 1, pcs := s.pcs - {t}) else s
  }

  function Run(s: State, events: seq<Event>): State
    decreases |events|
  {
    if events == [] then s else Run(Step(s, events[0]), events[1..])
  }

  function Initial(max: nat): State
    requires max < U32_LIMIT
  {
    State(max, None, InitialFree(max), map[], map[], false)
  }

  // ---- The invariant ----

  predicate HasMutex(pc: Pc) {
    pc.Popping? || pc.Popped? || pc.Pushing? || pc.Pushed?
  }

  /** Past the acquire but not the pop, or past the push but not the release. */
  predicate HasCredit(pc: Pc) {
    pc.Acquired? || pc.Popping? || pc.Pushed? || pc.Releasing?
  }

  predicate Carries(pc: Pc, id: u32) {
    (pc.Popped? || pc.Freeing? || pc.Pushing?) && pc.id == id
  }

  function Credits(pcs: map<nat, Pc>): set<nat> {
    set t | t in pcs && HasCredit(pcs[t])
  }

  ghost predicate CarriedBySome(pcs: map<nat, Pc>, id: u32) {
    exists t :: t in pcs && Carries(pcs[t], id)
  }

  ghost predicate Somewhere(s: State, id: u32) {
    id in s.free || id in s.owner || CarriedBySome(s.pcs, id)
  }

  ghost predicate Inv(max: nat, s: State) {
    && !s.failed
    && (forall t | t in s.pcs :: HasMutex(s.pcs[t]) <==> s.mutex == Some(t))
    && (s.mutex.Some? ==> s.mutex.value in s.pcs)
    && s.permits + |Credits(s.pcs)| == |s.free|
    && OnePlaceEach(s)
    && (forall id: u32 :: id < max <==> Somewhere(s, id))
  }

  /** No id is in two places: the stack, an owner's hands, or the hands of a thread on its way. */
  ghost predicate OnePlaceEach(s: State) {
    && (forall i, j | 0 <= i < j < |s.free| :: s.free[i] != s.free[j])
    && (forall i | 0 <= i < |s.free| :: s.free[i] !in s.owner)
    && (forall t, id: u32 | t in s.pcs && Carries(s.pcs[t], id) :: id !in s.free && id !in s.owner)
    && (forall t, u, id: u32 | t in s.pcs && u in s.pcs && Carries(s.pcs[t], id) && Carries(s.pcs[u], id) :: t == u)
  }

  lemma WithAndWithout(credits: set<nat>, t: nat)
    ensures |credits| == |credits - {t}| + if t in credits then 1 else 0
  {
    if t in credits {
      assert credits == (credits - {t}) + {t};
    } else {
      assert credits == credits - {t};
    }
  }

  lemma CreditsSet(pcs: map<nat, Pc>, t: nat, pc: Pc)
    ensures |Credits(pcs[t := pc])| == |Credits(pcs)| - (if t in pcs && HasCredit(pcs[t]) then 1 else 0)
                                       + (if HasCredit(pc) then 1 else 0)
  {
    hide HasCredit;
    WithAndWithout(Credits(pcs), t);
    WithAndWithout(Credits(pcs[t := pc]), t);
    assert Credits(pcs[t := pc]) - {t} == Credits(pcs) - {t};
  }

  lemma CreditsDrop(pcs: map<nat, Pc>, t: nat)
    ensures |Credits(pcs - {t})| == |Credits(pcs)| - (if t in pcs && HasCredit(pcs[t]) then 1 else 0)
  {
    hide HasCredit;
    WithAndWithout(Credits(pcs), t);
    assert Credits(pcs - {t}) == Credits(pcs) - {t};
  }

  /** A thread about to pop holds a credit, so the stack is not empty. */
  lemma PopFindsAnId(max: nat, s: State, t: nat)
    requires Inv(max, s) && t in s.pcs && s.pcs[t].Popping?
    ensures s.free != []
  {
    assert t in Credits(s.pcs);
  }

  lemma MutexAndCreditsKept(max: nat, s: State, e: Event)
    requires Inv(max, s)
    ensures var s' := Step(s, e);
            && !s'.failed
            && (forall t | t in s'.pcs :: HasMutex(s'.pcs[t]) <==> s'.mutex == Some(t))
            && (s'.mutex.Some? ==> s'.mutex.value in s'.pcs)
            && s'.permits + |Credits(s'.pcs)| == |s'.free|
  {
    hide Credits, OnePlaceEach, CarriedBySome;
    var t := e.t;
    if t in s.pcs && s.pcs[t].Popping? {
      PopFindsAnId(max, s, t);
    }
    var s' := Step(s, e);
    if t in s'.pcs {
      CreditsSet(s.pcs, t, s'.pcs[t]);
      assert s'.pcs == s.pcs[t := s'.pcs[t]];
    } else {
      CreditsDrop(s.pcs, t);
      assert s'.pcs == s.pcs - {t};
    }
  }

  lemma PopKeepsPlaces(max: nat, s: State, t: nat)
    requires Inv(max, s)
    ensures OnePlaceEach(Step(s, Pop(t)))
  {
    hide Credits, Somewhere;
  }

  lemma PushKeepsPlaces(max: nat, s: State, t: nat)
    requires Inv(max, s)
    ensures OnePlaceEach(Step(s, Push(t)))
  {
    hide Credits, Somewhere;
  }

  lemma HandingKeepsPlaces(max: nat, s: State, e: Event)
    requires Inv(max, s) && (e.UnlockAfterPop? || e.Free?)
    ensures OnePlaceEach(Step(s, e))
  {
    hide Credits, Somewhere;
  }

  lemma PlacesKept(max: nat, s: State, e: Event)
    requires Inv(max, s)
    ensures OnePlaceEach(Step(s, e))
  {
    hide Credits, Somewhere;
    match e
    case Pop(t) => PopKeepsPlaces(max, s, t);
    case Push(t) => PushKeepsPlaces(max, s, t);
    case UnlockAfterPop(_) => HandingKeepsPlaces(max, s, e);
    case Free(_, _) => HandingKeepsPlaces(max, s, e);
    case _ =>
  }

  ghost predicate CarriedByOther(pcs: map<nat, Pc>, id: u32, t: nat) {
    exists u :: u != t && u in pcs && Carries(pcs[u], id)
  }

  lemma CarriedSplit(pcs: map<nat, Pc>, id: u32, t: nat)
    ensures CarriedBySome(pcs, id) <==> (t in pcs && Carries(pcs[t], id)) || CarriedByOther(pcs, id, t)
  {
  }

  /** A step moves no thread but its own. */
  lemma OthersCarryOn(s: State, e: Event, id: u32)
    ensures CarriedByOther(Step(s, e).pcs, id, e.t) <==> CarriedByOther(s.pcs, id, e.t)
  {
    forall u | u != e.t ensures u in s.pcs <==> u in Step(s, e).pcs && Step(s, e).pcs[u] == s.pcs[u] {}
  }

  lemma NoIdLostOrMade(max: nat, s: State, e: Event, id: u32)
    requires Inv(max, s)
    ensures Somewhere(Step(s, e), id) <==> Somewhere(s, id)
  {
    hide Credits, OnePlaceEach, CarriedBySome, CarriedByOther;
    var s' := Step(s, e);
    if e.Pop? && e.t in s.pcs && s.pcs[e.t].Popping? {
      PopFindsAnId(max, s, e.t);
      assert s.free == s'.free + [s.free[|s.free| - 1]];
    }
    CarriedSplit(s.pcs, id, e.t);
    CarriedSplit(s'.pcs, id, e.t);
    OthersCarryOn(s, e, id);
  }

  lemma StepKeeps(max: nat, s: State, e: Event)
    requires Inv(max, s)
    ensures Inv(max, Step(s, e))
  {
    hide Credits, OnePlaceEach, CarriedBySome, Step;
    MutexAndCreditsKept(max, s, e);
    PlacesKept(max, s, e);
    forall id: u32 ensures id < max <==> Somewhere(Step(s, e), id) {
      NoIdLostOrMade(max, s, e, id);
      assert id < max <==> Somewhere(s, id);
    }
  }

  lemma InitialInv(max: nat)
    requires max < U32_LIMIT
    ensures Inv(max, Initial(max))
  {
    var s := Initial(max);
    assert Credits(s.pcs) == {};
    forall id: u32 ensures id < max <==> id in s.free {
      if id < max {
        assert s.free[id] == id;
      }
    }
  }

  lemma {:induction false} RunKeeps(max: nat, s: State, events: seq<Event>)
    requires Inv(max, s)
    ensures Inv(max, Run(s, events))
    decreases |events|
  {
    if events != [] {
      StepKeeps(max, s, events[0]);
      RunKeeps(max, Step(s, events[0]), events[1..]);
    }
  }

  /** For any threads in any interleaving: the permits and the threads between a permit and the stack add up
      to the stack, and no pop ever finds it empty. */
  lemma TopIsNeverEmpty(max: nat, events: seq<Event>)
    requires max < U32_LIMIT
    ensures var s := Run(Initial(max), events);
            !s.failed && s.permits + |Credits(s.pcs)| == |s.free|
  {
    InitialInv(max);
    RunKeeps(max, Initial(max), events);
  }

  /** Every id below max is in exactly one place, so no two threads ever hold the same one. */
  lemma IdsHeldOnce(max: nat, events: seq<Event>, id: u32, t: nat, u: nat)
    requires max < U32_LIMIT
    ensures var s := Run(Initial(max), events);
            && (id < max <==> Somewhere(s, id))
            && !(id in s.free && id in s.owner)
            && (CarriedBySome(s.pcs, id) ==> id !in s.free && id !in s.owner)
            && (t in s.pcs && u in s.pcs && Carries(s.pcs[t], id) && Carries(s.pcs[u], id) ==> t == u)
  {
    hide Credits, Run;
    InitialInv(max);
    RunKeeps(max, Initial(max), events);
  }

  // ---- Calls come to an end ----

  /** The steps a thread still has before it. */
  function Rest(pc: Pc, t: nat): seq<Event> {
    match pc
    case Acquired => [LockToPop(t), Pop(t), UnlockAfterPop(t)]
    case Popping => [Pop(t), UnlockAfterPop(t)]
    case Popped(_) => [UnlockAfterPop(t)]
    case Freeing(_) => [LockToPush(t), Push(t), UnlockAfterPush(t), Release(t)]
    case Pushing(_) => [Push(t), UnlockAfterPush(t), Release(t)]
    case Pushed => [UnlockAfterPush(t), Release(t)]
    case Releasing => [Release(t)]
  }

  /** No other thread is inside the mutex. */
  predicate MayRun(s: State, t: nat) {
    s.mutex.None? || s.mutex.value == t
  }

  lemma FirstStep(s: State, t: nat)
    requires t in s.pcs
    ensures Run(s, Rest(s.pcs[t], t)) == Run(Step(s, Rest(s.pcs[t], t)[0]), Rest(s.pcs[t], t)[1..])
  {
    hide Step;
  }

  /** What becomes of the state when thread t runs to the end of its call. */
  lemma {:induction false} FinishesCreate(max: nat, s: State, t: nat)
    requires Inv(max, s) && t in s.pcs && MayRun(s, t)
    requires s.pcs[t].Acquired? || s.pcs[t].Popping?
    ensures s.free != []
    ensures var id := s.free[|s.free| - 1];
            Run(s, Rest(s.pcs[t], t))
            == s.(mutex := None, free := s.free[..|s.free| - 1], pcs := s.pcs - {t}, owner := s.owner[id := t])
    decreases |Rest(s.pcs[t], t)|
  {
    hide Inv, Run;
    var e := Rest(s.pcs[t], t)[0];
    FirstStep(s, t);
    StepKeeps(max, s, e);
    MutexOf(max, s);
    if s.pcs[t].Acquired? {
      assert Rest(Acquired, t)[1..] == Rest(Popping, t);
      FinishesCreate(max, Step(s, e), t);
      assert Step(s, e).pcs - {t} == s.pcs - {t};
    } else {
      PopFindsAnId(max, s, t);
      var s' := Step(s, e);
      assert Rest(Popping, t)[1..] == Rest(s'.pcs[t], t) && Rest(s'.pcs[t], t)[1..] == [];
      FirstStep(s', t);
      RunNothing(Step(s', UnlockAfterPop(t)));
      assert s'.pcs - {t} == s.pcs - {t};
    }
  }

  lemma RunNothing(s: State)
    ensures Run(s, []) == s
  {
  }

  lemma MutexOf(max: nat, s: State)
    requires Inv(max, s)
    ensures forall t | t in s.pcs :: HasMutex(s.pcs[t]) <==> s.mutex == Some(t)
    ensures s.mutex.Some? ==> s.mutex.value in s.pcs
  {
  }

  lemma FinishesPop(max: nat, s: State, t: nat)
    requires Inv(max, s) && t in s.pcs && s.pcs[t].Popped?
    ensures Run(s, Rest(s.pcs[t], t)) == s.(mutex := None, pcs := s.pcs - {t}, owner := s.owner[s.pcs[t].id := t])
  {
    hide Inv, Run;
    FirstStep(s, t);
    MutexOf(max, s);
    assert Rest(s.pcs[t], t)[1..] == [];
    RunNothing(Step(s, UnlockAfterPop(t)));
  }

  lemma {:induction false} FinishesFree(max: nat, s: State, t: nat)
    requires Inv(max, s) && t in s.pcs && MayRun(s, t)
    requires s.pcs[t].Freeing? || s.pcs[t].Pushing? || s.pcs[t].Pushed? || s.pcs[t].Releasing?
    ensures Run(s, Rest(s.pcs[t], t))
         == s.(mutex := None, permits := s.permits + 1, pcs := s.pcs - {t},
               free := s.free + if s.pcs[t].Freeing? || s.pcs[t].Pushing? then [s.pcs[t].id] else [])
    decreases |Rest(s.pcs[t], t)|
  {
    hide Inv, Run;
    var e := Rest(s.pcs[t], t)[0];
    var s' := Step(s, e);
    FirstStep(s, t);
    StepKeeps(max, s, e);
    MutexOf(max, s);
    assert s.free + [] == s.free && s'.free + [] == s'.free;
    if s.pcs[t].Releasing? {
      assert Rest(Releasing, t)[1..] == [];
      RunNothing(s');
    } else {
      assert Rest(s.pcs[t], t)[1..] == Rest(s'.pcs[t], t);
      FinishesFree(max, s', t);
      assert s'.pcs - {t} == s.pcs - {t};
    }
  }

  /** One create on its own: one permit less, the top id popped and the caller's. For the tables it is
      `Peers.Create`. Other threads may be anywhere but inside the mutex. */
  lemma WholeCreate(max: nat, s: State, t: nat, r: Requester)
    requires Inv(max, s) && t !in s.pcs && s.mutex.None? && s.permits > 0 && r.free == s.free
    ensures s.free != []
    ensures var id := s.free[|s.free| - 1];
            Run(s, [Acquire(t), LockToPop(t), Pop(t), UnlockAfterPop(t)])
            == s.(permits := s.permits - 1, free := Create(r).free, owner := s.owner[id := t])
    ensures Create(r).free == s.free[..|s.free| - 1] && Create(r).table.log[|r.table.log|].id == s.free[|s.free| - 1]
  {
    hide Inv, Run;
    var s' := Step(s, Acquire(t));
    StepKeeps(max, s, Acquire(t));
    FinishesCreate(max, s', t);
    RunCons(s, Acquire(t), Rest(Acquired, t));
    assert [Acquire(t), LockToPop(t), Pop(t), UnlockAfterPop(t)] == [Acquire(t)] + Rest(Acquired, t);
    assert s'.pcs - {t} == s.pcs;
  }

  lemma RunCons(s: State, e: Event, rest: seq<Event>)
    ensures Run(s, [e] + rest) == Run(Step(s, e), rest)
  {
    assert ([e] + rest)[1..] == rest;
  }

  /** One free on its own, by any thread: one permit more, the id on top and nobody's. For the tables it is
      `Peers.RequestClose`. */
  lemma WholeFree(max: nat, s: State, t: nat, id: u32, r: Requester, k: nat)
    requires Inv(max, s) && t !in s.pcs && s.mutex.None? && id in s.owner
    requires r.free == s.free && r.table.Live(k) && r.table.log[k].id == id
    ensures Run(s, [Free(t, id), LockToPush(t), Push(t), UnlockAfterPush(t), Release(t)])
         == s.(permits := s.permits + 1, free := RequestClose(r, k).after.free, owner := s.owner - {id})
    ensures RequestClose(r, k).after.free == s.free + [id]
  {
    hide Inv, Run;
    var s' := Step(s, Free(t, id));
    StepKeeps(max, s, Free(t, id));
    FinishesFree(max, s', t);
    RunCons(s, Free(t, id), Rest(Freeing(id), t));
    assert [Free(t, id), LockToPush(t), Push(t), UnlockAfterPush(t), Release(t)] == [Free(t, id)] + Rest(Freeing(id), t);
    assert s'.pcs - {t} == s.pcs;
  }

  /** No step that begins a call. */
  ghost predicate OnlyFinishing(events: seq<Event>) {
    forall i | 0 <= i < |events| :: !events[i].Acquire? && !events[i].Free?
  }

  lemma {:induction false} RunSplit(s: State, before: seq<Event>, after: seq<Event>)
    ensures Run(s, before + after) == Run(Run(s, before), after)
    decreases |before|
  {
    hide Step;
    if before == [] {
      assert before + after == after;
    } else {
      assert (before + after)[1..] == before[1..] + after;
      RunSplit(Step(s, before[0]), before[1..], after);
    }
  }

  lemma ThreadFinishes(max: nat, s: State, t: nat)
    requires Inv(max, s) && t in s.pcs && MayRun(s, t)
    ensures var q := Run(s, Rest(s.pcs[t], t)); q.mutex.None? && q.pcs == s.pcs - {t}
    ensures OnlyFinishing(Rest(s.pcs[t], t))
  {
    hide Inv, Run, Step;
    match s.pcs[t]
    case Acquired => FinishesCreate(max, s, t);
    case Popping => FinishesCreate(max, s, t);
    case Popped(_) => FinishesPop(max, s, t);
    case _ => FinishesFree(max, s, t);
  }

  /** The calls under way can always be run to their end, one thread after the other. */
  lemma {:induction false} CallsDrain(max: nat, s: State) returns (more: seq<Event>)
    requires Inv(max, s)
    ensures OnlyFinishing(more)
    ensures var q := Run(s, more); Inv(max, q) && q.pcs == map[] && q.mutex.None? && q.permits == |q.free|
    decreases s.pcs.Keys
  {
    hide Inv, Run, Rest, Step;
    MutexOf(max, s);
    if s.pcs == map[] {
      more := [];
      RunNothing(s);
      NobodyBetween(max, s);
    } else {
      var t :| t in s.pcs && MayRun(s, t) by {
        if s.mutex.Some? {
          assert s.mutex.value in s.pcs && MayRun(s, s.mutex.value);
        } else {
          var t :| t in s.pcs;
          assert MayRun(s, t);
        }
      }
      var first := Rest(s.pcs[t], t);
      ThreadFinishes(max, s, t);
      RunKeeps(max, s, first);
      var rest := CallsDrain(max, Run(s, first));
      more := first + rest;
      RunSplit(s, first, rest);
    }
  }

  lemma NobodyBetween(max: nat, s: State)
    requires Inv(max, s) && s.pcs == map[]
    ensures s.mutex.None? && s.permits == |s.free|
  {
    assert Credits(s.pcs) == {};
  }

  ghost predicate AtRest(max: nat, s: State) {
    && s.pcs == map[] && s.mutex.None? && s.permits == |s.free|
    && (forall id: u32 | id < max :: id in s.free || id in s.owner)
  }

  /** No thread is ever stuck: from wherever a run has got to, the threads inside can finish without any new
      call, and then each id nobody owns is on the stack and has its permit. */
  lemma EveryCallCanFinish(max: nat, events: seq<Event>)
    requires max < U32_LIMIT
    ensures exists more :: OnlyFinishing(more) && AtRest(max, Run(Run(Initial(max), events), more))
  {
    hide Run;
    InitialInv(max);
    RunKeeps(max, Initial(max), events);
    var s := Run(Initial(max), events);
    var more := CallsDrain(max, s);
    var q := Run(s, more);
    forall id: u32 | id < max ensures id in q.free || id in q.owner {
      assert Somewhere(q, id);
    }
    assert AtRest(max, q);
  }
}
