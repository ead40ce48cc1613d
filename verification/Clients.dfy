/** The client map under threads (servercc/connectors/src/connector.cc): `addClient` registers an address
    under the lock and then starts a reader; the reader's end erases the address. The steps of any number of
    adders and readers interleave. A registration is numbered by how many succeeded before it. */
module Clients {
  import opened Bytes

  /** What has become of a registration: its adder is about to look the client up, its reader runs, or its
      reader has met a bad read and is about to erase. A reader remembers which client it found. */
  datatype Stage =
    | Starting
    | Reading(client: nat)
    | Leaving(client: nat)

  datatype Attendant = Attendant(address: u32, stage: Stage)

  /** `clients` maps an address to the registration whose client it holds. `notFound` and `wrongErase` are
      set by a lookup that finds nothing and by an erase of another registration's entry. */
  datatype State = State(clients: map<u32, nat>, attendants: map<nat, Attendant>, next: nat,
                         added: multiset<u32>, erased: multiset<u32>, notFound: bool, wrongErase: bool)

  datatype Event =
    | Add(address: u32)
    | StartReader(n: nat)
    | ReadFails(n: nat)
    | Erase(n: nat)

  function Step(s: State, e: Event): State {
    match e
    case Add(a) =>
      if a in s.clients then s
      else s.(clients := s.clients[a := s.next], attendants := s.attendants[s.next := Attendant(a, Starting)],
              next := s.next + 1, added := s.added + multiset{a})
    case StartReader(n) =>
      if n in s.attendants && s.attendants[n].stage.Starting? then
        var a := s.attendants[n].address;
        if a in s.clients then s.(attendants := s.attendants[n := Attendant(a, Reading(s.clients[a]))])
        else s.(attendants := s.attendants - {n}, notFound := true)
      else s
    case ReadFails(n) =>
      if n in s.attendants && s.attendants[n].stage.Reading? then
        s.(attendants := s.attendants[n := Attendant(s.attendants[n].address, Leaving(s.attendants[n].stage.client))])
      else s
    case Erase(n) =>
      if n in s.attendants && s.attendants[n].stage.Leaving? then
        var a := s.attendants[n].address;
        s.(clients := s.clients - {a}, attendants := s.attendants - {n},
           erased := s.erased + (if a in s.clients then multiset{a} else multiset{}),
           wrongErase := s.wrongErase || a !in s.clients || s.clients[a] != n)
      else s
  }

  function Run(s: State, events: seq<Event>): State
    decreases |events|
  {
    if events == [] then s else Run(Step(s, events[0]), events[1..])
  }

  const INITIAL: State := State(map[], map[], 0, multiset{}, multiset{}, false, false)

  ghost predicate Inv(s: State) {
    && !s.notFound && !s.wrongErase
    && (forall n | n in s.attendants :: n < s.next && s.attendants[n].address in s.clients && s.clients[s.attendants[n].address] == n)
    && (forall a | a in s.clients :: s.clients[a] in s.attendants && s.attendants[s.clients[a]].address == a)
    && (forall n | n in s.attendants && !s.attendants[n].stage.Starting? :: s.attendants[n].stage.client == n)
    && (forall a: u32 :: s.added[a] == s.erased[a] + if a in s.clients then 1 else 0)
  }

  lemma AddKeeps(s: State, address: u32)
    requires Inv(s)
    ensures Inv(Step(s, Add(address)))
  {
  }

  lemma StartReaderKeeps(s: State, n: nat)
    requires Inv(s)
    ensures Inv(Step(s, StartReader(n)))
  {
  }

  lemma ReadFailsKeeps(s: State, n: nat)
    requires Inv(s)
    ensures Inv(Step(s, ReadFails(n)))
  {
  }

  lemma EraseKeeps(s: State, n: nat)
    requires Inv(s)
    ensures Inv(Step(s, Erase(n)))
  {
  }

  lemma StepKeeps(s: State, e: Event)
    requires Inv(s)
    ensures Inv(Step(s, e))
  {
    hide Inv, Step;
    match e
    case Add(address) => AddKeeps(s, address);
    case StartReader(n) => StartReaderKeeps(s, n);
    case ReadFails(n) => ReadFailsKeeps(s, n);
    case Erase(n) => EraseKeeps(s, n);
  }

  lemma {:induction false} RunKeeps(s: State, events: seq<Event>)
    requires Inv(s)
    ensures Inv(Run(s, events))
    decreases |events|
  {
    if events != [] {
      StepKeeps(s, events[0]);
      RunKeeps(Step(s, events[0]), events[1..]);
    }
  }

  /** Registration n attends to an address: it is about to start a reader for it, or has one. */
  predicate Attends(s: State, n: nat, address: u32) {
    n in s.attendants && s.attendants[n].address == address
  }

  /** An address is known exactly while one reader runs or is about to start for it, on the client of its own
      registration; no lookup fails, no reader erases another's entry, and adds minus erases is 0 or 1. */
  lemma OneReaderPerClient(events: seq<Event>, address: u32)
    ensures var s := Run(INITIAL, events);
            && (address in s.clients <==> exists n :: Attends(s, n, address))
            && (forall n, k :: Attends(s, n, address) && Attends(s, k, address) ==> n == k)
            && (forall n :: Attends(s, n, address) && !s.attendants[n].stage.Starting? ==>
                  s.attendants[n].stage.client == n == s.clients[address])
            && !s.notFound && !s.wrongErase
            && s.added[address] == s.erased[address] + if address in s.clients then 1 else 0
  {
    RunKeeps(INITIAL, events);
    var s := Run(INITIAL, events);
    if address in s.clients {
      assert Attends(s, s.clients[address], address);
    }
  }

  // ---- Readers come and go ----

  /** The steps a registration still has before it. */
  function Rest(stage: Stage, n: nat): seq<Event> {
    match stage
    case Starting => [StartReader(n), ReadFails(n), Erase(n)]
    case Reading(_) => [ReadFails(n), Erase(n)]
    case Leaving(_) => [Erase(n)]
  }

  lemma RunNothing(s: State)
    ensures Run(s, []) == s
  {
  }

  lemma FirstStep(s: State, n: nat)
    requires n in s.attendants
    ensures var rest := Rest(s.attendants[n].stage, n); Run(s, rest) == Run(Step(s, rest[0]), rest[1..])
  {
    hide Step;
  }

  /** A registration that runs on erases its address, and nothing else. */
  lemma {:induction false} Leaves(s: State, n: nat)
    requires Inv(s) && n in s.attendants
    ensures var a := s.attendants[n].address;
            Run(s, Rest(s.attendants[n].stage, n))
            == s.(clients := s.clients - {a}, attendants := s.attendants - {n}, erased := s.erased + multiset{a})
    decreases |Rest(s.attendants[n].stage, n)|
  {
    hide Run;
    var rest := Rest(s.attendants[n].stage, n);
    var s' := Step(s, rest[0]);
    FirstStep(s, n);
    if s.attendants[n].stage.Leaving? {
      assert rest[1..] == [];
      RunNothing(s');
    } else {
      assert rest[1..] == Rest(s'.attendants[n].stage, n);
      StepKeeps(s, rest[0]);
      Leaves(s', n);
      assert s'.attendants - {n} == s.attendants - {n};
    }
  }

  lemma NextIsNew(s: State)
    requires Inv(s)
    ensures s.next !in s.attendants
  {
  }

  lemma RestFromTheStart(n: nat)
    ensures Rest(Starting, n) == [StartReader(n), ReadFails(n), Erase(n)]
  {
  }

  /** An address that is not known is registered, read and erased again, which leaves the map as it was; so it
      can be added the next time, and so on. While it is known a second add is refused. */
  lemma WholeVisit(s: State, address: u32)
    requires Inv(s) && address !in s.clients
    ensures var n := s.next;
            Run(s, [Add(address), StartReader(n), ReadFails(n), Erase(n)])
            == s.(next := n + 1, added := s.added + multiset{address}, erased := s.erased + multiset{address})
    ensures Step(s, Add(address)).clients == s.clients[address := s.next]
    ensures Step(Step(s, Add(address)), Add(address)) == Step(s, Add(address))
  {
    hide Inv, Rest;
    var n := s.next;
    var s' := Step(s, Add(address));
    NextIsNew(s);
    StepKeeps(s, Add(address));
    Leaves(s', n);
    var events := [Add(address), StartReader(n), ReadFails(n), Erase(n)];
    RestFromTheStart(n);
    assert events[0] == Add(address) && events[1..] == Rest(Starting, n);
    assert s'.attendants - {n} == s.attendants && s'.clients - {address} == s.clients;
  }

  lemma {:induction false} RunSplit(s: State, before: seq<Event>, after: seq<Event>)
    ensures Run(s, before + after) == Run(Run(s, before), after)
    decreases |before|
  {
    hide Step;
    if before == [] {
      assert before + after == after;
    } else {
      assert (before + after)[1..] == before[1..] + after;
      RunSplit(Step(s, before[0]), before[1..], after);
    }
  }

  ghost predicate OnlyFinishing(events: seq<Event>) {
    forall i | 0 <= i < |events| :: !events[i].Add?
  }

  lemma {:induction false} AllLeave(s: State) returns (more: seq<Event>)
    requires Inv(s)
    ensures OnlyFinishing(more)
    ensures var q := Run(s, more); Inv(q) && q.attendants == map[] && q.added == s.added
    decreases s.attendants.Keys
  {
    hide Inv, Run, Step;
    if s.attendants == map[] {
      more := [];
      RunNothing(s);
    } else {
      var n :| n in s.attendants;
      var first := Rest(s.attendants[n].stage, n);
      Leaves(s, n);
      RunKeeps(s, first);
      var rest := AllLeave(Run(s, first));
      more := first + rest;
      RunSplit(s, first, rest);
    }
  }

  /** From wherever a run has got to, every reader can come to its end, and then the map is empty and every
      add has been matched by one erase. */
  lemma EveryClientCanLeave(events: seq<Event>)
    ensures exists more ::
              && OnlyFinishing(more)
              && var q := Run(Run(INITIAL, events), more);
                 q.clients == map[] && q.attendants == map[] && q.added == q.erased == Run(INITIAL, events).added
  {
    hide Run;
    RunKeeps(INITIAL, events);
    var s := Run(INITIAL, events);
    var more := AllLeave(s);
    var q := Run(s, more);
    assert q.clients == map[];
    forall a: u32 ensures q.added[a] == q.erased[a] {}
    assert q.added == q.erased;
  }
}
