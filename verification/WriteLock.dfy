/** Many threads writing to one descriptor under one mutex
    (servercc/connectors/include/internal_channel.h, servercc/types/src/message.cc): each lock, each of the
    two sends and each unlock is a step of its own, in any interleaving. Sends complete. */
module WriteLock {
  import opened Bytes
  import opened Messages
  import opened Framing

  type Whole = m: Message | m.Framed() witness Message(0, 0, [])

  /** Where a thread inside `write` or `close` is; a thread not in the map is elsewhere. */
  datatype Pc =
    | Waiting(m: Whole)
    | Locked(m: Whole)
    | HeaderSent(m: Whole)
    | BodySent(m: Whole)

  datatype Sent = Sent(thread: nat, m: Whole)

  /** `frames` (completed, in order) and `calls` (per thread, in program order) are history. */
  datatype State = State(stream: seq<byte>, mutex: Option<nat>, pcs: map<nat, Pc>, frames: seq<Sent>, calls: seq<Sent>)

  datatype Event =
    | Call(t: nat, m: Whole)
    | Lock(t: nat)
    | SendHeader(t: nat)
    | SendBody(t: nat)
    | Unlock(t: nat)

  /** A step that is not the thread's next one changes nothing. Only Lock looks at the mutex. */
  function Step(s: State, e: Event): State {
    var t := e.t;
    match e
    case Call(_, m) =>
      if t in s.pcs then s else s.(pcs := s.pcs[t := Waiting(m)], calls := s.calls + [Sent(t, m)])
    case Lock(_) =>
      if t in s.pcs && s.pcs[t].Waiting? && s.mutex.None? then s.(mutex := Some(t), pcs := s.pcs[t := Locked(s.pcs[t].m)])
      else s
    case SendHeader(_) =>
      if t in s.pcs && s.pcs[t].Locked? then
        s.(stream := s.stream + HeaderBytes(s.pcs[t].m), pcs := s.pcs[t := HeaderSent(s.pcs[t].m)])
      else s
    case SendBody(_) =>
      if t in s.pcs && s.pcs[t].HeaderSent? then
        s.(stream := s.stream + s.pcs[t].m.body, pcs := s.pcs[t := BodySent(s.pcs[t].m)],
           frames := s.frames + [Sent(t, s.pcs[t].m)])
      else s
    case Unlock(_) =>
      if t in s.pcs && s.pcs[t].BodySent? then s.(mutex := None, pcs := s.pcs - {t}) else s
  }

  function Run(s: State, events: seq<Event>): State
    decreases |events|
  {
    if events == [] then s else Run(Step(s, events[0]), events[1..])
  }

  const INITIAL: State := State([], None, map[], [], [])

  function Contents(frames: seq<Sent>): (ms: seq<Message>)
    ensures |ms| == |frames| && AllFramed(ms)
  {
    seq(|frames|, i requires 0 <= i < |frames| => frames[i].m)
  }

  function ByThread(sent: seq<Sent>, t: nat): seq<Whole>
    decreases |sent|
  {
    if sent == [] then []
    else ByThread(sent[..|sent| - 1], t) + if sent[|sent| - 1].thread == t then [sent[|sent| - 1].m] else []
  }

  /** The unfinished frame on the stream: the header of the lock holder's message, or nothing. */
  function Partial(s: State): seq<byte> {
    if s.mutex.Some? && s.mutex.value in s.pcs && s.pcs[s.mutex.value].HeaderSent? then HeaderBytes(s.pcs[s.mutex.value].m)
    else []
  }

  /** What a thread has called for and not yet completed. */
  function Pending(s: State, t: nat): seq<Whole> {
    if t in s.pcs && !s.pcs[t].BodySent? then [s.pcs[t].m] else []
  }

  ghost predicate Inv(s: State) {
    && (forall t | t in s.pcs :: !s.pcs[t].Waiting? <==> s.mutex == Some(t))
    && (s.mutex.Some? ==> s.mutex.value in s.pcs)
    && s.stream == SerializedAll(Contents(s.frames)) + Partial(s)
    && (forall t :: ByThread(s.frames, t) + Pending(s, t) == ByThread(s.calls, t))
  }

  lemma OneMoreFrame(frames: seq<Sent>, f: Sent)
    ensures SerializedAll(Contents(frames + [f])) == SerializedAll(Contents(frames)) + (HeaderBytes(f.m) + f.m.body)
  {
    assert Contents(frames + [f]) == Contents(frames) + [f.m];
    SerializedAllAppend(Contents(frames), [f.m]);
    OneSerialized(f.m);
  }

  lemma OneSerialized(m: Message)
    ensures SerializedAll([m]) == HeaderBytes(m) + m.body
  {
    assert [m][1..] == [];
    assert Serialized(m) + [] == Serialized(m);
  }

  lemma ByThreadAppend(sent: seq<Sent>, f: Sent, t: nat)
    ensures ByThread(sent + [f], t) == ByThread(sent, t) + if f.thread == t then [f.m] else []
  {
    assert (sent + [f])[..|sent|] == sent;
  }

  lemma StreamStep(s: State, e: Event)
    requires Inv(s)
    ensures Step(s, e).stream == SerializedAll(Contents(Step(s, e).frames)) + Partial(Step(s, e))
  {
    hide SerializedAll, ByThread, Contents, HeaderBytes;
    var s' := Step(s, e);
    if e.SendBody? && s' != s {
      var m := s.pcs[e.t].m;
      OneMoreFrame(s.frames, Sent(e.t, m));
      assert s.stream == SerializedAll(Contents(s.frames)) + HeaderBytes(m);
    }
  }

  lemma ThreadStep(s: State, e: Event, t: nat)
    requires Inv(s)
    ensures ByThread(Step(s, e).frames, t) + Pending(Step(s, e), t) == ByThread(Step(s, e).calls, t)
  {
    hide SerializedAll, ByThread, Contents, HeaderBytes;
    assert ByThread(s.frames, t) + Pending(s, t) == ByThread(s.calls, t);
    match e
    case Call(x, m) => ByThreadAppend(s.calls, Sent(x, m), t);
    case SendBody(x) => if x in s.pcs { ByThreadAppend(s.frames, Sent(x, s.pcs[x].m), t); }
    case _ =>
  }

  lemma StepKeeps(s: State, e: Event)
    requires Inv(s)
    ensures Inv(Step(s, e))
  {
    hide SerializedAll, ByThread, Contents, Partial, Pending;
    StreamStep(s, e);
    forall t ensures ByThread(Step(s, e).frames, t) + Pending(Step(s, e), t) == ByThread(Step(s, e).calls, t) {
      ThreadStep(s, e, t);
    }
  }

  lemma {:induction false} RunKeeps(s: State, events: seq<Event>)
    requires Inv(s)
    ensures Inv(Run(s, events))
    decreases |events|
  {
    if events != [] {
      StepKeeps(s, events[0]);
      RunKeeps(Step(s, events[0]), events[1..]);
    }
  }

  lemma InitialInv()
    ensures Inv(INITIAL)
  {
    assert Contents([]) == [];
  }

  /** At every moment the stream is whole frames, in the order they were completed, and after them at most
      the header of the one thread that holds the lock. */
  lemma StreamIsWholeFrames(events: seq<Event>)
    ensures var s := Run(INITIAL, events);
            && s.stream == SerializedAll(Contents(s.frames)) + Partial(s)
            && (Partial(s) != [] ==> s.mutex.Some? && s.mutex.value in s.pcs && s.pcs[s.mutex.value].HeaderSent?)
  {
    InitialInv();
    RunKeeps(INITIAL, events);
  }

  /** A thread's frames are on the stream in the order of its calls, none missing but the one in progress. */
  lemma ThreadOrderKept(events: seq<Event>, t: nat)
    ensures var s := Run(INITIAL, events);
            && ByThread(s.frames, t) + Pending(s, t) == ByThread(s.calls, t)
            && (t !in s.pcs ==> ByThread(s.frames, t) == ByThread(s.calls, t))
  {
    InitialInv();
    RunKeeps(INITIAL, events);
    var s := Run(INITIAL, events);
    assert ByThread(s.frames, t) + Pending(s, t) == ByThread(s.calls, t);
  }

  /** The frame whose header is out. */
  function Underway(s: State): (ms: seq<Message>)
    ensures AllFramed(ms)
  {
    if s.mutex.Some? && s.mutex.value in s.pcs && s.pcs[s.mutex.value].HeaderSent? then [s.pcs[s.mutex.value].m] else []
  }

  /** So a reader of the stream, at any moment and with its reads cut anywhere, gets completed frames and at
      most the one underway; and with full reads, while nobody holds the lock, all of them. */
  lemma ReaderSeesTheFrames(events: seq<Event>, grants: nat -> Grant)
    ensures var s := Run(INITIAL, events);
            && ReadAll(s.stream, grants, 0) <= Contents(s.frames) + Underway(s)
            && (s.mutex.None? && (forall k :: grants(k) == Grant(HEADER_LENGTH, U32_LIMIT)) ==>
                  ReadAll(s.stream, grants, 0) == Contents(s.frames))
  {
    hide ReadAll, SerializedAll, Run, Serialized;
    InitialInv();
    RunKeeps(INITIAL, events);
    var s := Run(INITIAL, events);
    StreamIsPrefix(s);
    ShortReadsNeverMisframe(Contents(s.frames) + Underway(s), s.stream, grants, 0);
    if s.mutex.None? && forall k :: grants(k) == Grant(HEADER_LENGTH, U32_LIMIT) {
      assert s.stream == SerializedAll(Contents(s.frames));
      FullReadsDeliverAll(Contents(s.frames), grants, 0);
    }
  }

  lemma StreamIsPrefix(s: State)
    requires Inv(s)
    ensures s.stream <= SerializedAll(Contents(s.frames) + Underway(s))
  {
    hide SerializedAll, Contents, ByThread;
    SerializedAllAppend(Contents(s.frames), Underway(s));
    if Underway(s) != [] {
      OneSerialized(s.pcs[s.mutex.value].m);
    }
  }

  // ---- Writes come to an end ----

  /** The steps a thread still has before it. */
  function Rest(pc: Pc, t: nat): seq<Event> {
    match pc
    case Waiting(_) => [Lock(t), SendHeader(t), SendBody(t), Unlock(t)]
    case Locked(_) => [SendHeader(t), SendBody(t), Unlock(t)]
    case HeaderSent(_) => [SendBody(t), Unlock(t)]
    case BodySent(_) => [Unlock(t)]
  }

  predicate MayRun(s: State, t: nat) {
    s.mutex.None? || s.mutex.value == t
  }

  lemma RunNothing(s: State)
    ensures Run(s, []) == s
  {
  }

  lemma FirstStep(s: State, t: nat)
    requires t in s.pcs
    ensures Run(s, Rest(s.pcs[t], t)) == Run(Step(s, Rest(s.pcs[t], t)[0]), Rest(s.pcs[t], t)[1..])
  {
    hide Step;
  }

  lemma MutexOf(s: State)
    requires Inv(s)
    ensures forall t | t in s.pcs :: !s.pcs[t].Waiting? <==> s.mutex == Some(t)
    ensures s.mutex.Some? ==> s.mutex.value in s.pcs
  {
  }

  /** A thread that runs on puts what is missing of its frame on the stream and gives the lock back. */
  lemma {:induction false} FinishesWrite(s: State, t: nat)
    requires Inv(s) && t in s.pcs && MayRun(s, t)
    ensures var pc := s.pcs[t];
            Run(s, Rest(pc, t))
            == s.(mutex := None, pcs := s.pcs - {t},
                  frames := s.frames + (if pc.BodySent? then [] else [Sent(t, pc.m)]),
                  stream := s.stream + (if pc.BodySent? then [] else if pc.HeaderSent? then pc.m.body else HeaderBytes(pc.m) + pc.m.body))
    decreases |Rest(s.pcs[t], t)|
  {
    hide Inv, Run, HeaderBytes;
    var pc := s.pcs[t];
    var s' := Step(s, Rest(pc, t)[0]);
    FirstStep(s, t);
    MutexOf(s);
    assert s.frames + [] == s.frames && s.stream + [] == s.stream;
    if pc.BodySent? {
      assert Rest(pc, t)[1..] == [];
      RunNothing(s');
    } else {
      StepKeeps(s, Rest(pc, t)[0]);
      assert s'.frames + [] == s'.frames && s'.stream + [] == s'.stream;
      assert Rest(pc, t)[1..] == Rest(s'.pcs[t], t);
      FinishesWrite(s', t);
      assert s'.pcs - {t} == s.pcs - {t};
      assert s.stream + HeaderBytes(pc.m) + pc.m.body == s.stream + (HeaderBytes(pc.m) + pc.m.body);
    }
  }

  /** One write on its own puts exactly its frame on the stream, and all else is as before. Other threads may
      be anywhere but inside the lock. */
  lemma WholeWrite(s: State, t: nat, m: Whole)
    requires Inv(s) && t !in s.pcs && s.mutex.None?
    ensures Run(s, [Call(t, m), Lock(t), SendHeader(t), SendBody(t), Unlock(t)])
         == s.(stream := s.stream + Serialized(m), frames := s.frames + [Sent(t, m)], calls := s.calls + [Sent(t, m)])
  {
    hide Inv, HeaderBytes;
    var s' := Step(s, Call(t, m));
    StepKeeps(s, Call(t, m));
    FinishesWrite(s', t);
    var events := [Call(t, m), Lock(t), SendHeader(t), SendBody(t), Unlock(t)];
    assert events[0] == Call(t, m) && events[1..] == Rest(Waiting(m), t);
    assert s'.pcs - {t} == s.pcs;
  }

  /** No step that begins a write. */
  ghost predicate OnlyFinishing(events: seq<Event>) {
    forall i | 0 <= i < |events| :: !events[i].Call?
  }

  lemma {:induction false} RunSplit(s: State, before: seq<Event>, after: seq<Event>)
    ensures Run(s, before + after) == Run(Run(s, before), after)
    decreases |before|
  {
    hide Step;
    if before == [] {
      assert before + after == after;
    } else {
      assert (before + after)[1..] == before[1..] + after;
      RunSplit(Step(s, before[0]), before[1..], after);
    }
  }

  lemma ThreadFinishes(s: State, t: nat)
    requires Inv(s) && t in s.pcs && MayRun(s, t)
    ensures var q := Run(s, Rest(s.pcs[t], t)); q.mutex.None? && q.pcs == s.pcs - {t} && q.calls == s.calls
    ensures OnlyFinishing(Rest(s.pcs[t], t))
  {
    hide Inv, Run, Step;
    FinishesWrite(s, t);
  }

  lemma {:induction false} WritesDrain(s: State) returns (more: seq<Event>)
    requires Inv(s)
    ensures OnlyFinishing(more)
    ensures var q := Run(s, more); Inv(q) && q.pcs == map[] && q.mutex.None? && q.calls == s.calls
    decreases s.pcs.Keys
  {
    hide Inv, Run, Rest, Step;
    MutexOf(s);
    if s.pcs == map[] {
      more := [];
      RunNothing(s);
    } else {
      var t :| t in s.pcs && MayRun(s, t) by {
        if s.mutex.Some? {
          assert s.mutex.value in s.pcs && MayRun(s, s.mutex.value);
        } else {
          var t :| t in s.pcs;
          assert MayRun(s, t);
        }
      }
      var first := Rest(s.pcs[t], t);
      ThreadFinishes(s, t);
      RunKeeps(s, first);
      var rest := WritesDrain(Run(s, first));
      more := first + rest;
      RunSplit(s, first, rest);
    }
  }

  /** Everything called for is on the stream, in whole frames, and the lock is free. */
  ghost predicate AllWritten(s: State) {
    && s.pcs == map[] && s.mutex.None? && s.stream == SerializedAll(Contents(s.frames))
    && forall t :: ByThread(s.frames, t) == ByThread(s.calls, t)
  }

  /** No writer is ever stuck: from wherever a run has got to, the threads inside can finish without any new
      call, and then all that was ever called for has been written. */
  lemma EveryWriteCanFinish(events: seq<Event>)
    ensures exists more :: OnlyFinishing(more) && AllWritten(Run(Run(INITIAL, events), more))
                           && Run(Run(INITIAL, events), more).calls == Run(INITIAL, events).calls
  {
    hide Run, SerializedAll, Contents, ByThread;
    InitialInv();
    RunKeeps(INITIAL, events);
    var s := Run(INITIAL, events);
    var more := WritesDrain(s);
    var q := Run(s, more);
    forall t ensures ByThread(q.frames, t) == ByThread(q.calls, t) {
      assert ByThread(q.frames, t) + Pending(q, t) == ByThread(q.calls, t);
      assert ByThread(q.frames, t) + [] == ByThread(q.frames, t);
    }
    assert q.stream == SerializedAll(Contents(q.frames)) + [];
    assert AllWritten(q);
  }
}
