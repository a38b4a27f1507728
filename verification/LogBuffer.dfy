/** The log buffer of a process instance: a growing byte buffer under a mutex and a condition variable, written by the
    instance and read by any number of readers, each from the beginning. A state machine over the atomic steps of
    Write, close and Read; Broadcast comes after the unlock, as in the source. */
module LogBuffer {
  import opened Options

  type Tid = nat
  type Bytes = string   // one char for each byte

  datatype Result = Chunk(bytes: Bytes) | Eof

  /** Between the steps of one call. `cap` is the length of the slice a reader passes. */
  datatype Pc =
    | Idle
    | WriteLock(p: Bytes) | WriteAppend(p: Bytes) | WriteUnlock | WriteBroadcast
    | CloseLock | CloseSet | CloseUnlock | CloseBroadcast
    | ReadLock(cap: nat) | ReadTest(cap: nat)
    | WaitUnlock(cap: nat) | Asleep(cap: nat) | WaitRelock(cap: nat)
    | ReadUnlock(r: Result)

  /** A thread with its own reader. `chunks` and `ended` are history: what its Reads returned. */
  datatype Thread = Thread(pc: Pc, pos: nat, chunks: seq<Bytes>, ended: bool)

  datatype State = State(
    mu: Option<Tid>,
    data: Bytes,
    closed: bool,
    waiting: set<Tid>,       // the condition variable's list: added by Wait before it unlocks, emptied by Broadcast
    written: seq<Bytes>,     // history: the payloads of all Writes, in order
    threads: map<Tid, Thread>)

  function Concat(parts: seq<Bytes>): Bytes {
    if parts == [] then "" else Concat(parts[..|parts| - 1]) + parts[|parts| - 1]
  }

  function Min(a: nat, b: nat): nat { if a < b then a else b }

  /** What Read copies out when there is something past its position. */
  function Serve(data: Bytes, pos: nat, cap: nat): Bytes
    requires pos <= |data|
  {
    data[pos..pos + Min(cap, |data| - pos)]
  }

  /** The call a thread may begin. */
  predicate Entry(pc: Pc) { pc.WriteLock? || pc.CloseLock? || pc.ReadLock? }

  /** The state after thread t goes on to `pc`. */
  function At(s: State, t: Tid, pc: Pc): State
    requires t in s.threads
  {
    s.(threads := s.threads[t := s.threads[t].(pc := pc)])
  }

  predicate WriterStep(s: State, t: Tid, s': State)
    requires t in s.threads
  {
    match s.threads[t].pc
    case WriteLock(p) => s.mu == None && s' == At(s, t, WriteAppend(p)).(mu := Some(t))
    case WriteAppend(p) => s' == At(s, t, WriteUnlock).(data := s.data + p, written := s.written + [p])
    case WriteUnlock => s' == At(s, t, WriteBroadcast).(mu := None)
    case WriteBroadcast => s' == At(s, t, Idle).(waiting := {})
    case CloseLock => s.mu == None && s' == At(s, t, CloseSet).(mu := Some(t))
    case CloseSet => s' == At(s, t, CloseUnlock).(closed := true)
    case CloseUnlock => s' == At(s, t, CloseBroadcast).(mu := None)
    case CloseBroadcast => s' == At(s, t, Idle).(waiting := {})
    case _ => false
  }

  predicate ReaderStep(s: State, t: Tid, s': State)
    requires t in s.threads
  {
    var th := s.threads[t];
    match th.pc
    case ReadLock(cap) => s.mu == None && s' == At(s, t, ReadTest(cap)).(mu := Some(t))
    case ReadTest(cap) =>
      if th.pos < |s.data| then
        var b := Serve(s.data, th.pos, cap);
        s' == s.(threads := s.threads[t := th.(pc := ReadUnlock(Chunk(b)), pos := th.pos + |b|)])
      else if s.closed then s' == At(s, t, ReadUnlock(Eof))
      else s' == At(s, t, WaitUnlock(cap)).(waiting := s.waiting + {t})
    case WaitUnlock(cap) => s' == At(s, t, Asleep(cap)).(mu := None)
    case Asleep(cap) => t !in s.waiting && s' == At(s, t, WaitRelock(cap))
    case WaitRelock(cap) => s.mu == None && s' == At(s, t, ReadTest(cap)).(mu := Some(t))
    case ReadUnlock(Chunk(b)) =>
      s' == s.(mu := None, threads := s.threads[t := th.(pc := Idle, chunks := th.chunks + [b])])
    case ReadUnlock(Eof) => s' == s.(mu := None, threads := s.threads[t := th.(pc := Idle, ended := true)])
    case _ => false
  }

  predicate Next(s: State, t: Tid, s': State) {
    t in s.threads &&
    if s.threads[t].pc.Idle? then t in s'.threads && Entry(s'.threads[t].pc) && s' == At(s, t, s'.threads[t].pc)
    else WriterStep(s, t, s') || ReaderStep(s, t, s')
  }

  predicate Init(s: State) {
    && s.mu == None && s.data == "" && !s.closed && s.waiting == {} && s.written == []
    && forall t :: t in s.threads ==> s.threads[t] == Thread(Idle, 0, [], false)
  }

  // ---------------------------------------------------------------------------------------------
  // What every step keeps
  // ---------------------------------------------------------------------------------------------

  predicate HoldsMu(pc: Pc) {
    || pc.WriteAppend? || pc.WriteUnlock? || pc.CloseSet? || pc.CloseUnlock? || pc.ReadTest? || pc.WaitUnlock?
    || pc.ReadUnlock?
  }

  ghost predicate Exclusion(s: State) {
    forall t: Tid :: s.mu == Some(t) <==> t in s.threads && HoldsMu(s.threads[t].pc)
  }

  predicate Waiters(s: State) {
    forall t :: t in s.waiting ==> t in s.threads && (s.threads[t].pc.WaitUnlock? || s.threads[t].pc.Asleep?)
  }

  /** A Write or close that has made its change and not yet broadcast. */
  predicate OwesBroadcast(s: State, t: Tid) {
    t in s.threads &&
    var pc := s.threads[t].pc;
    pc.WriteUnlock? || pc.WriteBroadcast? || pc.CloseUnlock? || pc.CloseBroadcast?
  }

  predicate Ready(s: State, t: Tid)
    requires t in s.threads
  {
    s.threads[t].pos < |s.data| || s.closed
  }

  predicate NoLostWakeUp(s: State) {
    forall t :: t in s.waiting && t in s.threads && Ready(s, t) ==> exists w :: w in s.threads && OwesBroadcast(s, w)
  }

  /** What a reader has been given, with what the current Read is about to return. */
  function Received(th: Thread): Bytes {
    Concat(th.chunks) + match th.pc case ReadUnlock(Chunk(b)) => b case _ => ""
  }

  predicate ReaderOk(data: Bytes, closed: bool, th: Thread) {
    && th.pos <= |data| && Received(th) == data[..th.pos]
    && (th.pc == ReadUnlock(Eof) ==> closed && th.pos == |data|)
    && (th.ended ==> closed)
  }

  predicate Readers(s: State) {
    s.data == Concat(s.written) && forall t :: t in s.threads ==> ReaderOk(s.data, s.closed, s.threads[t])
  }

  ghost predicate Inv(s: State) { Exclusion(s) && Waiters(s) && NoLostWakeUp(s) && Readers(s) }

  lemma InitInv(s: State)
    requires Init(s)
    ensures Inv(s)
  {
  }

  lemma WriterKeepsExclusion(s: State, t: Tid, s': State)
    requires Exclusion(s) && t in s.threads && WriterStep(s, t, s')
    ensures Exclusion(s')
  {
    assert s.mu == Some(t) <==> HoldsMu(s.threads[t].pc);
  }

  lemma ReaderKeepsExclusion(s: State, t: Tid, s': State)
    requires Exclusion(s) && t in s.threads && ReaderStep(s, t, s')
    ensures Exclusion(s')
  {
    assert s.mu == Some(t) <==> HoldsMu(s.threads[t].pc);
  }

  lemma ExclusionKept(s: State, t: Tid, s': State)
    requires Exclusion(s) && Next(s, t, s')
    ensures Exclusion(s')
  {
    if !s.threads[t].pc.Idle? {
      if WriterStep(s, t, s') { WriterKeepsExclusion(s, t, s'); } else { ReaderKeepsExclusion(s, t, s'); }
    }
  }

  lemma WaitersKept(s: State, t: Tid, s': State)
    requires Waiters(s) && Next(s, t, s')
    ensures Waiters(s')
  {
  }

  lemma NoLostWakeUpKept(s: State, t: Tid, s': State)
    requires Waiters(s) && NoLostWakeUp(s) && Next(s, t, s')
    ensures NoLostWakeUp(s')
  {
    forall u | u in s'.waiting && u in s'.threads && Ready(s', u)
      ensures exists w :: w in s'.threads && OwesBroadcast(s', w)
    {
      if OwesBroadcast(s', t) {
      } else if u in s.waiting && Ready(s, u) {
        var w :| w in s.threads && OwesBroadcast(s, w);
        assert w == t || OwesBroadcast(s', w);
      }
    }
  }

  lemma ReadsOn(data: Bytes, closed: bool, th: Thread, cap: nat)
    requires ReaderOk(data, closed, th) && th.pc.ReadTest?
    ensures var b := Serve(data, th.pos, cap);
            th.pos + |b| <= |data| && ReaderOk(data, closed, th.(pc := ReadUnlock(Chunk(b)), pos := th.pos + |b|))
  {
    var b := Serve(data, th.pos, cap);
    assert data[..th.pos] + b == data[..th.pos + |b|];
  }

  lemma ReturnsChunk(data: Bytes, closed: bool, th: Thread, b: Bytes)
    requires ReaderOk(data, closed, th) && th.pc == ReadUnlock(Chunk(b))
    ensures ReaderOk(data, closed, th.(pc := Idle, chunks := th.chunks + [b]))
  {
    assert (th.chunks + [b])[..|th.chunks|] == th.chunks;
  }

  lemma ReaderOkHere(s: State, t: Tid, s': State)
    requires t in s.threads && ReaderStep(s, t, s') && ReaderOk(s.data, s.closed, s.threads[t])
    ensures ReaderOk(s.data, s.closed, s'.threads[t]) && s'.data == s.data && s'.closed == s.closed
  {
    var th, th' := s.threads[t], s'.threads[t];
    match th.pc
    case ReadTest(cap) => if th.pos < |s.data| { ReadsOn(s.data, s.closed, th, cap); }
    case ReadUnlock(Chunk(b)) => ReturnsChunk(s.data, s.closed, th, b);
    case _ =>
  }

  lemma WriterKeepsReader(s: State, t: Tid, s': State, u: Tid)
    requires Exclusion(s) && t in s.threads && WriterStep(s, t, s')
    requires u in s.threads && ReaderOk(s.data, s.closed, s.threads[u])
    ensures ReaderOk(s'.data, s'.closed, s'.threads[u])
  {
  }

  lemma ReadersKept(s: State, t: Tid, s': State)
    requires Exclusion(s) && Readers(s) && Next(s, t, s')
    ensures Readers(s')
  {
    forall u | u in s'.threads ensures ReaderOk(s'.data, s'.closed, s'.threads[u]) {
      if s.threads[t].pc.Idle? {
      } else if WriterStep(s, t, s') {
        WriterKeepsReader(s, t, s', u);
      } else {
        ReaderOkHere(s, t, s');
      }
    }
    WrittenIsData(s, t, s');
  }

  lemma WrittenIsData(s: State, t: Tid, s': State)
    requires s.data == Concat(s.written) && Next(s, t, s')
    ensures s'.data == Concat(s'.written)
  {
    if s.threads[t].pc.WriteAppend? {
      assert s'.written[..|s'.written| - 1] == s.written;
    }
  }

  // ---------------------------------------------------------------------------------------------
  // Every run
  // ---------------------------------------------------------------------------------------------

  ghost predicate Run(states: seq<State>, who: seq<Tid>) {
    && |states| == |who| + 1 && Init(states[0])
    && forall k :: 0 <= k < |who| ==> Next(states[k], who[k], states[k + 1])
  }

  lemma {:induction false} RunInv(states: seq<State>, who: seq<Tid>, k: nat)
    requires Run(states, who) && k < |states|
    ensures Inv(states[k])
  {
    if k == 0 {
      InitInv(states[0]);
    } else {
      RunInv(states, who, k - 1);
      var s, t, s' := states[k - 1], who[k - 1], states[k];
      assert Next(s, t, s');
      ExclusionKept(s, t, s');
      WaitersKept(s, t, s');
      NoLostWakeUpKept(s, t, s');
      ReadersKept(s, t, s');
    }
  }

  /** No wake-up is lost: if a reader sleeps although there is something to read or the buffer is closed, some Write or
      close has made its change and has its Broadcast still to come; it is past its unlock once the mutex is free. */
  lemma SleepersAreOwedBroadcast(states: seq<State>, who: seq<Tid>, k: nat, t: Tid) returns (w: Tid)
    requires Run(states, who) && k < |states| && t in states[k].threads
    requires states[k].threads[t].pc.Asleep? && t in states[k].waiting && Ready(states[k], t)
    ensures OwesBroadcast(states[k], w)
    ensures states[k].mu == None ==> states[k].threads[w].pc.WriteBroadcast? || states[k].threads[w].pc.CloseBroadcast?
  {
    RunInv(states, who, k);
    w :| w in states[k].threads && OwesBroadcast(states[k], w);
  }

  ghost predicate CanStep(s: State, t: Tid) {
    t in s.threads && !s.threads[t].pc.Idle? && exists s' :: Next(s, t, s')
  }

  lemma HolderCanStep(s: State, t: Tid)
    requires t in s.threads && !s.threads[t].pc.Idle? && (HoldsMu(s.threads[t].pc) || s.mu == None)
    requires s.threads[t].pc.Asleep? ==> t !in s.waiting
    ensures CanStep(s, t)
  {
    var th := s.threads[t];
    match th.pc
    case WriteLock(p) => assert Next(s, t, At(s, t, WriteAppend(p)).(mu := Some(t)));
    case WriteAppend(p) => assert Next(s, t, At(s, t, WriteUnlock).(data := s.data + p, written := s.written + [p]));
    case WriteUnlock => assert Next(s, t, At(s, t, WriteBroadcast).(mu := None));
    case WriteBroadcast => assert Next(s, t, At(s, t, Idle).(waiting := {}));
    case CloseLock => assert Next(s, t, At(s, t, CloseSet).(mu := Some(t)));
    case CloseSet => assert Next(s, t, At(s, t, CloseUnlock).(closed := true));
    case CloseUnlock => assert Next(s, t, At(s, t, CloseBroadcast).(mu := None));
    case CloseBroadcast => assert Next(s, t, At(s, t, Idle).(waiting := {}));
    case ReadLock(cap) => assert Next(s, t, At(s, t, ReadTest(cap)).(mu := Some(t)));
    case ReadTest(cap) =>
      if th.pos < |s.data| {
        var b := Serve(s.data, th.pos, cap);
        assert Next(s, t, s.(threads := s.threads[t := th.(pc := ReadUnlock(Chunk(b)), pos := th.pos + |b|)]));
      } else if s.closed {
        assert Next(s, t, At(s, t, ReadUnlock(Eof)));
      } else {
        assert Next(s, t, At(s, t, WaitUnlock(cap)).(waiting := s.waiting + {t}));
      }
    case WaitUnlock(cap) => assert Next(s, t, At(s, t, Asleep(cap)).(mu := None));
    case Asleep(cap) => assert Next(s, t, At(s, t, WaitRelock(cap)));
    case WaitRelock(cap) => assert Next(s, t, At(s, t, ReadTest(cap)).(mu := Some(t)));
    case ReadUnlock(Chunk(b)) =>
      assert Next(s, t, s.(mu := None, threads := s.threads[t := th.(pc := Idle, chunks := th.chunks + [b])]));
    case ReadUnlock(Eof) =>
      assert Next(s, t, s.(mu := None, threads := s.threads[t := th.(pc := Idle, ended := true)]));
  }

  /** When no call can go on, the calls under way are Reads of an open buffer by readers that have read it all. */
  lemma OnlyReadersWithNothingToReadWait(states: seq<State>, who: seq<Tid>, k: nat, t: Tid)
    requires Run(states, who) && k < |states| && t in states[k].threads && !states[k].threads[t].pc.Idle?
    requires forall u :: !CanStep(states[k], u)
    ensures states[k].threads[t].pc.Asleep? && states[k].threads[t].pos == |states[k].data| && !states[k].closed
  {
    RunInv(states, who, k);
    var s := states[k];
    if s.mu.Some? {
      HolderCanStep(s, s.mu.value);
    } else if !s.threads[t].pc.Asleep? || t !in s.waiting {
      HolderCanStep(s, t);
    } else if Ready(s, t) {
      var w := SleepersAreOwedBroadcast(states, who, k, t);
      HolderCanStep(s, w);
    }
    assert ReaderOk(s.data, s.closed, s.threads[t]);
  }

  /** Every reader has been given exactly what was written first, up to its position, however it was chunked. */
  lemma ReaderHasPrefix(states: seq<State>, who: seq<Tid>, k: nat, t: Tid)
    requires Run(states, who) && k < |states| && t in states[k].threads && !states[k].threads[t].pc.ReadUnlock?
    ensures states[k].threads[t].pos <= |Concat(states[k].written)|
    ensures Concat(states[k].threads[t].chunks) == Concat(states[k].written)[..states[k].threads[t].pos]
  {
    RunInv(states, who, k);
    assert ReaderOk(states[k].data, states[k].closed, states[k].threads[t]);
  }

  /** Read reports EOF only when the buffer is closed and this reader has read all of it. */
  lemma EofWhenClosedAndRead(states: seq<State>, who: seq<Tid>, k: nat, t: Tid)
    requires Run(states, who) && k < |states| && t in states[k].threads && states[k].threads[t].pc == ReadUnlock(Eof)
    ensures states[k].closed && Concat(states[k].threads[t].chunks) == Concat(states[k].written)
  {
    RunInv(states, who, k);
    var th := states[k].threads[t];
    assert ReaderOk(states[k].data, states[k].closed, th);
    assert states[k].data[..th.pos] == states[k].data;
  }

  /** Nothing is written once the buffer is closed, as when close is called after the process has exited. */
  ghost predicate CloseIsLast(states: seq<State>) {
    forall k :: 0 <= k < |states| - 1 && states[k].closed ==> states[k + 1].data == states[k].data
  }

  predicate EndedHasAll(s: State, t: Tid) {
    t in s.threads && s.threads[t].ended ==> s.closed && s.threads[t].pos == |s.data|
  }

  lemma EndedKept(s: State, u: Tid, s': State, t: Tid)
    requires Readers(s) && Next(s, u, s') && t in s.threads && EndedHasAll(s, t)
    requires s.closed ==> s'.data == s.data
    ensures EndedHasAll(s', t)
  {
    assert ReaderOk(s.data, s.closed, s.threads[t]);
  }

  lemma {:induction false} EndedReadAll(states: seq<State>, who: seq<Tid>, k: nat, t: Tid)
    requires Run(states, who) && CloseIsLast(states) && k < |states|
    ensures EndedHasAll(states[k], t)
  {
    if k > 0 {
      EndedReadAll(states, who, k - 1, t);
      EndedNext(states, who, k - 1, t);
    }
  }

  lemma EndedNext(states: seq<State>, who: seq<Tid>, k: nat, t: Tid)
    requires Run(states, who) && CloseIsLast(states) && k + 1 < |states| && EndedHasAll(states[k], t)
    ensures EndedHasAll(states[k + 1], t)
  {
    ReadersInRun(states, who, k);
    assert Next(states[k], who[k], states[k + 1]);
    assert states[k].closed ==> states[k + 1].data == states[k].data;
    if t in states[k].threads { EndedKept(states[k], who[k], states[k + 1], t); }
  }

  lemma ReadersInRun(states: seq<State>, who: seq<Tid>, k: nat)
    requires Run(states, who) && k < |states|
    ensures Readers(states[k])
  {
    RunInv(states, who, k);
  }

  /** Then a reader that has seen EOF has been given everything that was ever written. */
  lemma ReaderThatEndedHasAll(states: seq<State>, who: seq<Tid>, k: nat, t: Tid)
    requires Run(states, who) && CloseIsLast(states) && k < |states| && t in states[k].threads
    requires states[k].threads[t].ended && states[k].threads[t].pc.Idle?
    ensures Concat(states[k].threads[t].chunks) == Concat(states[k].written)
  {
    EndedReadAll(states, who, k, t);
    ReaderHasPrefix(states, who, k, t);
    RunInv(states, who, k);
    assert states[k].data[..|states[k].data|] == states[k].data;
  }

  // ---------------------------------------------------------------------------------------------
  // The buffer and its readers, statement by statement
  // ---------------------------------------------------------------------------------------------

  ghost predicate Invariant(P: State -> bool) {
    && (forall s :: Init(s) ==> P(s))
    && (forall s, t, s' :: P(s) && Next(s, t, s') ==> P(s'))
  }

  /** A state that has every invariant of the machine. */
  type Reached = s: State | forall P :: Invariant(P) ==> P(s)
    ghost witness State(None, "", false, {}, [], map[])

  lemma ReachedHasInv(s: Reached)
    ensures Exclusion(s) && Readers(s)
  {
    var P := s => Inv(s);
    forall s | Init(s) ensures P(s) { InitInv(s); }
    forall s, t, s' | P(s) && Next(s, t, s') ensures P(s') {
      ExclusionKept(s, t, s');
      WaitersKept(s, t, s');
      NoLostWakeUpKept(s, t, s');
      ReadersKept(s, t, s');
    }
    assert Invariant(P);
  }

  /** The machine's next state. */
  function Stepped(s: Reached, t: Tid, s': State): (r: Reached)
    requires Next(s, t, s')
    ensures r == s'
  {
    s'
  }

  /** What a thread can rely on while others run: its own call stays where it is, what was written stays, and nothing
      changes under the mutex while it holds that. */
  predicate Undisturbed(s: State, s': State, t: Tid) {
    && t in s.threads && t in s'.threads && s'.threads[t] == s.threads[t]
    && s.written <= s'.written && s.data <= s'.data && (s.closed ==> s'.closed)
    && (s.mu == Some(t) <==> s'.mu == Some(t))
    && (s.mu == Some(t) ==> s'.data == s.data && s'.closed == s.closed && s'.written == s.written)
  }

  lemma OtherStep(s: Reached, u: Tid, s': State, t: Tid)
    requires t in s.threads && u != t && Next(s, u, s')
    ensures Undisturbed(s, s', t)
  {
    ReachedHasInv(s);
    assert s.mu == Some(u) <==> HoldsMu(s.threads[u].pc);
  }

  class OutputBuf {
    var data: Bytes
    var closed: bool
    var locked: bool
    var at: Reached

    ghost predicate Valid()
      reads this
    {
      data == at.data && closed == at.closed && locked == at.mu.Some?
    }

    /** A buffer that these threads will use. */
    constructor (users: set<Tid>)
      ensures Valid() && data == "" && !closed && !locked && at.written == [] && at.threads.Keys == users
      ensures forall t :: t in users ==> at.threads[t] == Thread(Idle, 0, [], false)
    {
      data, closed, locked := "", false, false;
      at := Fresh(users);
    }

    /** Other threads run. */
    method Others(t: Tid)
      requires Valid() && t in at.threads
      modifies this
      ensures Valid() && Undisturbed(old(at), at, t)
    {
      var n: int := *;
      while n > 0
        invariant Valid() && Undisturbed(old(at), at, t)
      {
        n := n - 1;
        var u: Tid, next: State := *, *;
        if u != t && Next(at, u, next) {
          OtherStep(at, u, next, t);
          at := Stepped(at, u, next);
          data, closed, locked := at.data, at.closed, at.mu.Some?;
        }
      }
    }

    ghost predicate Idles(t: Tid)
      reads this
    {
      t in at.threads && at.threads[t].pc.Idle?
    }

    /** Write: append under the mutex, then wake the readers; None while it waits for the mutex. */
    method Write(t: Tid, p: Bytes) returns (n: Option<nat>)
      requires Valid() && Idles(t)
      modifies this
      ensures Valid() && t in at.threads && old(at.written) <= at.written
      ensures n == None ==> at.threads[t].pc == WriteLock(p)
      ensures n.Some? ==> n.value == |p| && Idles(t) && Wrote(old(at.written), at.written, p)
    {
      at := Stepped(at, t, At(at, t, WriteLock(p)));
      Others(t);
      if locked { return None; }
      locked, at := true, Stepped(at, t, At(at, t, WriteAppend(p)).(mu := Some(t)));
      ghost var k := |at.written|;
      Append(t, p);
      Announce(t);
      assert at.written[k] == p;
      n := Some(|p|);
    }

    method Append(t: Tid, p: Bytes)
      requires Valid() && t in at.threads && at.threads[t].pc == WriteAppend(p) && at.mu == Some(t)
      modifies this
      ensures Valid() && t in at.threads && at.threads[t].pc == WriteUnlock && at.mu == Some(t)
      ensures at.written == old(at.written) + [p]
    {
      Others(t);
      data := data + p;
      at := Stepped(at, t, At(at, t, WriteUnlock).(data := at.data + p, written := at.written + [p]));
      Others(t);
    }

    /** The mutex is released, and then the readers are woken. */
    method Announce(t: Tid)
      requires Valid() && t in at.threads && at.threads[t].pc == WriteUnlock && at.mu == Some(t)
      modifies this
      ensures Valid() && Idles(t) && old(at.written) <= at.written
    {
      locked, at := false, Stepped(at, t, At(at, t, WriteBroadcast).(mu := None));
      Others(t);
      at := Stepped(at, t, At(at, t, Idle).(waiting := {}));
    }

    /** close: the same with the flag; false while it waits for the mutex. */
    method Close(t: Tid) returns (done: bool)
      requires Valid() && Idles(t)
      modifies this
      ensures Valid() && t in at.threads && old(at.written) <= at.written
      ensures done ==> closed && Idles(t)
    {
      at := Stepped(at, t, At(at, t, CloseLock));
      Others(t);
      if locked { return false; }
      locked, at := true, Stepped(at, t, At(at, t, CloseSet).(mu := Some(t)));
      Others(t);
      closed, at := true, Stepped(at, t, At(at, t, CloseUnlock).(closed := true));
      Others(t);
      locked, at := false, Stepped(at, t, At(at, t, CloseBroadcast).(mu := None));
      Others(t);
      at := Stepped(at, t, At(at, t, Idle).(waiting := {}));
      done := true;
    }

    /** The last n bytes, labelled, or nothing. */
    method Tail(n: nat) returns (text: Bytes)
      ensures data == "" ==> text == ""
      ensures data != "" ==>
                exists rest :: text == "\nrecent output:\n" + rest && |rest| == Min(n, |data|)
                               && data[|data| - |rest|..] == rest
    {
      if data == "" { return ""; }
      var start := if |data| > n then |data| - n else 0;
      text := "\nrecent output:\n" + data[start..];
    }
  }

  /** One of the payloads that came in since is this one. */
  ghost predicate Wrote(before: seq<Bytes>, after: seq<Bytes>, p: Bytes) {
    before <= after && exists k :: |before| <= k < |after| && after[k] == p
  }

  class OutputBufReader {
    const buf: OutputBuf
    const t: Tid                      // the thread that reads with it
    var pos: nat

    ghost predicate Valid()
      reads this, buf
    {
      buf.Valid() && t in buf.at.threads && pos == buf.at.threads[t].pos && pos <= |buf.data|
    }

    constructor (buf: OutputBuf, t: Tid)
      requires buf.Valid() && buf.Idles(t) && buf.at.threads[t].pos == 0
      ensures Valid() && this.buf == buf && this.t == t && pos == 0
    {
      this.buf, this.t, this.pos := buf, t, 0;
    }

    /** Read: wait until there is something past the position or the buffer is closed; None while it waits, for the
        mutex or to be woken. The bytes continue what the reader had. */
    method Read(cap: nat, patience: nat) returns (r: Option<Result>)
      requires Valid() && buf.Idles(t)
      modifies this, buf
      ensures Valid()
      ensures r == None ==> pos == old(pos)
      ensures r.Some? ==> buf.Idles(t)
      ensures r == Some(Eof) ==> buf.closed && pos == old(pos) && buf.at.threads[t].ended
      ensures r.Some? && r.value.Chunk? ==>
                && old(pos) <= pos && buf.data[..old(pos)] + r.value.bytes == buf.data[..pos]
                && buf.at.threads[t].chunks == old(buf.at.threads[t].chunks) + [r.value.bytes]
                && |r.value.bytes| <= cap && (cap > 0 ==> r.value.bytes != "")
    {
      buf.at := Stepped(buf.at, t, At(buf.at, t, ReadLock(cap)));
      buf.Others(t);
      if buf.locked { return None; }
      buf.locked, buf.at := true, Stepped(buf.at, t, At(buf.at, t, ReadTest(cap)).(mu := Some(t)));
      buf.Others(t);
      var n := patience;
      while pos >= |buf.data|
        invariant Valid() && Testing(cap) && pos == old(pos) && buf.at.threads[t].chunks == old(buf.at.threads[t].chunks)
        decreases n
      {
        if buf.closed { r := End(); return; }
        if n == 0 { return None; }
        n := n - 1;
        var woken := Wait(cap);
        if !woken { return None; }
      }
      r := Take(cap);
    }

    /** At the head of the loop, under the mutex. */
    ghost predicate Testing(cap: nat)
      reads this, buf
    {
      t in buf.at.threads && buf.at.threads[t].pc == ReadTest(cap) && buf.at.mu == Some(t)
    }

    /** cond.Wait: the mutex is given up, and taken again once the reader has been woken. */
    method Wait(cap: nat) returns (woken: bool)
      requires Valid() && Testing(cap) && pos >= |buf.data| && !buf.closed
      modifies buf
      ensures Valid() && buf.at.threads[t].chunks == old(buf.at.threads[t].chunks)
      ensures woken ==> Testing(cap)
    {
      buf.at := Stepped(buf.at, t, At(buf.at, t, WaitUnlock(cap)).(waiting := buf.at.waiting + {t}));
      buf.Others(t);
      buf.locked, buf.at := false, Stepped(buf.at, t, At(buf.at, t, Asleep(cap)).(mu := None));
      buf.Others(t);
      if t in buf.at.waiting { return false; }
      buf.at := Stepped(buf.at, t, At(buf.at, t, WaitRelock(cap)));
      buf.Others(t);
      if buf.locked { return false; }
      buf.locked, buf.at := true, Stepped(buf.at, t, At(buf.at, t, ReadTest(cap)).(mu := Some(t)));
      buf.Others(t);
      woken := true;
    }

    method End() returns (r: Option<Result>)
      requires Valid() && t in buf.at.threads && buf.at.threads[t].pc.ReadTest? && buf.at.mu == Some(t)
      requires pos >= |buf.data| && buf.closed
      modifies buf
      ensures Valid() && r == Some(Eof) && buf.closed && buf.Idles(t) && buf.at.threads[t].ended
    {
      buf.at := Stepped(buf.at, t, At(buf.at, t, ReadUnlock(Eof)));
      buf.Others(t);
      var th := buf.at.threads[t].(pc := Idle, ended := true);
      buf.locked, buf.at := false, Stepped(buf.at, t, buf.at.(mu := None, threads := buf.at.threads[t := th]));
      r := Some(Eof);
    }

    /** copy, and unlock. */
    method Take(cap: nat) returns (r: Option<Result>)
      requires Valid() && Testing(cap) && pos < |buf.data|
      modifies this, buf
      ensures Valid() && buf.Idles(t) && r.Some? && r.value.Chunk? && old(pos) <= pos
      ensures buf.data[..old(pos)] + r.value.bytes == buf.data[..pos]
      ensures |r.value.bytes| <= cap && (cap > 0 ==> r.value.bytes != "")
      ensures buf.at.threads[t].chunks == old(buf.at.threads[t].chunks) + [r.value.bytes]
    {
      var b := Serve(buf.data, pos, cap);
      pos := pos + |b|;
      var th := buf.at.threads[t].(pc := ReadUnlock(Chunk(b)), pos := pos);
      buf.at := Stepped(buf.at, t, buf.at.(threads := buf.at.threads[t := th]));
      buf.Others(t);
      th := buf.at.threads[t].(pc := Idle, chunks := buf.at.threads[t].chunks + [b]);
      buf.locked, buf.at := false, Stepped(buf.at, t, buf.at.(mu := None, threads := buf.at.threads[t := th]));
      r := Some(Chunk(b));
    }
  }

  function Fresh(users: set<Tid>): (s: Reached)
    ensures s == State(None, "", false, {}, [], map t | t in users :: Thread(Idle, 0, [], false))
  {
    var s := State(None, "", false, {}, [], map t | t in users :: Thread(Idle, 0, [], false));
    assert Init(s);
    s
  }
}
