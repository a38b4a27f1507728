/** The instance lifecycle protocol of `router.Manager`, and `Router.invoke` on top of it, as a
    state machine in which any number of threads interleave one atomic step at a time.

    A step is split in two. `ProgStep` is the thread's own program: it says which program counter
    follows which, and names the `Effect` of the step on the shared state. `Apply` is what each
    effect does. Lemmas about one thread look only at `ProgStep`; lemmas about the whole system
    need only the few kinds of effect.

    Two assumptions are part of the machine. A started instance has an invoke URL no other
    instance ever had (`EffectOk`, case StartReturned). A request whose client call failed for a
    reason other than its context reached no runtime (`MayReach`). */
module Lifecycle {
  import opened Options

  type Tid = nat
  type Name = string
  type Url = string
  type Inst = nat     // instances are numbered in the order their Start returned
  type MutexId = nat

  datatype Lock = MapMu | InstMu | ResolverMu | Named(id: MutexId)
  datatype Table = Starts | Invokes   // the start guards and the invoke locks

  /** How one POST ended. `ctxErr` says that the error is a deadline or a cancellation; `exit` that
      the body is a Runtime.ExitError envelope. */
  datatype Outcome = BuildFailed | DoFailed(ctxErr: bool) | BodyFailed | Answered(exit: bool)

  /** Who took an instance out of the map. */
  datatype Cause = ByRestart | ByStopAll | ByDiscard | ByInvoke(used: Inst, why: Outcome, late: bool)

  datatype Event =
    | Started(name: Name, inst: Inst)
    | Removed(name: Name, inst: Inst, cause: Cause)

  /** Where an instance is. A history variable: no step reads it. */
  datatype Place = InHand(t: Tid) | Cached(name: Name) | TakenOut(t: Tid) | Stopped

  datatype Shared = Shared(
    known: set<Name>,
    starts: map<Name, MutexId>,
    invokes: map<Name, MutexId>,
    mutexes: seq<(Table, Name)>,   // the mutexes made so far, each with what it was made for
    owner: map<Lock, Tid>,
    instances: map<Name, Inst>,
    urls: seq<Url>,            // the URL of every instance ever started
    places: seq<Place>,        // history: the place of every instance ever started
    stops: multiset<Inst>,     // history: every call of Stop
    log: seq<Event>,           // history
    clock: nat)                // history: the number of steps taken

  datatype Op = Ensure | WithLock | Restart | Discard | StopAll

  datatype NamedPc = AwaitMap | Lookup | AddMutex | LeaveMap
  datatype EnsurePc =
    | AwaitInst | Read | LeaveInst | HitLeave
    | Resolve | AwaitResolver | InResolver | Starting | FailLeave
    | InsertAwaitInst | InsertInst | InsertLeaveInst | InsertLeave
  datatype BodyPc = Enter | Posting | LeaveBody
  datatype TakePc = TakeAwaitInst | Take | TakeLeaveInst | CallStop | Stopping | LeaveInvoke | LeaveStart
  datatype AllPc = AllAwaitInst | AllTake | AllLeaveInst | AllCallStop | AllStopping

  /** Where a thread is: outside, at a call's first test, inside namedMutex, waiting for a start guard or an
      invoke lock, inside the rest of Ensure, WithLock, Restart and Discard, or StopAll, or about to return. */
  datatype Pc =
    | Idle | Check
    | AtNamed(named: NamedPc, table: Table)
    | AwaitStart | AwaitInvoke
    | AtEnsure(ensure: EnsurePc) | AtBody(body: BodyPc) | AtTake(take: TakePc) | AtStopAll(all: AllPc)
    | Returned

  datatype Phase = InEnsure | InPost | InRetryDiscard | InExitDiscard | Finished(ok: bool)

  /** `Router.invoke`'s own variables; `expired` is that its time has run out or its client gone. The rest is history:
      `late`, that this was so when it was decided to evict, `posts`, the POSTs sent, and `reached`, how many of them
      reached a runtime. */
  datatype Frame =
    | Direct
    | Invoke(phase: Phase, attempt: nat, expired: bool, late: bool, used: Inst, last: Outcome, posts: nat, reached: nat)

  datatype Thread = Thread(
    op: Op, pc: Pc, name: Name, url: Url,
    startMu: MutexId, invokeMu: MutexId,
    found: Option<Inst>,    // Ensure's instance
    hand: Option<Inst>,     // started, not yet in the map
    taken: seq<Inst>,       // out of the map, Stop not yet called
    ok: bool,
    began: nat,             // history: the clock when the current call began
    frame: Frame)

  datatype State = State(sh: Shared, threads: map<Tid, Thread>)

  datatype Effect =
    | Local
    | Acquire(lock: Lock) | Release(lock: Lock)
    | NewMutex(table: Table, name: Name)
    | StartReturned(name: Name, url: Url)
    | Insert(name: Name, inst: Inst)
    | Remove(name: Name, inst: Inst, cause: Cause)
    | StopCalled(inst: Inst)

  // ---------------------------------------------------------------------------------------------
  // What an effect does to the shared state
  // ---------------------------------------------------------------------------------------------

  function TableOf(sh: Shared, table: Table): map<Name, MutexId> {
    match table case Starts => sh.starts case Invokes => sh.invokes
  }

  predicate EffectOk(sh: Shared, e: Effect) {
    match e
    case Acquire(l) => l !in sh.owner
    case StartReturned(_, u) => u !in sh.urls
    case Insert(_, i) => i < |sh.places|
    case Remove(_, i, _) => i < |sh.places|
    case StopCalled(i) => i < |sh.places|
    case _ => true
  }

  function Apply(sh: Shared, t: Tid, e: Effect): Shared
    requires EffectOk(sh, e)
  {
    var sh := sh.(clock := sh.clock + 1);
    match e
    case Local => sh
    case Acquire(l) => sh.(owner := sh.owner[l := t])
    case Release(l) => sh.(owner := sh.owner - {l})
    case NewMutex(Starts, n) => sh.(starts := sh.starts[n := |sh.mutexes|], mutexes := sh.mutexes + [(Starts, n)])
    case NewMutex(Invokes, n) => sh.(invokes := sh.invokes[n := |sh.mutexes|], mutexes := sh.mutexes + [(Invokes, n)])
    case StartReturned(n, u) =>
      sh.(urls := sh.urls + [u], places := sh.places + [InHand(t)], log := sh.log + [Started(n, |sh.urls|)])
    case Insert(n, i) => sh.(instances := sh.instances[n := i], places := sh.places[i := Cached(n)])
    case Remove(n, i, c) =>
      sh.(instances := sh.instances - {n}, places := sh.places[i := TakenOut(t)], log := sh.log + [Removed(n, i, c)])
    case StopCalled(i) => sh.(stops := sh.stops + multiset{i}, places := sh.places[i := Stopped])
  }

  // ---------------------------------------------------------------------------------------------
  // The program of one thread
  // ---------------------------------------------------------------------------------------------

  /** Whether a POST that ended so may have been executed, `n` times (0 or 1). */
  predicate MayReach(o: Outcome, n: nat) {
    match o
    case BuildFailed => n == 0
    case DoFailed(ctxErr) => n == 0 || (ctxErr && n == 1)
    case BodyFailed => n == 1
    case Answered(_) => n == 1
  }

  /** isTransportFailure: marked with transportError, and neither the error nor the context says
      that time ran out. */
  predicate TransportFailure(o: Outcome, expired: bool) {
    o.DoFailed? && !o.ctxErr && !expired
  }

  function Finish(th: Thread, ok: bool): Thread
    requires th.frame.Invoke?
  {
    th.(pc := Idle, frame := th.frame.(phase := Finished(ok)))
  }

  function Call(th: Thread, op: Op, phase: Phase, now: nat): Thread
    requires th.frame.Invoke?
  {
    th.(op := op, pc := Check, found := None, began := now, frame := th.frame.(phase := phase))
  }

  /** `invoke` and `attempt`: what follows when the inner call has returned. */
  function Advance(sh: Shared, th: Thread): Thread
    requires th.frame.Invoke?
  {
    var f := th.frame;
    match f.phase
    case InEnsure =>
      if th.ok && th.found.Some? then
        var th := th.(frame := f.(used := th.found.value));
        Call(th, WithLock, InPost, sh.clock)
      else Finish(th, false)
    case InPost =>
      if f.attempt == 1 && TransportFailure(f.last, f.expired) && f.used < |sh.urls| then
        Call(th.(url := sh.urls[f.used], frame := f.(late := f.expired)), Discard, InRetryDiscard, sh.clock)
      else if !f.last.Answered? then Finish(th, false)
      else if f.last.exit && f.used < |sh.urls| then
        Call(th.(url := sh.urls[f.used], frame := f.(late := f.expired)), Discard, InExitDiscard, sh.clock)
      else Finish(th, true)
    case InRetryDiscard => Call(th.(frame := f.(attempt := 2)), Ensure, InEnsure, sh.clock)
    case InExitDiscard => Finish(th, true)
    case Finished(ok) => Finish(th, ok)
  }

  predicate Begins(sh: Shared, th': Thread) {
    && th'.pc == Check && th'.found == None && th'.hand == None && th'.taken == [] && th'.began == sh.clock
    && (th'.frame.Invoke? ==>
          th'.op == Ensure && th'.frame.phase == InEnsure && th'.frame.attempt == 1
          && th'.frame.last == BuildFailed && th'.frame.posts == 0 && th'.frame.reached == 0)
  }

  function SetMu(th: Thread, table: Table, id: MutexId): Thread {
    match table case Starts => th.(startMu := id) case Invokes => th.(invokeMu := id)
  }

  function CauseOf(th: Thread): Cause {
    if th.op == Restart then ByRestart
    else if th.frame.Invoke? then ByInvoke(th.frame.used, th.frame.last, th.frame.late)
    else ByDiscard
  }

  /** Discard's identity test; Restart takes whatever is there. */
  predicate TakesIt(sh: Shared, th: Thread) {
    th.name in sh.instances &&
    var i := sh.instances[th.name];
    i < |sh.urls| && (th.op == Restart || sh.urls[i] == th.url)
  }

  predicate NamedStep(sh: Shared, th: Thread, e: Effect, th': Thread)
    requires th.pc.AtNamed?
  {
    var tb := th.pc.table;
    match th.pc.named
    case AwaitMap => e == Acquire(MapMu) && th' == th.(pc := AtNamed(Lookup, tb))
    case Lookup =>
      e == Local &&
      th' == if th.name in TableOf(sh, tb)
             then SetMu(th, tb, TableOf(sh, tb)[th.name]).(pc := AtNamed(LeaveMap, tb))
             else th.(pc := AtNamed(AddMutex, tb))
    case AddMutex => e == NewMutex(tb, th.name) && th' == SetMu(th, tb, |sh.mutexes|).(pc := AtNamed(LeaveMap, tb))
    case LeaveMap => e == Release(MapMu) && th' == th.(pc := if tb == Starts then AwaitStart else AwaitInvoke)
  }

  predicate EnsureStep(sh: Shared, th: Thread, e: Effect, th': Thread)
    requires th.pc.AtEnsure?
  {
    match th.pc.ensure
    case AwaitInst => e == Acquire(InstMu) && th' == th.(pc := AtEnsure(Read))
    case Read =>
      e == Local &&
      th' == th.(pc := AtEnsure(LeaveInst),
                 found := if th.name in sh.instances then Some(sh.instances[th.name]) else None)
    case LeaveInst =>
      e == Release(InstMu) && th' == th.(pc := AtEnsure(if th.found.Some? then HitLeave else Resolve))
    case HitLeave => e == Release(Named(th.startMu)) && th' == th.(pc := Returned, ok := true)
    case Resolve =>
      e == Local &&
      (|| th' == th.(pc := AtEnsure(AwaitResolver)) || th' == th.(pc := AtEnsure(Starting))
       || th' == th.(pc := AtEnsure(FailLeave)))
    case AwaitResolver => e == Acquire(ResolverMu) && th' == th.(pc := AtEnsure(InResolver))
    case InResolver => e == Release(ResolverMu) && th' == th.(pc := AtEnsure(Resolve))
    case Starting =>
      || (e.StartReturned? && e.name == th.name
          && th' == th.(pc := AtEnsure(InsertAwaitInst), found := Some(|sh.urls|), hand := Some(|sh.urls|)))
      || (e == Local && th' == th.(pc := AtEnsure(FailLeave)))
    case FailLeave => e == Release(Named(th.startMu)) && th' == th.(pc := Returned, ok := false)
    case InsertAwaitInst => e == Acquire(InstMu) && th' == th.(pc := AtEnsure(InsertInst))
    case InsertInst =>
      th.hand.Some? && e == Insert(th.name, th.hand.value) && th' == th.(pc := AtEnsure(InsertLeaveInst), hand := None)
    case InsertLeaveInst => e == Release(InstMu) && th' == th.(pc := AtEnsure(InsertLeave))
    case InsertLeave => e == Release(Named(th.startMu)) && th' == th.(pc := Returned, ok := true)
  }

  /** The function WithLock runs is one POST when the call belongs to an invoke, and anything otherwise. */
  predicate BodyStep(th: Thread, e: Effect, th': Thread)
    requires th.pc.AtBody?
  {
    match th.pc.body
    case Enter =>
      e == Local &&
      if th.frame.Direct? then th' == th.(pc := AtBody(Posting))
      else
        || th' == th.(pc := AtBody(LeaveBody), frame := th.frame.(last := BuildFailed))
        || th' == th.(pc := AtBody(Posting), frame := th.frame.(posts := th.frame.posts + 1))
    case Posting =>
      e == Local &&
      if th.frame.Direct? then th' == th.(pc := AtBody(LeaveBody))
      else
        && th'.frame.Invoke? && th'.frame.reached >= th.frame.reached && th'.frame.last != BuildFailed
        && MayReach(th'.frame.last, th'.frame.reached - th.frame.reached)
        && th' == th.(pc := AtBody(LeaveBody), frame := th.frame.(last := th'.frame.last, reached := th'.frame.reached))
    case LeaveBody => e == Release(Named(th.invokeMu)) && th' == th.(pc := Returned, ok := true)
  }

  /** Restart and Discard once they hold their mutexes. */
  predicate TakeStep(sh: Shared, th: Thread, e: Effect, th': Thread)
    requires th.pc.AtTake?
  {
    var leave := AtTake(if th.op == Restart then LeaveInvoke else LeaveStart);
    match th.pc.take
    case TakeAwaitInst => e == Acquire(InstMu) && th' == th.(pc := AtTake(Take))
    case Take =>
      if TakesIt(sh, th) then
        e == Remove(th.name, sh.instances[th.name], CauseOf(th))
        && th' == th.(pc := AtTake(TakeLeaveInst), taken := [sh.instances[th.name]])
      else e == Local && th' == th.(pc := AtTake(TakeLeaveInst))
    case TakeLeaveInst =>
      e == Release(InstMu) && th' == if th.taken != [] then th.(pc := AtTake(CallStop)) else th.(pc := leave, ok := true)
    case CallStop =>
      th.taken != [] && e == StopCalled(th.taken[0]) && th' == th.(pc := AtTake(Stopping), taken := th.taken[1..])
    case Stopping => e == Local && th' == th.(pc := leave, ok := th'.ok)
    case LeaveInvoke => e == Release(Named(th.invokeMu)) && th' == th.(pc := AtTake(LeaveStart))
    case LeaveStart => e == Release(Named(th.startMu)) && th' == th.(pc := Returned)
  }

  predicate StopAllStep(sh: Shared, th: Thread, e: Effect, th': Thread)
    requires th.pc.AtStopAll?
  {
    match th.pc.all
    case AllAwaitInst => e == Acquire(InstMu) && th' == th.(pc := AtStopAll(AllTake))
    case AllTake =>
      if sh.instances != map[] then
        e.Remove? && e.name in sh.instances && e == Remove(e.name, sh.instances[e.name], ByStopAll)
        && th' == th.(taken := th.taken + [e.inst])
      else e == Local && th' == th.(pc := AtStopAll(AllLeaveInst))
    case AllLeaveInst => e == Release(InstMu) && th' == th.(pc := AtStopAll(AllCallStop))
    case AllCallStop =>
      if th.taken == [] then e == Local && th' == th.(pc := Returned, ok := th'.ok)
      else e == StopCalled(th.taken[0]) && th' == th.(pc := AtStopAll(AllStopping), taken := th.taken[1..])
    case AllStopping => e == Local && th' == th.(pc := AtStopAll(AllCallStop))
  }

  /** Where a call begins and returns, and where it waits for its name's mutexes. */
  predicate CallStep(sh: Shared, th: Thread, e: Effect, th': Thread)
    requires th.pc.Idle? || th.pc.Check? || th.pc.AwaitStart? || th.pc.AwaitInvoke? || th.pc.Returned?
  {
    match th.pc
    case Idle => e == Local && Begins(sh, th')
    case Check =>
      e == Local &&
      (match th.op
       case StopAll => th' == th.(pc := AtStopAll(AllAwaitInst))
       case WithLock => th' == th.(pc := AtNamed(AwaitMap, Invokes))
       case _ =>
         th' == if th.name in sh.known then th.(pc := AtNamed(AwaitMap, Starts)) else th.(pc := Returned, ok := false))
    case AwaitStart =>
      e == Acquire(Named(th.startMu)) &&
      th' == th.(pc := match th.op
                       case Ensure => AtEnsure(AwaitInst)
                       case Restart => AtNamed(AwaitMap, Invokes)
                       case _ => AtTake(TakeAwaitInst))
    case AwaitInvoke =>
      e == Acquire(Named(th.invokeMu))
          && th' == th.(pc := if th.op == Restart then AtTake(TakeAwaitInst) else AtBody(Enter))
    case Returned => e == Local && th' == if th.frame.Direct? then th.(pc := Idle) else Advance(sh, th)
  }

  predicate ProgStep(sh: Shared, th: Thread, e: Effect, th': Thread) {
    match th.pc
    case AtNamed(_, _) => NamedStep(sh, th, e, th')
    case AtEnsure(_) => EnsureStep(sh, th, e, th')
    case AtBody(_) => BodyStep(th, e, th')
    case AtTake(_) => TakeStep(sh, th, e, th')
    case AtStopAll(_) => StopAllStep(sh, th, e, th')
    case _ => CallStep(sh, th, e, th')
  }

  /** An invoke's deadline or its client's cancellation arrives at any time. */
  predicate Expires(th: Thread, e: Effect, th': Thread) {
    th.frame.Invoke? && e == Local && th' == th.(frame := th.frame.(expired := true))
  }

  predicate Next(s: State, t: Tid, e: Effect, s': State) {
    && t in s.threads && t in s'.threads
    && EffectOk(s.sh, e)
    && (ProgStep(s.sh, s.threads[t], e, s'.threads[t]) || Expires(s.threads[t], e, s'.threads[t]))
    && s' == State(Apply(s.sh, t, e), s.threads[t := s'.threads[t]])
  }

  predicate Init(s: State) {
    && s.sh.starts == map[] && s.sh.invokes == map[] && s.sh.mutexes == [] && s.sh.owner == map[]
    && s.sh.instances == map[] && s.sh.urls == [] && s.sh.places == [] && s.sh.stops == multiset{}
    && s.sh.log == [] && s.sh.clock == 0
    && forall t :: t in s.threads ==>
         s.threads[t].pc == Idle && s.threads[t].found == None && s.threads[t].hand == None
             && s.threads[t].taken == [] && s.threads[t].frame == Direct
  }
}
