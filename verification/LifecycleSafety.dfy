/** What every step of the lifecycle protocol keeps, in every interleaving. */
module LifecycleSafety {
  import opened Options
  import opened Lifecycle

  // ---------------------------------------------------------------------------------------------
  // One thread: what it holds, what it has looked up, what it carries
  // ---------------------------------------------------------------------------------------------

  /** Restart is looking up or waiting for its second mutex. */
  predicate BetweenMutexes(th: Thread) {
    th.op == Restart && (th.pc.AwaitInvoke? || (th.pc.AtNamed? && th.pc.table == Invokes))
  }

  predicate HoldsStart(th: Thread) { th.pc.AtEnsure? || th.pc.AtTake? || BetweenMutexes(th) }

  predicate HoldsInvoke(th: Thread) { th.pc.AtBody? || (th.op == Restart && th.pc.AtTake? && th.pc.take != LeaveStart) }

  predicate HoldsInstMu(pc: Pc) {
    match pc
    case AtEnsure(p) => p == Read || p == LeaveInst || p == InsertInst || p == InsertLeaveInst
    case AtTake(p) => p == Take || p == TakeLeaveInst
    case AtStopAll(p) => p == AllTake || p == AllLeaveInst
    case _ => false
  }

  /** The thread holds this lock. */
  predicate Held(th: Thread, l: Lock) {
    match l
    case MapMu => th.pc.AtNamed? && th.pc.named != AwaitMap
    case InstMu => HoldsInstMu(th.pc)
    case ResolverMu => th.pc == AtEnsure(InResolver)
    case Named(id) => (HoldsStart(th) && id == th.startMu) || (HoldsInvoke(th) && id == th.invokeMu)
  }

  predicate HasStart(th: Thread) { HoldsStart(th) || th.pc.AwaitStart? || th.pc == AtNamed(LeaveMap, Starts) }

  predicate HasInvoke(th: Thread) { HoldsInvoke(th) || th.pc.AwaitInvoke? || th.pc == AtNamed(LeaveMap, Invokes) }

  /** Ensure has found no instance and has not inserted one yet. */
  predicate SawNone(th: Thread) {
    th.pc.AtEnsure? &&
    match th.pc.ensure
    case LeaveInst => th.found == None
    case Resolve => true
    case AwaitResolver => true
    case InResolver => true
    case Starting => true
    case InsertAwaitInst => true
    case InsertInst => true
    case _ => false
  }

  predicate Inserting(pc: Pc) { pc == AtEnsure(InsertAwaitInst) || pc == AtEnsure(InsertInst) }

  /** The operation is one that has this program counter. */
  predicate OpShape(th: Thread) {
    match th.pc
    case AtNamed(_, tb) => if tb == Starts then th.op !in {WithLock, StopAll} else th.op in {Restart, WithLock}
    case AwaitStart => th.op !in {WithLock, StopAll}
    case AwaitInvoke => th.op in {Restart, WithLock}
    case AtEnsure(_) => th.op == Ensure
    case AtBody(_) => th.op == WithLock
    case AtTake(p) => th.op in {Restart, Discard} && (p == LeaveInvoke ==> th.op == Restart)
    case AtStopAll(_) => th.op == StopAll
    case _ => true
  }

  /** Instances are carried only where they can be. */
  predicate Carries(th: Thread) {
    && (th.hand.Some? <==> Inserting(th.pc))
    && (th.hand.Some? ==> th.found == th.hand)
    && (match th.pc
        case AtTake(p) =>
          if p == TakeLeaveInst then |th.taken| <= 1 else if p == CallStop then |th.taken| == 1 else th.taken == []
        case AtStopAll(_) => true
        case _ => th.taken == [])
    && (th.pc.AtEnsure? && th.pc.ensure in {HitLeave, InsertLeaveInst, InsertLeave} ==> th.found.Some?)
    && (th.pc.Returned? && th.op == Ensure && th.ok ==> th.found.Some?)
  }

  predicate Shape(th: Thread) { OpShape(th) && Carries(th) }

  /** How far one invoke has got: the POSTs it has sent, and that only the last can have reached a runtime. */
  predicate Progress(th: Thread)
    requires th.frame.Invoke?
  {
    var f := th.frame;
    match f.phase
    case InEnsure =>
      th.op == Ensure && f.posts == f.attempt - 1 && f.reached == 0
      && if f.attempt == 2 then f.last == DoFailed(false) && !f.late else f.last == BuildFailed
    case InPost =>
      th.op == WithLock &&
      if th.pc == AtBody(LeaveBody) || th.pc.Returned? then
        if f.last == BuildFailed then f.posts == f.attempt - 1 && f.reached == 0
        else f.posts == f.attempt && MayReach(f.last, f.reached)
      else
        f.reached == 0 && (f.attempt == 2 ==> f.last == DoFailed(false) && !f.late)
        && f.posts == if th.pc == AtBody(Posting) then f.attempt else f.attempt - 1
    case InRetryDiscard =>
      th.op == Discard && f.attempt == 1 && f.posts == 1 && f.reached == 0 && f.last == DoFailed(false) && !f.late
    case InExitDiscard => th.op == Discard && f.posts == f.attempt && f.reached == 1 && f.last == Answered(true)
    case Finished(ok) =>
      f.posts <= f.attempt && f.reached <= f.posts && f.reached <= 1 && (ok ==> f.reached == 1)
      && (ok <==> f.last.Answered?) && (f.attempt == 1 && f.last == DoFailed(false) ==> f.expired)
  }

  /** A Discard on behalf of an invoke names the URL of the instance that invoke used. */
  predicate Targets(urls: seq<Url>, th: Thread)
    requires th.frame.Invoke?
  {
    match th.frame.phase
    case InEnsure => true
    case Finished(_) => true
    case InPost => th.frame.used < |urls|
    case _ => th.frame.used < |urls| && th.url == urls[th.frame.used]
  }

  predicate InvokeOk(urls: seq<Url>, th: Thread) {
    && (th.found.Some? ==> th.found.value < |urls|)
    && (th.frame.Invoke? ==>
          && (th.frame.attempt == 1 || th.frame.attempt == 2)
          && (th.pc.Idle? <==> th.frame.phase.Finished?)
          && Progress(th) && Targets(urls, th))
  }

  // ---------------------------------------------------------------------------------------------
  // The whole system
  // ---------------------------------------------------------------------------------------------

  predicate Owns(sh: Shared, t: Tid, l: Lock) { l in sh.owner && sh.owner[l] == t }

  predicate Holds(s: State, t: Tid, l: Lock) { t in s.threads && Held(s.threads[t], l) }

  ghost predicate Exclusion(s: State) { forall t: Tid, l: Lock :: Owns(s.sh, t, l) <==> Holds(s, t, l) }

  /** Every entry of the two tables is a mutex made for that table and that name. */
  predicate Tables(sh: Shared) {
    && (forall n :: n in sh.starts ==> sh.starts[n] < |sh.mutexes| && sh.mutexes[sh.starts[n]] == (Starts, n))
    && (forall n :: n in sh.invokes ==> sh.invokes[n] < |sh.mutexes| && sh.mutexes[sh.invokes[n]] == (Invokes, n))
  }

  predicate LookedUp(sh: Shared, th: Thread) {
    && (HasStart(th) ==> th.name in sh.starts && sh.starts[th.name] == th.startMu)
    && (HasInvoke(th) ==> th.name in sh.invokes && sh.invokes[th.name] == th.invokeMu)
    && (th.pc.AtNamed? && th.pc.named == AddMutex ==> th.name !in TableOf(sh, th.pc.table))
  }

  predicate Names(s: State) { Tables(s.sh) && forall t :: t in s.threads ==> LookedUp(s.sh, s.threads[t]) }

  predicate Absent(s: State) {
    forall t :: t in s.threads && SawNone(s.threads[t]) ==> s.threads[t].name !in s.sh.instances
  }

  predicate Locals(s: State) { forall t :: t in s.threads ==> Shape(s.threads[t]) && InvokeOk(s.sh.urls, s.threads[t]) }

  ghost predicate HandTrue(s: State, i: Inst)
    requires i < |s.sh.places|
  {
    forall t: Tid :: s.sh.places[i] == InHand(t) <==> t in s.threads && s.threads[t].hand == Some(i)
  }

  ghost predicate TakenTrue(s: State, i: Inst)
    requires i < |s.sh.places|
  {
    forall t: Tid :: s.sh.places[i] == TakenOut(t) <==> t in s.threads && i in s.threads[t].taken
  }

  ghost predicate CachedTrue(sh: Shared, i: Inst)
    requires i < |sh.places|
  {
    forall n: Name :: sh.places[i] == Cached(n) <==> n in sh.instances && sh.instances[n] == i
  }

  predicate StopsTrue(sh: Shared, i: Inst)
    requires i < |sh.places|
  {
    sh.stops[i] == if sh.places[i] == Stopped then 1 else 0
  }

  /** The history of places is the truth about instance i. */
  ghost predicate PlaceTrue(s: State, i: Inst)
    requires i < |s.sh.places|
  {
    HandTrue(s, i) && TakenTrue(s, i) && CachedTrue(s.sh, i) && StopsTrue(s.sh, i)
  }

  predicate NoRepeats(q: seq<Inst>) { forall i, j :: 0 <= i < j < |q| ==> q[i] != q[j] }

  ghost predicate Places(s: State) {
    && |s.sh.places| == |s.sh.urls|
    && (forall n :: n in s.sh.instances ==> s.sh.instances[n] < |s.sh.places|)
    && (forall t, i :: t in s.threads && i in s.threads[t].taken ==> i < |s.sh.places|)
    && (forall t :: t in s.threads ==> NoRepeats(s.threads[t].taken))
    && (forall t :: t in s.threads && s.threads[t].hand.Some? ==> s.threads[t].hand.value < |s.sh.places|)
    && (forall i: Inst :: i < |s.sh.places| ==> PlaceTrue(s, i))
    && (forall i: Inst :: i >= |s.sh.places| ==> s.sh.stops[i] == 0)
  }

  /** What the log says about one name: nothing is out there, or one instance is; Bad if two Starts have no
      removal of the first between them, or something else was removed than what was started. */
  datatype Turn = Clear | Live(inst: Inst) | Bad

  function TurnOf(log: seq<Event>, n: Name): Turn {
    if log == [] then Clear else
      var before := TurnOf(log[..|log| - 1], n);
      match log[|log| - 1]
      case Started(m, i) => if m != n then before else if before == Clear then Live(i) else Bad
      case Removed(m, i, _) => if m != n then before else if before == Live(i) then Clear else Bad
  }

  predicate TurnTrue(s: State, n: Name) {
    match TurnOf(s.sh.log, n)
    case Bad => false
    case Live(i) =>
      && i < |s.sh.places|
      && (s.sh.places[i] == Cached(n)
          || (s.sh.places[i].InHand? && s.sh.places[i].t in s.threads && s.threads[s.sh.places[i].t].name == n))
    case Clear => n !in s.sh.instances && forall t :: t in s.threads && s.threads[t].hand.Some? ==> s.threads[t].name != n
  }

  ghost predicate LogTrue(s: State) { forall n :: TurnTrue(s, n) }

  /** The outcomes that tell a dead instance from a slow one: of a failed request only with time left. */
  predicate Dead(o: Outcome, late: bool) { (o == DoFailed(false) && !late) || o == Answered(true) }

  predicate CausesTrue(log: seq<Event>) {
    forall k :: 0 <= k < |log| && log[k].Removed? && log[k].cause.ByInvoke? ==>
      log[k].inst == log[k].cause.used && Dead(log[k].cause.why, log[k].cause.late)
  }

  predicate DistinctUrls(sh: Shared) { forall i, j :: 0 <= i < j < |sh.urls| ==> sh.urls[i] != sh.urls[j] }

  // ---------------------------------------------------------------------------------------------
  // One step of one thread
  // ---------------------------------------------------------------------------------------------

  predicate ThreadStep(sh: Shared, th: Thread, e: Effect, th': Thread) {
    ProgStep(sh, th, e, th') || Expires(th, e, th')
  }

  /** The locks a thread holds change exactly by the step's effect. */
  predicate HeldByEffect(th: Thread, e: Effect, th': Thread, l: Lock) {
    && (e == Release(l) ==> Held(th, l))
    && Held(th', l) == if e == Acquire(l) then true else if e == Release(l) then false else Held(th, l)
  }

  /** The instances a thread carries change exactly by the step's effect, and what the effect names is the
      thread's own. */
  predicate CarriedByEffect(sh: Shared, th: Thread, e: Effect, th': Thread) {
    match e
    case StartReturned(n, _) =>
      n == th.name && SawNone(th) && th.hand == None && th'.hand == Some(|sh.urls|) && th'.taken == th.taken
    case Insert(n, i) =>
      n == th.name && SawNone(th) && th.hand == Some(i) && th'.hand == None && th'.taken == th.taken
    case Remove(n, i, _) =>
      n in sh.instances && sh.instances[n] == i && th'.hand == th.hand && th'.taken == th.taken + [i]
    case StopCalled(i) => th.taken != [] && i == th.taken[0] && th'.hand == th.hand && th'.taken == th.taken[1..]
    case NewMutex(tb, n) => n == th.name && th.pc == AtNamed(AddMutex, tb) && th'.hand == th.hand && th'.taken == th.taken
    case _ => th'.hand == th.hand && th'.taken == th.taken
  }

  /** A thread that has seen no instance saw it just now, or before, under the same name. */
  predicate SawNoneBefore(sh: Shared, th: Thread, e: Effect, th': Thread) {
    SawNone(th') ==>
      && !e.Insert?
      && th'.name == th.name && HoldsStart(th)
      && (SawNone(th) || (th.pc == AtEnsure(Read) && th.name !in sh.instances))
  }

  /** A mutex a thread uses was looked up under its own name, now or before. */
  predicate LookUpByEffect(sh: Shared, th: Thread, e: Effect, th': Thread) {
    && (HasStart(th') ==>
          th'.name == th.name &&
          if HasStart(th) then th'.startMu == th.startMu
          else if e.NewMutex? then e.table == Starts && th'.startMu == |sh.mutexes|
          else th.name in sh.starts && th'.startMu == sh.starts[th.name])
    && (HasInvoke(th') ==>
          th'.name == th.name &&
          if HasInvoke(th) then th'.invokeMu == th.invokeMu
          else if e.NewMutex? then e.table == Invokes && th'.invokeMu == |sh.mutexes|
          else th.name in sh.invokes && th'.invokeMu == sh.invokes[th.name])
    && (th'.pc.AtNamed? && th'.pc.named == AddMutex ==>
          th'.name == th.name &&
          (th.name !in TableOf(sh, th'.pc.table) || th.pc == th'.pc) && (e.NewMutex? ==> false))
  }

  ghost predicate StepFacts(sh: Shared, th: Thread, e: Effect, th': Thread) {
    && Shape(th') && (forall l :: HeldByEffect(th, e, th', l)) && CarriedByEffect(sh, th, e, th')
        && SawNoneBefore(sh, th, e, th')
    && LookUpByEffect(sh, th, e, th') && (Inserting(th'.pc) ==> th'.name == th.name)
  }

  predicate Distinct(th: Thread) { HasStart(th) && HasInvoke(th) ==> th.startMu != th.invokeMu }

  lemma NamedFacts(sh: Shared, th: Thread, e: Effect, th': Thread)
    requires th.pc.AtNamed? && NamedStep(sh, th, e, th') && Shape(th) && Distinct(th)
    ensures StepFacts(sh, th, e, th')
  {
  }

  lemma EnsureLocks(sh: Shared, th: Thread, e: Effect, th': Thread, l: Lock)
    requires th.pc.AtEnsure? && EnsureStep(sh, th, e, th') && Shape(th) && Distinct(th)
    ensures HeldByEffect(th, e, th', l)
  {
  }

  lemma EnsureLookUps(sh: Shared, th: Thread, e: Effect, th': Thread)
    requires th.pc.AtEnsure? && EnsureStep(sh, th, e, th') && Shape(th)
    ensures LookUpByEffect(sh, th, e, th')
  {
  }

  lemma EnsureCarries(sh: Shared, th: Thread, e: Effect, th': Thread)
    requires th.pc.AtEnsure? && EnsureStep(sh, th, e, th') && Shape(th)
    ensures Shape(th') && CarriedByEffect(sh, th, e, th') && SawNoneBefore(sh, th, e, th')
    ensures Inserting(th'.pc) ==> th'.name == th.name
  {
  }

  lemma BodyFacts(sh: Shared, th: Thread, e: Effect, th': Thread)
    requires th.pc.AtBody? && BodyStep(th, e, th') && Shape(th) && Distinct(th)
    ensures StepFacts(sh, th, e, th')
  {
  }

  lemma TakeLocks(sh: Shared, th: Thread, e: Effect, th': Thread, l: Lock)
    requires th.pc.AtTake? && TakeStep(sh, th, e, th') && Shape(th) && Distinct(th)
    ensures HeldByEffect(th, e, th', l)
  {
  }

  lemma TakeLookUps(sh: Shared, th: Thread, e: Effect, th': Thread)
    requires th.pc.AtTake? && TakeStep(sh, th, e, th') && Shape(th)
    ensures LookUpByEffect(sh, th, e, th')
  {
  }

  lemma TakeCarries(sh: Shared, th: Thread, e: Effect, th': Thread)
    requires th.pc.AtTake? && TakeStep(sh, th, e, th') && Shape(th)
    ensures Shape(th') && CarriedByEffect(sh, th, e, th') && SawNoneBefore(sh, th, e, th')
    ensures Inserting(th'.pc) ==> th'.name == th.name
  {
  }

  lemma StopAllFacts(sh: Shared, th: Thread, e: Effect, th': Thread)
    requires th.pc.AtStopAll? && StopAllStep(sh, th, e, th') && Shape(th) && Distinct(th)
    ensures StepFacts(sh, th, e, th')
  {
  }

  lemma CallFacts(sh: Shared, th: Thread, e: Effect, th': Thread)
    requires th.pc.Idle? || th.pc.Check? || th.pc.AwaitStart? || th.pc.AwaitInvoke? || th.pc.Returned?
    requires CallStep(sh, th, e, th') && Shape(th) && Distinct(th)
    ensures StepFacts(sh, th, e, th')
  {
    if th.pc.AwaitStart? || th.pc.AwaitInvoke? { WaitFacts(sh, th, e, th'); } else { BeginFacts(sh, th, e, th'); }
  }

  lemma BeginFacts(sh: Shared, th: Thread, e: Effect, th': Thread)
    requires th.pc.Idle? || th.pc.Check? || th.pc.Returned?
    requires CallStep(sh, th, e, th') && Shape(th)
    ensures StepFacts(sh, th, e, th')
  {
  }

  lemma WaitFacts(sh: Shared, th: Thread, e: Effect, th': Thread)
    requires th.pc.AwaitStart? || th.pc.AwaitInvoke?
    requires CallStep(sh, th, e, th') && Shape(th) && Distinct(th)
    ensures StepFacts(sh, th, e, th')
  {
  }

  lemma ThreadStepFacts(sh: Shared, th: Thread, e: Effect, th': Thread)
    requires ThreadStep(sh, th, e, th') && Shape(th) && Distinct(th)
    ensures StepFacts(sh, th, e, th')
  {
    if Expires(th, e, th') {
    } else {
      match th.pc
      case AtNamed(_, _) => NamedFacts(sh, th, e, th');
      case AtEnsure(_) =>
        EnsureCarries(sh, th, e, th');
        EnsureLookUps(sh, th, e, th');
        forall l ensures HeldByEffect(th, e, th', l) { EnsureLocks(sh, th, e, th', l); }
      case AtBody(_) => BodyFacts(sh, th, e, th');
      case AtTake(_) =>
        TakeCarries(sh, th, e, th');
        TakeLookUps(sh, th, e, th');
        forall l ensures HeldByEffect(th, e, th', l) { TakeLocks(sh, th, e, th', l); }
      case AtStopAll(_) => StopAllFacts(sh, th, e, th');
      case _ => CallFacts(sh, th, e, th');
    }
  }

  // ---------------------------------------------------------------------------------------------
  // The inductive invariant
  // ---------------------------------------------------------------------------------------------

  ghost predicate Inv(s: State) {
    && Locals(s) && Exclusion(s) && Names(s) && Absent(s) && Places(s) && DistinctUrls(s.sh)
    && LogTrue(s) && CausesTrue(s.sh.log)
  }

  /** A step, seen from the whole system: one thread's facts, one effect, and everybody else as before. */
  ghost predicate Stepped(s: State, t: Tid, e: Effect, s': State) {
    && t in s.threads && t in s'.threads && EffectOk(s.sh, e)
    && StepFacts(s.sh, s.threads[t], e, s'.threads[t])
    && s' == State(Apply(s.sh, t, e), s.threads[t := s'.threads[t]])
  }

  lemma StepIsStepped(s: State, t: Tid, e: Effect, s': State)
    requires Locals(s) && Names(s) && Next(s, t, e, s')
    ensures Stepped(s, t, e, s')
  {
    var th := s.threads[t];
    assert LookedUp(s.sh, th);
    ThreadStepFacts(s.sh, th, e, s'.threads[t]);
  }

  /** Two threads that hold the same lock are one. */
  lemma OneHolder(s: State, t: Tid, u: Tid, l: Lock)
    requires Exclusion(s) && Holds(s, t, l) && Holds(s, u, l)
    ensures t == u
  {
    assert Owns(s.sh, t, l) && Owns(s.sh, u, l);
  }

  lemma OneStarter(s: State, t: Tid, u: Tid)
    requires Exclusion(s) && Names(s)
    requires t in s.threads && u in s.threads && s.threads[t].name == s.threads[u].name
    requires HoldsStart(s.threads[t]) && HoldsStart(s.threads[u])
    ensures t == u
  {
    assert LookedUp(s.sh, s.threads[t]) && LookedUp(s.sh, s.threads[u]);
    OneHolder(s, t, u, Named(s.threads[t].startMu));
  }

  lemma ExclusionKept(s: State, t: Tid, e: Effect, s': State)
    requires Exclusion(s) && Stepped(s, t, e, s')
    ensures Exclusion(s')
  {
    forall u: Tid, l: Lock ensures Owns(s'.sh, u, l) <==> Holds(s', u, l) {
      assert Owns(s.sh, u, l) <==> Holds(s, u, l);
      assert Owns(s.sh, t, l) <==> Holds(s, t, l);
      assert HeldByEffect(s.threads[t], e, s'.threads[t], l);
    }
  }

  lemma AbsentKept(s: State, t: Tid, e: Effect, s': State)
    requires Absent(s) && Exclusion(s) && Names(s) && Locals(s) && Stepped(s, t, e, s')
    ensures Absent(s')
  {
    forall u | u in s'.threads && SawNone(s'.threads[u]) ensures s'.threads[u].name !in s'.sh.instances {
      if u == t {
        assert SawNoneBefore(s.sh, s.threads[t], e, s'.threads[t]);
      } else if e.Insert? && s.threads[u].name == e.name {
        OneStarter(s, t, u);
      }
    }
  }

  lemma TablesKept(sh: Shared, t: Tid, e: Effect)
    requires Tables(sh) && EffectOk(sh, e) && (e.NewMutex? ==> e.name !in TableOf(sh, e.table))
    ensures Tables(Apply(sh, t, e))
  {
  }

  lemma LookedUpHere(sh: Shared, t: Tid, th: Thread, e: Effect, th': Thread)
    requires LookedUp(sh, th) && EffectOk(sh, e) && LookUpByEffect(sh, th, e, th')
    requires e.NewMutex? ==> e.name == th.name && th.pc == AtNamed(AddMutex, e.table)
    ensures LookedUp(Apply(sh, t, e), th')
  {
  }

  lemma NamesKept(s: State, t: Tid, e: Effect, s': State)
    requires Exclusion(s) && Names(s) && Stepped(s, t, e, s')
    ensures Names(s')
  {
    assert LookedUp(s.sh, s.threads[t]) && CarriedByEffect(s.sh, s.threads[t], e, s'.threads[t]);
    LookedUpHere(s.sh, t, s.threads[t], e, s'.threads[t]);
    TablesKept(s.sh, t, e);
    forall u | u in s'.threads && u != t ensures LookedUp(s'.sh, s.threads[u]) {
      assert LookedUp(s.sh, s.threads[u]);
      if e.NewMutex? && s.threads[u].pc == AtNamed(AddMutex, e.table) { OneHolder(s, t, u, MapMu); }
      LookedUpThere(s.sh, t, s.threads[u], e);
    }
  }

  lemma LookedUpThere(sh: Shared, t: Tid, th: Thread, e: Effect)
    requires LookedUp(sh, th) && EffectOk(sh, e)
    requires e.NewMutex? ==> e.name !in TableOf(sh, e.table) && th.pc != AtNamed(AddMutex, e.table)
    ensures LookedUp(Apply(sh, t, e), th)
  {
  }

  /** What the lemmas about places need of a step. */
  ghost predicate Moved(s: State, t: Tid, e: Effect, s': State) {
    && t in s.threads && t in s'.threads && EffectOk(s.sh, e)
    && CarriedByEffect(s.sh, s.threads[t], e, s'.threads[t])
    && (e.Insert? ==> e.name !in s.sh.instances)
    && s' == State(Apply(s.sh, t, e), s.threads[t := s'.threads[t]])
  }

  lemma HandKept(s: State, t: Tid, e: Effect, s': State, i: Inst)
    requires Places(s) && Moved(s, t, e, s') && i < |s.sh.places|
    ensures HandTrue(s', i)
  {
    assert PlaceTrue(s, i);
  }

  lemma TakenKept(s: State, t: Tid, e: Effect, s': State, i: Inst)
    requires Places(s) && Moved(s, t, e, s') && i < |s.sh.places|
    ensures TakenTrue(s', i)
  {
    assert PlaceTrue(s, i);
  }

  lemma CachedKept(s: State, t: Tid, e: Effect, s': State, i: Inst)
    requires Places(s) && Moved(s, t, e, s') && i < |s.sh.places|
    ensures CachedTrue(s'.sh, i)
  {
    assert PlaceTrue(s, i);
  }

  lemma StopsKept(s: State, t: Tid, e: Effect, s': State, i: Inst)
    requires Places(s) && Moved(s, t, e, s') && i < |s.sh.places|
    ensures StopsTrue(s'.sh, i)
  {
    assert PlaceTrue(s, i);
  }

  lemma PlacesKept(s: State, t: Tid, e: Effect, s': State)
    requires Places(s) && Moved(s, t, e, s')
    ensures Places(s')
  {
    forall i: Inst | i < |s'.sh.places| ensures PlaceTrue(s', i) {
      if i < |s.sh.places| {
        HandKept(s, t, e, s', i);
        TakenKept(s, t, e, s', i);
        CachedKept(s, t, e, s', i);
        StopsKept(s, t, e, s', i);
      } else {
        NewPlace(s, t, e, s');
      }
    }
    TakenStaysKnown(s, t, e, s');
    assert forall n :: n in s'.sh.instances ==> s'.sh.instances[n] < |s'.sh.places|;
    assert forall u :: u in s'.threads && s'.threads[u].hand.Some? ==> s'.threads[u].hand.value < |s'.sh.places|;
    assert forall i: Inst :: i >= |s'.sh.places| ==> s'.sh.stops[i] == 0;
    assert |s'.sh.places| == |s'.sh.urls|;
  }

  lemma NewPlace(s: State, t: Tid, e: Effect, s': State)
    requires Places(s) && Moved(s, t, e, s') && e.StartReturned?
    ensures PlaceTrue(s', |s.sh.places|)
  {
  }

  lemma TakenStaysKnown(s: State, t: Tid, e: Effect, s': State)
    requires Places(s) && Moved(s, t, e, s')
    ensures forall u, i :: u in s'.threads && i in s'.threads[u].taken ==> i < |s'.sh.places|
    ensures forall u :: u in s'.threads ==> NoRepeats(s'.threads[u].taken)
  {
    var before, after := s.threads[t].taken, s'.threads[t].taken;
    if e.Remove? {
      assert PlaceTrue(s, e.inst) && e.inst !in before && after == before + [e.inst];
    }
    forall i | i in after ensures i < |s'.sh.places| {
      if !e.Remove? { assert i in before; }
    }
  }

  /** Before a Start returns under a name, nothing is out there under that name. */
  lemma ClearBeforeStart(s: State, t: Tid, e: Effect, s': State)
    requires Places(s) && Absent(s) && Exclusion(s) && Names(s) && Locals(s) && LogTrue(s)
    requires Stepped(s, t, e, s') && e.StartReturned?
    ensures TurnOf(s.sh.log, e.name) == Clear
    ensures forall u :: u in s.threads && s.threads[u].hand.Some? ==> s.threads[u].name != e.name
  {
    assert CarriedByEffect(s.sh, s.threads[t], e, s'.threads[t]);
    forall u | u in s.threads && s.threads[u].hand.Some? ensures s.threads[u].name != e.name {
      assert Shape(s.threads[u]);
      if s.threads[u].name == e.name { OneStarter(s, t, u); }
    }
    OutThere(s, e.name);
  }

  /** An instance the log says is out there is in the map or in some Ensure's hand. */
  lemma OutThere(s: State, n: Name)
    requires Places(s) && LogTrue(s)
    ensures TurnOf(s.sh.log, n) == Clear || n in s.sh.instances
            || exists u :: u in s.threads && s.threads[u].hand.Some? && s.threads[u].name == n
  {
    assert TurnTrue(s, n);
    if TurnOf(s.sh.log, n).Live? {
      assert PlaceTrue(s, TurnOf(s.sh.log, n).inst);
    }
  }

  lemma LogAfterStart(s: State, t: Tid, e: Effect, s': State, n: Name)
    requires Places(s) && Moved(s, t, e, s') && e.StartReturned? && TurnTrue(s, n)
    requires s'.threads[t].name == s.threads[t].name
    requires TurnOf(s.sh.log, e.name) == Clear
    ensures TurnTrue(s', n)
  {
    assert s'.sh.log[..|s'.sh.log| - 1] == s.sh.log;
  }

  lemma LogAfterRemove(s: State, t: Tid, e: Effect, s': State, n: Name)
    requires Places(s) && Moved(s, t, e, s') && e.Remove? && TurnTrue(s, n)
    requires Inserting(s'.threads[t].pc) ==> s'.threads[t].name == s.threads[t].name
    requires forall u :: u in s'.threads && s'.threads[u].hand.Some? ==> Inserting(s'.threads[u].pc)
    requires forall u :: u in s.threads && s.threads[u].hand.Some? ==> s.threads[u].name !in s.sh.instances
    ensures TurnTrue(s', n)
  {
    assert s'.sh.log[..|s'.sh.log| - 1] == s.sh.log;
    assert PlaceTrue(s, e.inst);
    assert e.inst < |s.sh.places| && s.sh.places[e.inst] == Cached(e.name);
    if TurnOf(s.sh.log, n).Live? { assert PlaceTrue(s, TurnOf(s.sh.log, n).inst); }
  }

  lemma LogAfterOther(s: State, t: Tid, e: Effect, s': State, n: Name)
    requires Places(s) && Moved(s, t, e, s') && !e.StartReturned? && !e.Remove? && TurnTrue(s, n)
    requires Inserting(s'.threads[t].pc) ==> s'.threads[t].name == s.threads[t].name
    requires forall u :: u in s'.threads && s'.threads[u].hand.Some? ==> Inserting(s'.threads[u].pc)
    ensures TurnTrue(s', n)
  {
    if e.Insert? { LogAfterInsert(s, t, e, s', n); } else { LogAfterQuiet(s, t, e, s', n); }
  }

  lemma LogAfterInsert(s: State, t: Tid, e: Effect, s': State, n: Name)
    requires Places(s) && Moved(s, t, e, s') && e.Insert? && TurnTrue(s, n)
    requires Inserting(s'.threads[t].pc) ==> s'.threads[t].name == s.threads[t].name
    requires forall u :: u in s'.threads && s'.threads[u].hand.Some? ==> Inserting(s'.threads[u].pc)
    ensures TurnTrue(s', n)
  {
    if TurnOf(s.sh.log, n).Live? { assert PlaceTrue(s, TurnOf(s.sh.log, n).inst); }
  }

  lemma LogAfterQuiet(s: State, t: Tid, e: Effect, s': State, n: Name)
    requires Places(s) && Moved(s, t, e, s') && !e.StartReturned? && !e.Remove? && !e.Insert? && TurnTrue(s, n)
    requires Inserting(s'.threads[t].pc) ==> s'.threads[t].name == s.threads[t].name
    requires forall u :: u in s'.threads && s'.threads[u].hand.Some? ==> Inserting(s'.threads[u].pc)
    ensures TurnTrue(s', n)
  {
    if TurnOf(s.sh.log, n).Live? { assert PlaceTrue(s, TurnOf(s.sh.log, n).inst); }
  }

  lemma HandsAreStarters(s: State, t: Tid, e: Effect, s': State)
    requires Absent(s) && Locals(s) && Stepped(s, t, e, s')
    ensures forall u :: u in s'.threads && s'.threads[u].hand.Some? ==> Inserting(s'.threads[u].pc)
    ensures forall u :: u in s.threads && s.threads[u].hand.Some? ==> s.threads[u].name !in s.sh.instances
  {
    assert Shape(s'.threads[t]);
    forall u | u in s.threads && s.threads[u].hand.Some?
      ensures Inserting(s.threads[u].pc) && s.threads[u].name !in s.sh.instances
    {
      assert Shape(s.threads[u]);
    }
  }

  lemma LogKept(s: State, t: Tid, e: Effect, s': State)
    requires Places(s) && Absent(s) && Exclusion(s) && Names(s) && Locals(s) && LogTrue(s)
    requires Stepped(s, t, e, s') && Moved(s, t, e, s')
    ensures LogTrue(s')
  {
    if e.StartReturned? { ClearBeforeStart(s, t, e, s'); }
    HandsAreStarters(s, t, e, s');
    forall n ensures TurnTrue(s', n) {
      assert TurnTrue(s, n);
      match e
      case StartReturned(_, _) => LogAfterStart(s, t, e, s', n);
      case Remove(_, _, _) => LogAfterRemove(s, t, e, s', n);
      case _ => LogAfterOther(s, t, e, s', n);
    }
  }

  // ---------------------------------------------------------------------------------------------
  // Invokes
  // ---------------------------------------------------------------------------------------------

  predicate InstancesKnown(sh: Shared) { forall n :: n in sh.instances ==> sh.instances[n] < |sh.urls| }

  lemma InvokeInEnsure(sh: Shared, th: Thread, e: Effect, th': Thread)
    requires th.pc.AtEnsure? && EnsureStep(sh, th, e, th') && Shape(th) && InvokeOk(sh.urls, th)
    requires InstancesKnown(sh)
    ensures InvokeOk(if e.StartReturned? then sh.urls + [e.url] else sh.urls, th')
  {
  }

  lemma InvokeInBody(sh: Shared, th: Thread, e: Effect, th': Thread)
    requires th.pc.AtBody? && BodyStep(th, e, th') && Shape(th) && InvokeOk(sh.urls, th)
    ensures InvokeOk(sh.urls, th')
  {
  }

  lemma InvokeInTake(sh: Shared, th: Thread, e: Effect, th': Thread)
    requires th.pc.AtTake? && TakeStep(sh, th, e, th') && Shape(th) && InvokeOk(sh.urls, th)
    ensures InvokeOk(sh.urls, th')
  {
  }

  lemma InvokeInNamed(sh: Shared, th: Thread, e: Effect, th': Thread)
    requires th.pc.AtNamed? && NamedStep(sh, th, e, th') && Shape(th) && InvokeOk(sh.urls, th)
    ensures InvokeOk(sh.urls, th')
  {
  }

  lemma InvokeInStopAll(sh: Shared, th: Thread, e: Effect, th': Thread)
    requires th.pc.AtStopAll? && StopAllStep(sh, th, e, th') && Shape(th) && InvokeOk(sh.urls, th)
    ensures InvokeOk(sh.urls, th')
  {
  }

  lemma InvokeInCall(sh: Shared, th: Thread, e: Effect, th': Thread)
    requires th.pc.Idle? || th.pc.Check? || th.pc.AwaitStart? || th.pc.AwaitInvoke?
    requires CallStep(sh, th, e, th') && Shape(th) && InvokeOk(sh.urls, th)
    ensures InvokeOk(sh.urls, th')
  {
  }

  lemma InvokeAfterPost(sh: Shared, th: Thread)
    requires th.pc.Returned? && th.frame.Invoke? && th.frame.phase.InPost? && InvokeOk(sh.urls, th)
    ensures InvokeOk(sh.urls, Advance(sh, th))
  {
    var f := th.frame;
    if f.attempt == 1 && TransportFailure(f.last, f.expired) {
      assert f.last == DoFailed(false) && Advance(sh, th).frame.phase == InRetryDiscard;
    } else {
      assert Advance(sh, th).frame.phase == if !f.last.Answered? then Finished(false)
                                            else if f.last.exit then InExitDiscard else Finished(true);
    }
  }

  lemma InvokeAfterOther(sh: Shared, th: Thread)
    requires th.pc.Returned? && th.frame.Invoke? && !th.frame.phase.InPost? && InvokeOk(sh.urls, th)
    ensures InvokeOk(sh.urls, Advance(sh, th))
  {
  }

  lemma InvokeReturns(sh: Shared, th: Thread, e: Effect, th': Thread)
    requires th.pc.Returned? && CallStep(sh, th, e, th') && InvokeOk(sh.urls, th)
    ensures InvokeOk(sh.urls, th')
  {
    if th.frame.Invoke? {
      if th.frame.phase.InPost? { InvokeAfterPost(sh, th); } else { InvokeAfterOther(sh, th); }
    }
  }

  lemma InvokeKept(sh: Shared, th: Thread, e: Effect, th': Thread)
    requires ProgStep(sh, th, e, th') && Shape(th) && InvokeOk(sh.urls, th) && InstancesKnown(sh)
    ensures InvokeOk(if e.StartReturned? then sh.urls + [e.url] else sh.urls, th')
  {
    match th.pc
    case AtNamed(_, _) => InvokeInNamed(sh, th, e, th');
    case AtEnsure(_) => InvokeInEnsure(sh, th, e, th');
    case AtBody(_) => InvokeInBody(sh, th, e, th');
    case AtTake(_) => InvokeInTake(sh, th, e, th');
    case AtStopAll(_) => InvokeInStopAll(sh, th, e, th');
    case Returned => InvokeReturns(sh, th, e, th');
    case _ => InvokeInCall(sh, th, e, th');
  }

  lemma InvokeExpires(urls: seq<Url>, th: Thread, e: Effect, th': Thread)
    requires Expires(th, e, th') && InvokeOk(urls, th)
    ensures InvokeOk(urls, th') && e == Local
  {
  }

  lemma EvictsOwnDeadInstance(sh: Shared, th: Thread, e: Effect, th': Thread)
    requires ThreadStep(sh, th, e, th') && Shape(th) && InvokeOk(sh.urls, th) && DistinctUrls(sh) && InstancesKnown(sh)
    requires e.Remove? && e.cause.ByInvoke?
    ensures e.inst == e.cause.used && Dead(e.cause.why, e.cause.late)
  {
  }

  lemma LocalsKept(s: State, t: Tid, e: Effect, s': State)
    requires Locals(s) && Places(s) && Next(s, t, e, s') && Stepped(s, t, e, s')
    ensures Locals(s')
  {
    if ProgStep(s.sh, s.threads[t], e, s'.threads[t]) {
      InvokeKept(s.sh, s.threads[t], e, s'.threads[t]);
    } else {
      InvokeExpires(s.sh.urls, s.threads[t], e, s'.threads[t]);
    }
    forall u | u in s'.threads ensures Shape(s'.threads[u]) && InvokeOk(s'.sh.urls, s'.threads[u]) {
      if u != t { assert InvokeOk(s.sh.urls, s.threads[u]); }
    }
  }

  // ---------------------------------------------------------------------------------------------
  // Every reachable state
  // ---------------------------------------------------------------------------------------------

  lemma InitInv(s: State)
    requires Init(s)
    ensures Inv(s)
  {
  }

  lemma InvKept(s: State, t: Tid, e: Effect, s': State)
    requires Inv(s) && Next(s, t, e, s')
    ensures Inv(s')
  {
    LocksKept(s, t, e, s');
    InstancesKept(s, t, e, s');
    CausesKept(s, t, e, s');
  }

  lemma LocksKept(s: State, t: Tid, e: Effect, s': State)
    requires Exclusion(s) && Names(s) && Absent(s) && Locals(s) && Next(s, t, e, s')
    ensures Exclusion(s') && Names(s') && Absent(s')
  {
    StepIsStepped(s, t, e, s');
    ExclusionKept(s, t, e, s');
    AbsentKept(s, t, e, s');
    NamesKept(s, t, e, s');
  }

  lemma InstancesKept(s: State, t: Tid, e: Effect, s': State)
    requires Exclusion(s) && Names(s) && Absent(s) && Locals(s) && Places(s) && LogTrue(s) && Next(s, t, e, s')
    ensures Places(s') && LogTrue(s') && Locals(s')
  {
    StepIsStepped(s, t, e, s');
    assert CarriedByEffect(s.sh, s.threads[t], e, s'.threads[t]);
    PlacesKept(s, t, e, s');
    LogKept(s, t, e, s');
    LocalsKept(s, t, e, s');
  }

  lemma CausesKept(s: State, t: Tid, e: Effect, s': State)
    requires Locals(s) && Places(s) && DistinctUrls(s.sh) && CausesTrue(s.sh.log) && Next(s, t, e, s')
    ensures DistinctUrls(s'.sh) && CausesTrue(s'.sh.log)
  {
    if e.Remove? && e.cause.ByInvoke? { EvictsOwnDeadInstance(s.sh, s.threads[t], e, s'.threads[t]); }
  }
}
