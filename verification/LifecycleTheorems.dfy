/** What the lifecycle protocol promises, in every run of any number of threads. */
module LifecycleTheorems {
  import opened Options
  import opened Lifecycle
  import opened LifecycleSafety

  /** A run: its states, and for each step the thread that took it and what it did. */
  datatype Step = Step(t: Tid, e: Effect)

  ghost predicate Run(states: seq<State>, steps: seq<Step>) {
    && |states| == |steps| + 1 && Init(states[0])
    && forall k :: 0 <= k < |steps| ==> Next(states[k], steps[k].t, steps[k].e, states[k + 1])
  }

  ghost predicate Reachable(s: State) {
    exists states, steps :: Run(states, steps) && states[|steps|] == s
  }

  lemma {:induction false} RunInv(states: seq<State>, steps: seq<Step>, k: nat)
    requires Run(states, steps) && k < |states|
    ensures Inv(states[k])
  {
    if k == 0 {
      InitInv(states[0]);
    } else {
      RunInv(states, steps, k - 1);
      assert Next(states[k - 1], steps[k - 1].t, steps[k - 1].e, states[k]);
      InvKept(states[k - 1], steps[k - 1].t, steps[k - 1].e, states[k]);
    }
  }

  lemma ReachableInv(s: State)
    requires Reachable(s)
    ensures Inv(s)
  {
    var states, steps :| Run(states, steps) && states[|steps|] == s;
    RunInv(states, steps, |steps|);
  }

  // ---------------------------------------------------------------------------------------------
  // Where instances are
  // ---------------------------------------------------------------------------------------------

  predicate Carrying(s: State, t: Tid, i: Inst) { t in s.threads && s.threads[t].hand == Some(i) }
  predicate CachedAs(s: State, n: Name, i: Inst) { n in s.sh.instances && s.sh.instances[n] == i }
  predicate Stops(s: State, t: Tid, i: Inst) { t in s.threads && i in s.threads[t].taken }

  ghost function Count(b: bool): nat { if b then 1 else 0 }

  /** An instance that was started is in exactly one place: in the hand of one Ensure that holds the start guard
      of its name, in the map under one name, with the one call that took it out, or stopped, and then once. */
  lemma ExactlyOnePlace(s: State, i: Inst)
    requires Reachable(s) && i < |s.sh.urls|
    ensures Count(exists t :: Carrying(s, t, i)) + Count(exists n :: CachedAs(s, n, i))
            + Count(exists t :: Stops(s, t, i)) + s.sh.stops[i] == 1
    ensures forall t, u :: Carrying(s, t, i) && Carrying(s, u, i) ==> t == u
    ensures forall t, u :: Stops(s, t, i) && Stops(s, u, i) ==> t == u
    ensures forall n, m :: CachedAs(s, n, i) && CachedAs(s, m, i) ==> n == m
    ensures forall t :: Carrying(s, t, i) ==> s.threads[t].op == Ensure && HoldsStart(s.threads[t])
    ensures forall t :: Stops(s, t, i) ==> s.threads[t].op in {Restart, Discard, StopAll}
    ensures forall n :: CachedAs(s, n, i) ==> StartedAs(s.sh.log, n, i)
  {
    forall n | CachedAs(s, n, i) ensures StartedAs(s.sh.log, n, i) { CachedUnderItsName(s, n, i); }
    ReachableInv(s);
    assert PlaceTrue(s, i);
    match s.sh.places[i]
    case InHand(t) => assert Carrying(s, t, i);
    case Cached(n) => assert CachedAs(s, n, i);
    case TakenOut(t) => assert Stops(s, t, i);
    case Stopped =>
  }

  /** The log says that this instance was started under this name. */
  ghost predicate StartedAs(log: seq<Event>, n: Name, i: Inst) { exists k :: 0 <= k < |log| && log[k] == Started(n, i) }

  lemma {:induction false} LiveWasStarted(log: seq<Event>, n: Name, i: Inst)
    requires TurnOf(log, n) == Live(i)
    ensures StartedAs(log, n, i)
  {
    var front, last := log[..|log| - 1], log[|log| - 1];
    if last != Started(n, i) {
      LiveWasStarted(front, n, i);
      var k :| 0 <= k < |front| && front[k] == Started(n, i);
      assert log[k] == front[k];
    }
  }

  lemma CachedIsLive(s: State, n: Name)
    requires Inv(s) && n in s.sh.instances
    ensures TurnOf(s.sh.log, n) == Live(s.sh.instances[n])
  {
    InHandIsAbsent(s);
    assert TurnTrue(s, n);
    assert PlaceTrue(s, TurnOf(s.sh.log, n).inst);
  }

  lemma InHandIsAbsent(s: State)
    requires Inv(s)
    ensures forall t :: t in s.threads && s.threads[t].hand.Some? ==> s.threads[t].name !in s.sh.instances
  {
    forall t | t in s.threads && s.threads[t].hand.Some? ensures s.threads[t].name !in s.sh.instances {
      assert Shape(s.threads[t]);
    }
  }

  /** An instance is in the map only under the name it was started under. */
  lemma CachedUnderItsName(s: State, n: Name, i: Inst)
    requires Reachable(s) && CachedAs(s, n, i)
    ensures StartedAs(s.sh.log, n, i)
  {
    ReachableInv(s);
    CachedIsLive(s, n);
    LiveWasStarted(s.sh.log, n, i);
  }

  /** Stop is called on an instance at most once, and never on one that was not started. */
  lemma StoppedAtMostOnce(s: State, i: Inst)
    requires Reachable(s)
    ensures s.sh.stops[i] <= 1 && (i >= |s.sh.urls| ==> s.sh.stops[i] == 0)
  {
    ReachableInv(s);
    if i < |s.sh.urls| { assert PlaceTrue(s, i); }
  }

  /** Ensure's insert never replaces an instance that is in the map. */
  lemma InsertFindsNoInstance(s: State, t: Tid, e: Effect, s': State)
    requires Reachable(s) && Next(s, t, e, s') && e.Insert?
    ensures e.name !in s.sh.instances
  {
    ReachableInv(s);
    StepIsStepped(s, t, e, s');
    assert CarriedByEffect(s.sh, s.threads[t], e, s'.threads[t]);
  }

  // ---------------------------------------------------------------------------------------------
  // Starts
  // ---------------------------------------------------------------------------------------------

  predicate StartInFlight(s: State, t: Tid) { t in s.threads && s.threads[t].pc == AtEnsure(Starting) }

  /** At most one Start is in flight for a name. */
  lemma OneStartInFlight(s: State, t: Tid, u: Tid)
    requires Reachable(s) && StartInFlight(s, t) && StartInFlight(s, u) && s.threads[t].name == s.threads[u].name
    ensures t == u
  {
    ReachableInv(s);
    OneStarter(s, t, u);
  }

  lemma {:induction false} PrefixNotBad(log: seq<Event>, n: Name, k: nat)
    requires k <= |log| && TurnOf(log, n) != Bad
    ensures TurnOf(log[..k], n) != Bad
  {
    if k == |log| {
      assert log[..k] == log;
    } else {
      var shorter := log[..|log| - 1];
      PrefixNotBad(shorter, n, k);
      assert shorter[..k] == log[..k];
    }
  }

  /** If i is out there after the first a events and not after the first b, it was removed in between. */
  lemma {:induction false} RemovedBetween(log: seq<Event>, n: Name, i: Inst, a: nat, b: nat)
    requires a <= b <= |log| && TurnOf(log, n) != Bad
    requires TurnOf(log[..a], n) == Live(i) && TurnOf(log[..b], n) != Live(i)
    ensures exists c :: a <= c < b && log[c].Removed? && log[c].name == n && log[c].inst == i
  {
    PrefixNotBad(log, n, b);
    assert log[..b][..b - 1] == log[..b - 1];
    if TurnOf(log[..b - 1], n) == Live(i) {
      assert log[b - 1].Removed? && log[b - 1].name == n && log[b - 1].inst == i;
    } else {
      RemovedBetween(log, n, i, a, b - 1);
    }
  }

  /** Between two successful Starts under one name, the first one's instance was taken out of the map. */
  lemma StartsSeparatedByRemoval(s: State, a: nat, b: nat)
    requires Reachable(s) && a < b < |s.sh.log|
    requires s.sh.log[a].Started? && s.sh.log[b].Started? && s.sh.log[a].name == s.sh.log[b].name
    ensures exists c :: a < c < b && s.sh.log[c].Removed? && s.sh.log[c].name == s.sh.log[a].name
                        && s.sh.log[c].inst == s.sh.log[a].inst
  {
    ReachableInv(s);
    assert TurnTrue(s, s.sh.log[a].name);
    SeparatedInLog(s.sh.log, a, b);
  }

  lemma SeparatedInLog(log: seq<Event>, a: nat, b: nat)
    requires a < b < |log| && log[a].Started? && log[b].Started? && log[a].name == log[b].name
    requires TurnOf(log, log[a].name) != Bad
    ensures exists c :: a < c < b && log[c].Removed? && log[c].name == log[a].name && log[c].inst == log[a].inst
  {
    AtStart(log, a);
    AtStart(log, b);
    RemovedBetween(log, log[a].name, log[a].inst, a + 1, b);
  }

  /** A Start finds its name clear, and leaves its instance out there. */
  lemma AtStart(log: seq<Event>, a: nat)
    requires a < |log| && log[a].Started? && TurnOf(log, log[a].name) != Bad
    ensures TurnOf(log[..a], log[a].name) == Clear && TurnOf(log[..a + 1], log[a].name) == Live(log[a].inst)
  {
    PrefixNotBad(log, log[a].name, a + 1);
    assert log[..a + 1][..a] == log[..a];
  }

  // ---------------------------------------------------------------------------------------------
  // What Ensure returns
  // ---------------------------------------------------------------------------------------------

  /** The thread is past the point where Ensure has made sure of its instance. */
  predicate Settled(th: Thread) {
    th.op == Ensure &&
    match th.pc
    case AtEnsure(p) =>
      p == HitLeave || p == InsertLeaveInst || p == InsertLeave || (p == LeaveInst && th.found.Some?)
    case Returned => th.ok
    case _ => false
  }

  /** The call a thread is in began at step `began`: before it the thread was in no call or at the end of one. */
  ghost predicate CallBegan(states: seq<State>, k: nat, t: Tid)
    requires k < |states| && t in states[k].threads
  {
    var th := states[k].threads[t];
    && th.began < k && t in states[th.began].threads && t in states[th.began + 1].threads
    && (states[th.began].threads[t].pc.Idle? || states[th.began].threads[t].pc.Returned?)
    && var first := states[th.began + 1].threads[t];
       first.pc == Check && first.op == th.op && first.name == th.name
  }

  ghost predicate SeenDuringCall(states: seq<State>, k: nat, t: Tid)
    requires k < |states| && t in states[k].threads
  {
    var th := states[k].threads[t];
    CallBegan(states, k, t) && th.found.Some? &&
    exists m :: th.began < m <= k && CachedAs(states[m], th.name, th.found.value)
  }

  /** How a thread gets there: it was there, it reads the map under instMu, or it inserts. */
  predicate Settles(sh: Shared, th: Thread, e: Effect, th': Thread) {
    && th'.name == th.name && th'.began == th.began && th'.found.Some?
    && (|| (Settled(th) && th'.found == th.found)
        || (th.name in sh.instances && th'.found == Some(sh.instances[th.name]))
        || e == Insert(th.name, th'.found.value))
  }

  lemma SettlesInEnsure(sh: Shared, th: Thread, e: Effect, th': Thread)
    requires th.pc.AtEnsure? && EnsureStep(sh, th, e, th') && Shape(th) && Settled(th')
    ensures Settles(sh, th, e, th')
  {
  }

  /** A step on the way through a call, that changes nothing the caller sees. */
  predicate Inside(th: Thread, th': Thread) {
    && !th.pc.Idle? && !th'.pc.Idle? && th'.began == th.began && th'.op == th.op && th'.name == th.name
    && th'.frame == th.frame && !Settled(th')
  }

  lemma InsideNamed(sh: Shared, th: Thread, e: Effect, th': Thread)
    requires th.pc.AtNamed? && NamedStep(sh, th, e, th')
    ensures Inside(th, th')
  {
  }

  lemma InsideTake(sh: Shared, th: Thread, e: Effect, th': Thread)
    requires th.pc.AtTake? && TakeStep(sh, th, e, th') && Shape(th)
    ensures Inside(th, th')
  {
  }

  lemma InsideStopAll(sh: Shared, th: Thread, e: Effect, th': Thread)
    requires th.pc.AtStopAll? && StopAllStep(sh, th, e, th') && Shape(th)
    ensures Inside(th, th')
  {
  }

  lemma SettlesNowhereElse(sh: Shared, th: Thread, e: Effect, th': Thread)
    requires !th.pc.AtEnsure? && ProgStep(sh, th, e, th') && Shape(th)
    ensures !Settled(th')
  {
    match th.pc
    case AtNamed(_, _) => InsideNamed(sh, th, e, th');
    case AtTake(_) => InsideTake(sh, th, e, th');
    case AtStopAll(_) => InsideStopAll(sh, th, e, th');
    case AtBody(_) =>
    case _ => NotSettledByCall(sh, th, e, th');
  }

  lemma NotSettledByCall(sh: Shared, th: Thread, e: Effect, th': Thread)
    requires th.pc.Idle? || th.pc.Check? || th.pc.AwaitStart? || th.pc.AwaitInvoke? || th.pc.Returned?
    requires CallStep(sh, th, e, th')
    ensures !Settled(th')
  {
  }

  lemma SettlesByStep(sh: Shared, th: Thread, e: Effect, th': Thread)
    requires ThreadStep(sh, th, e, th') && Shape(th) && Settled(th')
    ensures Settles(sh, th, e, th')
  {
    if Expires(th, e, th') {
    } else if th.pc.AtEnsure? {
      SettlesInEnsure(sh, th, e, th');
    } else {
      SettlesNowhereElse(sh, th, e, th');
    }
  }

  /** The clock is the position in the run, and no call began in the future. */
  lemma {:induction false} ClockIsPosition(states: seq<State>, steps: seq<Step>, k: nat)
    requires Run(states, steps) && k < |states|
    ensures states[k].sh.clock == k
  {
    if k > 0 {
      ClockIsPosition(states, steps, k - 1);
      assert Next(states[k - 1], steps[k - 1].t, steps[k - 1].e, states[k]);
    }
  }

  /** A call goes on, or one begins. */
  predicate GoesOn(sh: Shared, th: Thread, th': Thread) {
    || (!th.pc.Idle? && th'.began == th.began && th'.op == th.op && th'.name == th.name)
    || ((th.pc.Idle? || th.pc.Returned?) && th'.pc == Check && th'.began == sh.clock)
  }

  lemma GoesOnInCall(sh: Shared, th: Thread, e: Effect, th': Thread)
    requires th.pc.Idle? || th.pc.Check? || th.pc.AwaitStart? || th.pc.AwaitInvoke? || th.pc.Returned?
    requires CallStep(sh, th, e, th') && !th'.pc.Idle?
    ensures GoesOn(sh, th, th')
  {
  }

  lemma GoesOnInEnsure(sh: Shared, th: Thread, e: Effect, th': Thread)
    requires th.pc.AtEnsure? && EnsureStep(sh, th, e, th')
    ensures GoesOn(sh, th, th') && th'.frame == th.frame
  {
  }

  lemma CallKeeps(sh: Shared, th: Thread, e: Effect, th': Thread)
    requires ThreadStep(sh, th, e, th') && Shape(th) && !th'.pc.Idle?
    ensures GoesOn(sh, th, th')
  {
    if !Expires(th, e, th') {
      match th.pc
      case AtNamed(_, _) => InsideNamed(sh, th, e, th');
      case AtEnsure(_) => GoesOnInEnsure(sh, th, e, th');
      case AtTake(_) => InsideTake(sh, th, e, th');
      case AtStopAll(_) => InsideStopAll(sh, th, e, th');
      case AtBody(_) =>
      case _ => GoesOnInCall(sh, th, e, th');
    }
  }

  lemma {:induction false} EveryCallBegan(states: seq<State>, steps: seq<Step>, k: nat, t: Tid)
    requires Run(states, steps) && k < |states| && t in states[k].threads && !states[k].threads[t].pc.Idle?
    ensures CallBegan(states, k, t)
  {
    if k > 0 {
      CallGoesOn(states, steps, k - 1, t);
      if !states[k - 1].threads[t].pc.Idle? { EveryCallBegan(states, steps, k - 1, t); }
    }
  }

  /** From one state of a run to the next, a call goes on or begins; a thread that takes no step stays as it is. */
  lemma CallGoesOn(states: seq<State>, steps: seq<Step>, k: nat, t: Tid)
    requires Run(states, steps) && k + 1 < |states| && t in states[k + 1].threads && !states[k + 1].threads[t].pc.Idle?
    ensures t in states[k].threads
    ensures var th, th' := states[k].threads[t], states[k + 1].threads[t];
            || th' == th
            || (!th.pc.Idle? && th'.began == th.began && th'.op == th.op && th'.name == th.name)
            || ((th.pc.Idle? || th.pc.Returned?) && th'.pc == Check && th'.began == k)
  {
    assert Next(states[k], steps[k].t, steps[k].e, states[k + 1]);
    ClockIsPosition(states, steps, k);
    RunInv(states, steps, k);
    if steps[k].t == t { CallKeeps(states[k].sh, states[k].threads[t], steps[k].e, states[k + 1].threads[t]); }
  }

  /** In one step of the system a thread stays settled on its instance, or that instance is in the map before
      the step or after it. */
  lemma SettledByNext(s: State, u: Tid, e: Effect, s': State, t: Tid)
    requires Inv(s) && Next(s, u, e, s') && t in s'.threads && Settled(s'.threads[t])
    ensures t in s.threads
    ensures var th, th' := s.threads[t], s'.threads[t];
            && th'.found.Some? && th'.name == th.name && th'.began == th.began && !th.pc.Idle?
            && (|| (Settled(th) && th'.found == th.found)
                || CachedAs(s, th.name, th'.found.value) || CachedAs(s', th.name, th'.found.value))
  {
    assert Shape(s'.threads[t]) by { StepIsStepped(s, u, e, s'); }
    if u == t { SettlesByStep(s.sh, s.threads[t], e, s'.threads[t]); }
  }

  lemma SettledInRun(states: seq<State>, steps: seq<Step>, k: nat, t: Tid)
    requires Run(states, steps) && 0 < k < |states| && t in states[k].threads && Settled(states[k].threads[t])
    ensures t in states[k - 1].threads
    ensures var th, th' := states[k - 1].threads[t], states[k].threads[t];
            && th'.found.Some? && th'.name == th.name && th'.began == th.began && !th.pc.Idle?
            && (|| (Settled(th) && th'.found == th.found)
                || CachedAs(states[k - 1], th.name, th'.found.value) || CachedAs(states[k], th.name, th'.found.value))
  {
    assert Next(states[k - 1], steps[k - 1].t, steps[k - 1].e, states[k]);
    RunInv(states, steps, k - 1);
    SettledByNext(states[k - 1], steps[k - 1].t, steps[k - 1].e, states[k], t);
  }

  /** Ensure returns only an instance that was in the map under that name at some moment of the call. */
  lemma {:induction false} EnsureReturnsCached(states: seq<State>, steps: seq<Step>, k: nat, t: Tid)
    requires Run(states, steps) && k < |states| && t in states[k].threads && Settled(states[k].threads[t])
    ensures SeenDuringCall(states, k, t)
  {
    EveryCallBegan(states, steps, k, t);
    SettledInRun(states, steps, k, t);
    EveryCallBegan(states, steps, k - 1, t);
    var th, th' := states[k - 1].threads[t], states[k].threads[t];
    if Settled(th) && th'.found == th.found {
      EnsureReturnsCached(states, steps, k - 1, t);
    }
  }

  // ---------------------------------------------------------------------------------------------
  // Waiting
  // ---------------------------------------------------------------------------------------------

  /** The lock a thread's next step must acquire. */
  function WaitsFor(th: Thread): Option<Lock> {
    match th.pc
    case AtNamed(p, _) => if p == AwaitMap then Some(MapMu) else None
    case AwaitStart => Some(Named(th.startMu))
    case AwaitInvoke => Some(Named(th.invokeMu))
    case AtEnsure(p) =>
      if p == AwaitInst || p == InsertAwaitInst then Some(InstMu)
      else if p == AwaitResolver then Some(ResolverMu)
      else None
    case AtTake(p) => if p == TakeAwaitInst then Some(InstMu) else None
    case AtStopAll(p) => if p == AllAwaitInst then Some(InstMu) else None
    case _ => None
  }

  /** Start guards come first, then invoke locks, then the leaf locks. */
  function Rank(sh: Shared, l: Lock): nat {
    match l
    case Named(id) => if id < |sh.mutexes| && sh.mutexes[id].0 == Starts then 0 else 1
    case _ => 2
  }

  /** Every wait follows the order: a thread holds only locks of a lower rank than the one it waits for. */
  lemma WaitsInOrder(s: State, t: Tid, l: Lock)
    requires Reachable(s) && t in s.threads && Held(s.threads[t], l) && WaitsFor(s.threads[t]).Some?
    ensures Rank(s.sh, l) < Rank(s.sh, WaitsFor(s.threads[t]).value)
  {
    ReachableInv(s);
    assert LookedUp(s.sh, s.threads[t]);
  }

  ghost predicate CanStep(s: State, t: Tid) {
    t in s.threads && exists e, th' :: EffectOk(s.sh, e) && ProgStep(s.sh, s.threads[t], e, th')
  }

  lemma CanStepIsNext(s: State, t: Tid)
    requires CanStep(s, t)
    ensures exists e, s' :: Next(s, t, e, s')
  {
    var e, th' :| EffectOk(s.sh, e) && ProgStep(s.sh, s.threads[t], e, th');
    assert Next(s, t, e, State(Apply(s.sh, t, e), s.threads[t := th']));
  }

  lemma ByStep(s: State, t: Tid, e: Effect, th': Thread)
    requires t in s.threads && EffectOk(s.sh, e) && ProgStep(s.sh, s.threads[t], e, th')
    ensures CanStep(s, t)
  {
  }

  /** The lock the thread's next step must acquire, if any, is free. */
  predicate Unblocked(s: State, t: Tid)
    requires t in s.threads
  {
    WaitsFor(s.threads[t]).Some? ==> WaitsFor(s.threads[t]).value !in s.sh.owner
  }

  lemma EnsureCanStep(s: State, t: Tid)
    requires Inv(s) && t in s.threads && s.threads[t].pc.AtEnsure? && Unblocked(s, t)
    ensures CanStep(s, t)
  {
    var th := s.threads[t];
    match th.pc.ensure
    case AwaitInst => ByStep(s, t, Acquire(InstMu), th.(pc := AtEnsure(Read)));
    case Read =>
      var found := if th.name in s.sh.instances then Some(s.sh.instances[th.name]) else None;
      ByStep(s, t, Local, th.(pc := AtEnsure(LeaveInst), found := found));
    case LeaveInst => ByStep(s, t, Release(InstMu), th.(pc := AtEnsure(if th.found.Some? then HitLeave else Resolve)));
    case Resolve => ByStep(s, t, Local, th.(pc := AtEnsure(Starting)));
    case AwaitResolver => ByStep(s, t, Acquire(ResolverMu), th.(pc := AtEnsure(InResolver)));
    case InResolver => ByStep(s, t, Release(ResolverMu), th.(pc := AtEnsure(Resolve)));
    case Starting => ByStep(s, t, Local, th.(pc := AtEnsure(FailLeave)));
    case InsertAwaitInst => ByStep(s, t, Acquire(InstMu), th.(pc := AtEnsure(InsertInst)));
    case InsertInst =>
      assert Shape(th);
      ByStep(s, t, Insert(th.name, th.hand.value), th.(pc := AtEnsure(InsertLeaveInst), hand := None));
    case InsertLeaveInst => ByStep(s, t, Release(InstMu), th.(pc := AtEnsure(InsertLeave)));
    case _ => ByStep(s, t, Release(Named(th.startMu)), th.(pc := Returned, ok := th.pc.ensure != FailLeave));
  }

  lemma TakeCanStep(s: State, t: Tid)
    requires Inv(s) && t in s.threads && s.threads[t].pc.AtTake? && Unblocked(s, t)
    ensures CanStep(s, t)
  {
    var th := s.threads[t];
    var leave := AtTake(if th.op == Restart then LeaveInvoke else LeaveStart);
    match th.pc.take
    case TakeAwaitInst => ByStep(s, t, Acquire(InstMu), th.(pc := AtTake(Take)));
    case Take =>
      if TakesIt(s.sh, th) {
        var i := s.sh.instances[th.name];
        ByStep(s, t, Remove(th.name, i, CauseOf(th)), th.(pc := AtTake(TakeLeaveInst), taken := [i]));
      } else {
        ByStep(s, t, Local, th.(pc := AtTake(TakeLeaveInst)));
      }
    case TakeLeaveInst =>
      ByStep(s, t, Release(InstMu), if th.taken != [] then th.(pc := AtTake(CallStop)) else th.(pc := leave, ok := true));
    case CallStop =>
      assert Shape(th) && th.taken[0] in th.taken;
      ByStep(s, t, StopCalled(th.taken[0]), th.(pc := AtTake(Stopping), taken := th.taken[1..]));
    case Stopping => ByStep(s, t, Local, th.(pc := leave));
    case LeaveInvoke => ByStep(s, t, Release(Named(th.invokeMu)), th.(pc := AtTake(LeaveStart)));
    case LeaveStart => ByStep(s, t, Release(Named(th.startMu)), th.(pc := Returned));
  }

  lemma StopAllCanStep(s: State, t: Tid)
    requires Inv(s) && t in s.threads && s.threads[t].pc.AtStopAll? && Unblocked(s, t)
    ensures CanStep(s, t)
  {
    var th := s.threads[t];
    match th.pc.all
    case AllAwaitInst => ByStep(s, t, Acquire(InstMu), th.(pc := AtStopAll(AllTake)));
    case AllTake =>
      if n :| n in s.sh.instances {
        ByStep(s, t, Remove(n, s.sh.instances[n], ByStopAll), th.(taken := th.taken + [s.sh.instances[n]]));
      } else {
        ByStep(s, t, Local, th.(pc := AtStopAll(AllLeaveInst)));
      }
    case AllLeaveInst => ByStep(s, t, Release(InstMu), th.(pc := AtStopAll(AllCallStop)));
    case AllCallStop =>
      if th.taken == [] {
        ByStep(s, t, Local, th.(pc := Returned));
      } else {
        assert th.taken[0] in th.taken;
        ByStep(s, t, StopCalled(th.taken[0]), th.(pc := AtStopAll(AllStopping), taken := th.taken[1..]));
      }
    case AllStopping => ByStep(s, t, Local, th.(pc := AtStopAll(AllCallStop)));
  }

  lemma NamedCanStep(s: State, t: Tid)
    requires t in s.threads && s.threads[t].pc.AtNamed? && Unblocked(s, t)
    ensures CanStep(s, t)
  {
    var th := s.threads[t];
    var tb := th.pc.table;
    match th.pc.named
    case AwaitMap => ByStep(s, t, Acquire(MapMu), th.(pc := AtNamed(Lookup, tb)));
    case Lookup =>
      ByStep(s, t, Local, if th.name in TableOf(s.sh, tb)
                          then SetMu(th, tb, TableOf(s.sh, tb)[th.name]).(pc := AtNamed(LeaveMap, tb))
                          else th.(pc := AtNamed(AddMutex, tb)));
    case AddMutex => ByStep(s, t, NewMutex(tb, th.name), SetMu(th, tb, |s.sh.mutexes|).(pc := AtNamed(LeaveMap, tb)));
    case LeaveMap => ByStep(s, t, Release(MapMu), th.(pc := if tb == Starts then AwaitStart else AwaitInvoke));
  }

  lemma BodyCanStep(s: State, t: Tid)
    requires t in s.threads && s.threads[t].pc.AtBody?
    ensures CanStep(s, t)
  {
    var th := s.threads[t];
    match th.pc.body
    case Enter =>
      ByStep(s, t, Local, if th.frame.Direct? then th.(pc := AtBody(Posting))
                          else th.(pc := AtBody(LeaveBody), frame := th.frame.(last := BuildFailed)));
    case Posting =>
      ByStep(s, t, Local, if th.frame.Direct? then th.(pc := AtBody(LeaveBody))
                          else th.(pc := AtBody(LeaveBody), frame := th.frame.(last := DoFailed(false))));
    case LeaveBody => ByStep(s, t, Release(Named(th.invokeMu)), th.(pc := Returned, ok := true));
  }

  lemma CallCanStep(s: State, t: Tid)
    requires t in s.threads && Unblocked(s, t)
    requires var pc := s.threads[t].pc; pc.Check? || pc.AwaitStart? || pc.AwaitInvoke? || pc.Returned?
    ensures CanStep(s, t)
  {
    var th := s.threads[t];
    match th.pc
    case Check =>
      ByStep(s, t, Local, match th.op
                          case StopAll => th.(pc := AtStopAll(AllAwaitInst))
                          case WithLock => th.(pc := AtNamed(AwaitMap, Invokes))
                          case _ => if th.name in s.sh.known then th.(pc := AtNamed(AwaitMap, Starts))
                                    else th.(pc := Returned, ok := false));
    case AwaitStart =>
      ByStep(s, t, Acquire(Named(th.startMu)),
             th.(pc := match th.op
                       case Ensure => AtEnsure(AwaitInst)
                       case Restart => AtNamed(AwaitMap, Invokes)
                       case _ => AtTake(TakeAwaitInst)));
    case AwaitInvoke =>
      ByStep(s, t, Acquire(Named(th.invokeMu)), th.(pc := if th.op == Restart then AtTake(TakeAwaitInst)
          else AtBody(Enter)));
    case Returned => ByStep(s, t, Local, if th.frame.Direct? then th.(pc := Idle) else Advance(s.sh, th));
  }

  lemma UnblockedCanStep(s: State, t: Tid)
    requires Inv(s) && t in s.threads && !s.threads[t].pc.Idle? && Unblocked(s, t)
    ensures CanStep(s, t)
  {
    match s.threads[t].pc
    case AtEnsure(_) => EnsureCanStep(s, t);
    case AtTake(_) => TakeCanStep(s, t);
    case AtStopAll(_) => StopAllCanStep(s, t);
    case AtNamed(_, _) => NamedCanStep(s, t);
    case AtBody(_) => BodyCanStep(s, t);
    case _ => CallCanStep(s, t);
  }

  /** No deadlock: while any call is under way, some call can take a step, backends returning when called. */
  lemma {:induction false} SomeCallCanStep(s: State, t: Tid) returns (u: Tid)
    requires Reachable(s) && t in s.threads && !s.threads[t].pc.Idle?
    ensures u in s.threads && !s.threads[u].pc.Idle? && CanStep(s, u)
    decreases match WaitsFor(s.threads[t]) case None => 0 case Some(l) => 3 - Rank(s.sh, l)
  {
    ReachableInv(s);
    if Unblocked(s, t) {
      UnblockedCanStep(s, t);
      u := t;
    } else {
      var l := WaitsFor(s.threads[t]).value;
      var holder := s.sh.owner[l];
      assert Owns(s.sh, holder, l) && Holds(s, holder, l);
      if WaitsFor(s.threads[holder]).Some? { WaitsInOrder(s, holder, l); }
      u := SomeCallCanStep(s, holder);
    }
  }

  /** A thread that waits for a start guard or an invoke lock waits for a call on its own name. */
  lemma NamesDoNotBlockEachOther(s: State, t: Tid, u: Tid, l: Lock)
    requires Reachable(s) && t in s.threads && u in s.threads
    requires l.Named? && WaitsFor(s.threads[t]) == Some(l) && Held(s.threads[u], l)
    ensures s.threads[u].name == s.threads[t].name && s.threads[u].op != StopAll
  {
    ReachableInv(s);
    assert LookedUp(s.sh, s.threads[t]) && LookedUp(s.sh, s.threads[u]);
    assert Shape(s.threads[u]);
  }

  /** The holder of a leaf lock never waits, whatever name it works on. */
  lemma LeafHoldersDoNotWait(s: State, u: Tid, l: Lock)
    requires Reachable(s) && u in s.threads && !l.Named? && Held(s.threads[u], l)
    ensures CanStep(s, u)
  {
    ReachableInv(s);
    UnblockedCanStep(s, u);
  }

  // ---------------------------------------------------------------------------------------------
  // Restart and invocations
  // ---------------------------------------------------------------------------------------------

  /** While Restart calls Stop, or waits for it to return, no invocation of that name is inside the invoke lock. */
  lemma RestartStopsBetweenInvocations(s: State, r: Tid, w: Tid)
    requires Reachable(s) && r in s.threads && w in s.threads && s.threads[r].name == s.threads[w].name
    requires s.threads[r].op == Restart && (s.threads[r].pc == AtTake(CallStop) || s.threads[r].pc == AtTake(Stopping))
    ensures !s.threads[w].pc.AtBody?
  {
    ReachableInv(s);
    if s.threads[w].pc.AtBody? {
      assert LookedUp(s.sh, s.threads[r]) && LookedUp(s.sh, s.threads[w]);
      OneHolder(s, r, w, Named(s.threads[r].invokeMu));
    }
  }

  /** Two invocations of one name are never inside the invoke lock together. */
  lemma OneInvocationAtATime(s: State, t: Tid, u: Tid)
    requires Reachable(s) && t in s.threads && u in s.threads && s.threads[t].name == s.threads[u].name
    requires s.threads[t].pc.AtBody? && s.threads[u].pc.AtBody?
    ensures t == u
  {
    ReachableInv(s);
    assert LookedUp(s.sh, s.threads[t]) && LookedUp(s.sh, s.threads[u]);
    OneHolder(s, t, u, Named(s.threads[t].invokeMu));
  }

  /** One invoke sends its body in at most two POSTs, and the body reaches at most one runtime. */
  lemma BodyReachesOneRuntime(s: State, t: Tid)
    requires Reachable(s) && t in s.threads && s.threads[t].frame.Invoke?
    ensures s.threads[t].frame.posts <= 2 && s.threads[t].frame.reached <= 1
    ensures s.threads[t].frame.phase == Finished(true) ==> s.threads[t].frame.reached == 1
    ensures s.threads[t].frame.phase.Finished? ==> (s.threads[t].frame.phase.ok <==> s.threads[t].frame.last.Answered?)
  {
    ReachableInv(s);
    assert InvokeOk(s.sh.urls, s.threads[t]);
  }

  lemma PostsInBodyOnly(sh: Shared, th: Thread, e: Effect, th': Thread)
    requires ThreadStep(sh, th, e, th') && Shape(th) && th.frame.Invoke? && th'.frame.Invoke?
    ensures th'.frame.posts <= th.frame.posts || th.pc == AtBody(Enter)
  {
    if !Expires(th, e, th') {
      match th.pc
      case AtNamed(_, _) => InsideNamed(sh, th, e, th');
      case AtEnsure(_) => GoesOnInEnsure(sh, th, e, th');
      case AtTake(_) => InsideTake(sh, th, e, th');
      case AtStopAll(_) => InsideStopAll(sh, th, e, th');
      case AtBody(_) =>
      case _ => PostsNotInCall(sh, th, e, th');
    }
  }

  lemma PostsNotInCall(sh: Shared, th: Thread, e: Effect, th': Thread)
    requires th.pc.Idle? || th.pc.Check? || th.pc.AwaitStart? || th.pc.AwaitInvoke? || th.pc.Returned?
    requires CallStep(sh, th, e, th') && th.frame.Invoke? && th'.frame.Invoke?
    ensures th'.frame.posts <= th.frame.posts
  {
  }

  /** A second POST is sent only after the first was refused before it reached a runtime, and before time ran out. */
  lemma SecondPostOnlyAfterTransportFailure(s: State, t: Tid, e: Effect, s': State)
    requires Reachable(s) && Next(s, t, e, s') && s.threads[t].frame.Invoke? && s'.threads[t].frame.Invoke?
    requires s.threads[t].frame.posts == 1 && s'.threads[t].frame.posts == 2
    ensures var f := s.threads[t].frame; f.attempt == 2 && f.reached == 0 && f.last == DoFailed(false) && !f.late
  {
    ReachableInv(s);
    var th := s.threads[t];
    assert InvokeOk(s.sh.urls, th) && Shape(th);
    PostsInBodyOnly(s.sh, th, e, s'.threads[t]);
  }

  /** And one is sent then, unless nothing could be started to send it to or time ran out meanwhile. */
  lemma FirstFailureIsRetried(s: State, t: Tid)
    requires Reachable(s) && t in s.threads && s.threads[t].frame.Invoke?
    requires s.threads[t].frame.phase.Finished? && s.threads[t].frame.last == DoFailed(false)
    ensures s.threads[t].frame.attempt == 2 || s.threads[t].frame.expired
  {
    ReachableInv(s);
    assert InvokeOk(s.sh.urls, s.threads[t]);
  }

  /** What an invoke evicts is the instance its own attempt used, and only because that instance refused the
      connection, with time left, or answered that its runtime had exited: never for a timeout or a broken body. */
  lemma EvictionsAreOwnAndDead(s: State, k: nat)
    requires Reachable(s) && k < |s.sh.log| && s.sh.log[k].Removed? && s.sh.log[k].cause.ByInvoke?
    ensures s.sh.log[k].inst == s.sh.log[k].cause.used
    ensures var c := s.sh.log[k].cause; (c.why == DoFailed(false) && !c.late) || c.why == Answered(true)
  {
    ReachableInv(s);
  }

  /** Step by step: an invoke takes out no instance but the one it used, for no other reason, and says so. */
  lemma EvictsOnlyOwnDead(s: State, t: Tid, e: Effect, s': State)
    requires Reachable(s) && Next(s, t, e, s') && e.Remove? && s.threads[t].frame.Invoke?
    ensures var f := s.threads[t].frame;
            && e.inst == f.used && e.cause == ByInvoke(f.used, f.last, f.late)
            && ((f.last == DoFailed(false) && !f.late) || f.last == Answered(true))
  {
    ReachableInv(s);
    assert Shape(s.threads[t]) && InvokeOk(s.sh.urls, s.threads[t]);
    if e.cause.ByInvoke? { EvictsOwnDeadInstance(s.sh, s.threads[t], e, s'.threads[t]); }
  }
}
