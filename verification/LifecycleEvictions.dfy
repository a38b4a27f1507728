/** What an invoke leaves behind, in every interleaving: no instance that was found dead stays in the map. */
module LifecycleEvictions {
  import opened Options
  import opened Lifecycle
  import opened LifecycleSafety
  import opened LifecycleTheorems

  /** The instance has been in the map, under this name only. */
  predicate Own(sh: Shared, i: Inst, n: Name) {
    i < |sh.places| && !sh.places[i].InHand? && (sh.places[i].Cached? ==> sh.places[i].name == n)
  }

  /** It has been taken out, and perhaps been stopped. */
  predicate Gone(sh: Shared, i: Inst) { i < |sh.places| && (sh.places[i].TakenOut? || sh.places[i].Stopped?) }

  /** Restart or Discard has looked at the map. */
  predicate PastTake(th: Thread) {
    th.pc.Returned? || (th.pc.AtTake? && th.pc.take != TakeAwaitInst && th.pc.take != Take)
  }

  /** Ensure has found its name to be a function's, unless it has just begun or has failed. */
  predicate KnownName(sh: Shared, th: Thread)
    requires th.frame.Invoke?
  {
    match th.frame.phase
    case Finished(_) => true
    case InEnsure => th.pc.Check? || (th.pc.Returned? && !th.ok) || th.name in sh.known
    case _ => th.name in sh.known
  }

  /** What is known of the instance an invoke has used. */
  predicate UsedOk(sh: Shared, th: Thread)
    requires th.frame.Invoke?
  {
    var f := th.frame;
    match f.phase
    case InEnsure => f.attempt == 2 ==> Gone(sh, f.used)
    case InPost => Own(sh, f.used, th.name)
    case Finished(ok) => ok && f.last == Answered(true) ==> Gone(sh, f.used)
    case _ => Own(sh, f.used, th.name) && (PastTake(th) ==> Gone(sh, f.used))
  }

  predicate Evicting(sh: Shared, th: Thread) {
    && (Settled(th) && th.found.Some? ==> Own(sh, th.found.value, th.name))
    && (th.frame.Invoke? ==> KnownName(sh, th) && UsedOk(sh, th))
  }

  ghost predicate AllEvicting(s: State) { forall t :: t in s.threads ==> Evicting(s.sh, s.threads[t]) }

  // ---------------------------------------------------------------------------------------------
  // What any step of any thread keeps
  // ---------------------------------------------------------------------------------------------

  lemma OwnKept(s: State, t: Tid, e: Effect, s': State, i: Inst, n: Name)
    requires Places(s) && Moved(s, t, e, s')
    ensures Own(s.sh, i, n) ==> Own(s'.sh, i, n)
    ensures Gone(s.sh, i) ==> Gone(s'.sh, i)
  {
    if i < |s.sh.places| { assert PlaceTrue(s, i); }
  }

  lemma EvictingKept(s: State, t: Tid, e: Effect, s': State, th: Thread)
    requires Places(s) && Moved(s, t, e, s') && Evicting(s.sh, th)
    ensures Evicting(s'.sh, th)
  {
    if th.found.Some? { OwnKept(s, t, e, s', th.found.value, th.name); }
    if th.frame.Invoke? { OwnKept(s, t, e, s', th.frame.used, th.name); }
  }

  // ---------------------------------------------------------------------------------------------
  // One step of the thread itself, which finds things as they were
  // ---------------------------------------------------------------------------------------------

  ghost predicate CachedAll(sh: Shared) { forall i: Inst :: i < |sh.places| ==> CachedTrue(sh, i) }

  /** The shared state of a reachable state. */
  ghost predicate SharedOk(sh: Shared) {
    CachedAll(sh) && DistinctUrls(sh) && InstancesKnown(sh) && |sh.places| == |sh.urls|
  }

  lemma InNamed(sh: Shared, sh': Shared, th: Thread, e: Effect, th': Thread)
    requires th.pc.AtNamed? && NamedStep(sh, th, e, th') && Evicting(sh', th)
    ensures Evicting(sh', th')
  {
    InsideNamed(sh, th, e, th');
  }

  lemma InStopAll(sh: Shared, sh': Shared, th: Thread, e: Effect, th': Thread)
    requires th.pc.AtStopAll? && StopAllStep(sh, th, e, th') && Evicting(sh', th) && Shape(th) && InvokeOk(sh.urls, th)
    ensures Evicting(sh', th')
  {
    InsideStopAll(sh, th, e, th');
  }

  lemma InBody(sh: Shared, th: Thread, e: Effect, th': Thread)
    requires th.pc.AtBody? && BodyStep(th, e, th') && Evicting(sh, th) && Shape(th) && InvokeOk(sh.urls, th)
    ensures Evicting(sh, th')
  {
  }

  lemma InEnsureCall(sh: Shared, t: Tid, th: Thread, e: Effect, th': Thread)
    requires th.pc.AtEnsure? && EnsureStep(sh, th, e, th') && EffectOk(sh, e) && Evicting(Apply(sh, t, e), th)
    requires Shape(th) && InvokeOk(sh.urls, th) && SharedOk(sh)
    ensures Evicting(Apply(sh, t, e), th')
  {
    GoesOnInEnsure(sh, th, e, th');
    if Settled(th') { SettlesInEnsure(sh, th, e, th'); }
    if th.name in sh.instances { assert CachedTrue(sh, sh.instances[th.name]); }
  }

  /** Discard takes the instance that the invoke used, or that one is not in the map. */
  lemma Looks(sh: Shared, t: Tid, th: Thread, e: Effect, th': Thread)
    requires th.pc == AtTake(Take) && TakeStep(sh, th, e, th') && EffectOk(sh, e)
    requires InvokeOk(sh.urls, th) && th.frame.Invoke? && th.op == Discard && SharedOk(sh)
    requires Own(sh, th.frame.used, th.name) && th.url == sh.urls[th.frame.used]
    ensures Gone(Apply(sh, t, e), th.frame.used)
  {
    assert CachedTrue(sh, th.frame.used);
  }

  lemma InTake(sh: Shared, t: Tid, th: Thread, e: Effect, th': Thread)
    requires th.pc.AtTake? && TakeStep(sh, th, e, th') && EffectOk(sh, e)
    requires Evicting(sh, th) && Evicting(Apply(sh, t, e), th)
    requires Shape(th) && InvokeOk(sh.urls, th) && SharedOk(sh)
    ensures Evicting(Apply(sh, t, e), th')
  {
    InsideTake(sh, th, e, th');
    if th.pc.take == Take && th.frame.Invoke? { Looks(sh, t, th, e, th'); }
  }

  lemma InCall(sh: Shared, sh': Shared, th: Thread, e: Effect, th': Thread)
    requires th.pc.Idle? || th.pc.Check? || th.pc.AwaitStart? || th.pc.AwaitInvoke?
    requires CallStep(sh, th, e, th') && sh'.known == sh.known && Evicting(sh', th) && Shape(th) && InvokeOk(sh.urls, th)
    ensures Evicting(sh', th')
  {
    NotSettledByCall(sh, th, e, th');
  }

  /** An attempt's Ensure has returned: what it found has been in the map under the name. */
  lemma AfterEnsure(sh: Shared, sh': Shared, th: Thread)
    requires th.pc.Returned? && th.frame.Invoke? && th.frame.phase.InEnsure? && th.op == Ensure && Evicting(sh', th)
    ensures Evicting(sh', Advance(sh, th))
  {
  }

  lemma AfterPost(sh: Shared, sh': Shared, th: Thread)
    requires th.pc.Returned? && th.frame.Invoke? && th.frame.phase.InPost? && th.frame.used < |sh.urls|
    requires Evicting(sh', th)
    ensures Evicting(sh', Advance(sh, th))
  {
  }

  lemma AfterDiscard(sh: Shared, sh': Shared, th: Thread)
    requires th.pc.Returned? && th.frame.Invoke? && !th.frame.phase.InEnsure? && !th.frame.phase.InPost?
    requires Evicting(sh', th)
    ensures Evicting(sh', Advance(sh, th))
  {
  }

  lemma InReturn(sh: Shared, sh': Shared, th: Thread, e: Effect, th': Thread)
    requires th.pc.Returned? && CallStep(sh, th, e, th') && Evicting(sh', th) && InvokeOk(sh.urls, th)
    ensures Evicting(sh', th')
  {
    if th.frame.Invoke? {
      match th.frame.phase
      case InEnsure => AfterEnsure(sh, sh', th);
      case InPost => AfterPost(sh, sh', th);
      case _ => AfterDiscard(sh, sh', th);
    }
  }

  lemma OwnStep(s: State, t: Tid, e: Effect, s': State)
    requires Inv(s) && Next(s, t, e, s') && Evicting(s.sh, s.threads[t]) && Evicting(s'.sh, s.threads[t])
    ensures Evicting(s'.sh, s'.threads[t])
  {
    SharedIsOk(s);
    if !Expires(s.threads[t], e, s'.threads[t]) { ByProgram(s.sh, t, s.threads[t], e, s'.threads[t]); }
  }

  lemma ByProgram(sh: Shared, t: Tid, th: Thread, e: Effect, th': Thread)
    requires ProgStep(sh, th, e, th') && EffectOk(sh, e) && Evicting(sh, th) && Evicting(Apply(sh, t, e), th)
    requires Shape(th) && InvokeOk(sh.urls, th) && SharedOk(sh)
    ensures Evicting(Apply(sh, t, e), th')
  {
    var sh' := Apply(sh, t, e);
    match th.pc
    case AtNamed(_, _) => InNamed(sh, sh', th, e, th');
    case AtEnsure(_) => InEnsureCall(sh, t, th, e, th');
    case AtBody(_) => InBody(sh', th, e, th');
    case AtTake(_) => InTake(sh, t, th, e, th');
    case AtStopAll(_) => InStopAll(sh, sh', th, e, th');
    case Returned => InReturn(sh, sh', th, e, th');
    case _ => InCall(sh, sh', th, e, th');
  }

  lemma SharedIsOk(s: State)
    requires Inv(s)
    ensures SharedOk(s.sh)
  {
    forall i: Inst | i < |s.sh.places| ensures CachedTrue(s.sh, i) { assert PlaceTrue(s, i); }
  }

  // ---------------------------------------------------------------------------------------------
  // Every run
  // ---------------------------------------------------------------------------------------------

  lemma AllEvictingKept(s: State, t: Tid, e: Effect, s': State)
    requires Inv(s) && Next(s, t, e, s') && AllEvicting(s)
    ensures AllEvicting(s')
  {
    StepIsStepped(s, t, e, s');
    assert Moved(s, t, e, s') by {
      assert CarriedByEffect(s.sh, s.threads[t], e, s'.threads[t]);
    }
    forall u | u in s'.threads ensures Evicting(s'.sh, s'.threads[u]) {
      assert Evicting(s.sh, s.threads[u]);
      EvictingKept(s, t, e, s', s.threads[u]);
      if u == t { OwnStep(s, t, e, s'); }
    }
  }

  lemma {:induction false} RunEvicts(states: seq<State>, steps: seq<Step>, k: nat)
    requires Run(states, steps) && k < |states|
    ensures AllEvicting(states[k])
  {
    if k > 0 {
      RunEvicts(states, steps, k - 1);
      RunInv(states, steps, k - 1);
      assert Next(states[k - 1], steps[k - 1].t, steps[k - 1].e, states[k]);
      AllEvictingKept(states[k - 1], steps[k - 1].t, steps[k - 1].e, states[k]);
    }
  }

  /** When an invoke has relayed that its runtime had exited, the instance it used is in the map under no name: another
      call is about to stop it, or it has been stopped, once. So it is when an invoke goes on to its second attempt. */
  lemma DeadAreEvicted(s: State, t: Tid)
    requires Reachable(s) && t in s.threads && s.threads[t].frame.Invoke?
    requires var f := s.threads[t].frame;
             (f.phase == Finished(true) && f.last == Answered(true)) || (f.phase == InEnsure && f.attempt == 2)
    ensures var i := s.threads[t].frame.used;
            && (forall n :: !CachedAs(s, n, i))
            && ((exists u :: Stops(s, u, i) && u != t) || s.sh.stops[i] == 1)
  {
    var states, steps :| Run(states, steps) && states[|steps|] == s;
    RunEvicts(states, steps, |steps|);
    ReachableInv(s);
    assert Evicting(s.sh, s.threads[t]);
    GoneIsStopped(s, t, s.threads[t].frame.used);
  }

  lemma GoneIsStopped(s: State, t: Tid, i: Inst)
    requires Inv(s) && Gone(s.sh, i) && t in s.threads && s.threads[t].taken == []
    ensures (forall n :: !CachedAs(s, n, i)) && ((exists u :: Stops(s, u, i) && u != t) || s.sh.stops[i] == 1)
  {
    assert PlaceTrue(s, i);
    if s.sh.places[i].TakenOut? { assert Stops(s, s.sh.places[i].t, i); }
  }
}
