/** `router.Manager` and `Router.invoke` as the methods they are. Every statement of theirs takes one step of the
    lifecycle machine, so what is proved of its runs holds of them; what one call does when no other call is under way
    is stated here in full. */
module ManagerMethods {
  import opened Options
  import opened Lifecycle
  import opened LifecycleSafety
  import opened LifecycleTheorems
  import opened LifecycleEvictions

  const ME: Tid := 0

  ghost predicate Invariant(P: State -> bool) {
    && (forall s :: Init(s) ==> P(s))
    && (forall s, t, e, s' :: P(s) && Next(s, t, e, s') ==> P(s'))
  }

  /** The machine with one thread, in a state that has every invariant of the machine. */
  datatype Alone = Alone(sh: Shared, th: Thread)
  {
    function State(): State { Lifecycle.State(sh, map[ME := th]) }
  }
  type Reached = a: Alone | forall P :: Invariant(P) ==> P(a.State())
    ghost witness FirstState({})

  ghost function FirstState(known: set<Name>): (a: Alone)
    ensures forall P :: Invariant(P) ==> P(a.State())
    ensures a.th.pc == Idle && a.th.hand == None && a.th.taken == []
    ensures a.sh == Shared(known, map[], map[], [], map[], map[], [], [], multiset{}, [], 0)
  {
    var th := Thread(Ensure, Idle, "", "", 0, 0, None, None, [], true, 0, Direct);
    var a := Alone(Shared(known, map[], map[], [], map[], map[], [], [], multiset{}, [], 0), th);
    assert Init(a.State());
    a
  }

  ghost function AfterStep(a: Reached, e: Effect, th': Thread): (b: Reached)
    requires EffectOk(a.sh, e) && ProgStep(a.sh, a.th, e, th')
    ensures b == Alone(Apply(a.sh, ME, e), th')
  {
    var b := Alone(Apply(a.sh, ME, e), th');
    assert a.State().threads[ME := th'] == b.State().threads;
    assert Next(a.State(), ME, e, b.State());
    b
  }

  ghost function AfterExpiry(a: Reached): (b: Reached)
    requires a.th.frame.Invoke?
    ensures b == Alone(a.sh.(clock := a.sh.clock + 1), a.th.(frame := a.th.frame.(expired := true)))
  {
    var th' := a.th.(frame := a.th.frame.(expired := true));
    var b := Alone(Apply(a.sh, ME, Local), th');
    assert a.State().threads[ME := th'] == b.State().threads;
    assert Next(a.State(), ME, Local, b.State());
    b
  }

  lemma ReachedIsReachable(a: Reached)
    ensures Reachable(a.State())
  {
    var P := s => Reachable(s);
    forall s | Init(s) ensures P(s) { assert Run([s], []); }
    forall s, t, e, s' | P(s) && Next(s, t, e, s') ensures P(s') { ReachableNext(s, t, e, s'); }
    assert Invariant(P);
  }

  lemma ReachableNext(s: State, t: Tid, e: Effect, s': State)
    requires Reachable(s) && Next(s, t, e, s')
    ensures Reachable(s')
  {
    var states, steps :| Run(states, steps) && states[|steps|] == s;
    var states', steps' := states + [s'], steps + [Step(t, e)];
    forall k | 0 <= k < |steps'| ensures Next(states'[k], steps'[k].t, steps'[k].e, states'[k + 1]) {
      if k < |steps| { assert Next(states[k], steps[k].t, steps[k].e, states[k + 1]); }
    }
    assert Run(states', steps') && states'[|steps'|] == s';
  }

  // The next state, by the part of the program that the step is in.

  ghost function ByCall(a: Reached, e: Effect, th': Thread): (b: Reached)
    requires var pc := a.th.pc; pc.Idle? || pc.Check? || pc.AwaitStart? || pc.AwaitInvoke? || pc.Returned?
    requires EffectOk(a.sh, e) && CallStep(a.sh, a.th, e, th')
    ensures b == Alone(Apply(a.sh, ME, e), th')
  {
    AfterStep(a, e, th')
  }

  ghost function ByNamed(a: Reached, e: Effect, th': Thread): (b: Reached)
    requires a.th.pc.AtNamed?
    requires EffectOk(a.sh, e) && NamedStep(a.sh, a.th, e, th')
    ensures b == Alone(Apply(a.sh, ME, e), th')
  {
    AfterStep(a, e, th')
  }

  ghost function ByEnsure(a: Reached, e: Effect, th': Thread): (b: Reached)
    requires a.th.pc.AtEnsure?
    requires EffectOk(a.sh, e) && EnsureStep(a.sh, a.th, e, th')
    ensures b == Alone(Apply(a.sh, ME, e), th')
  {
    AfterStep(a, e, th')
  }

  ghost function ByBody(a: Reached, e: Effect, th': Thread): (b: Reached)
    requires a.th.pc.AtBody?
    requires EffectOk(a.sh, e) && BodyStep(a.th, e, th')
    ensures b == Alone(Apply(a.sh, ME, e), th')
  {
    AfterStep(a, e, th')
  }

  ghost function ByTake(a: Reached, e: Effect, th': Thread): (b: Reached)
    requires a.th.pc.AtTake?
    requires EffectOk(a.sh, e) && TakeStep(a.sh, a.th, e, th')
    ensures b == Alone(Apply(a.sh, ME, e), th')
  {
    AfterStep(a, e, th')
  }

  ghost function ByAll(a: Reached, e: Effect, th': Thread): (b: Reached)
    requires a.th.pc.AtStopAll?
    requires EffectOk(a.sh, e) && StopAllStep(a.sh, a.th, e, th')
    ensures b == Alone(Apply(a.sh, ME, e), th')
  {
    AfterStep(a, e, th')
  }

  class Manager {
    const known: set<Name>
    var starts: map<Name, MutexId>
    var invokes: map<Name, MutexId>
    var made: nat                     // the mutexes made so far
    var locked: set<Lock>             // the ones that are locked
    var instances: map<Name, Inst>
    var urls: seq<Url>                // what each started instance's InvokeURL says
    ghost var posts: seq<set<Lock>>   // the locks held at each POST
    ghost var at: Reached

    ghost predicate Valid()
      reads this
    {
      var sh := at.sh;
      && known == sh.known && starts == sh.starts && invokes == sh.invokes && made == |sh.mutexes|
      && locked == sh.owner.Keys && instances == sh.instances && urls == sh.urls
      && |sh.places| == |urls| && forall n :: n in instances ==> instances[n] < |urls|
    }

    constructor (known: set<Name>)
      ensures Valid() && this.known == known && locked == {} && instances == map[] && urls == []
      ensures at.th.pc == Idle && at.th.hand == None && at.th.taken == []
    {
      this.known, starts, invokes, made, locked, instances, urls := known, map[], map[], 0, {}, map[], [];
      posts := [];
      at := FirstState(known);
    }

    /** sync.Mutex.Lock on a mutex that is free, as the step that leads to the state `next`. */
    method Lock(l: Lock, ghost next: Reached)
      requires Valid() && l !in locked && next.sh == Apply(at.sh, ME, Acquire(l))
      modifies this`locked, this`at
      ensures Valid() && locked == old(locked) + {l} && at == next
    {
      locked, at := locked + {l}, next;
    }

    method Unlock(l: Lock, ghost next: Reached)
      requires Valid() && next.sh == Apply(at.sh, ME, Release(l))
      modifies this`locked, this`at
      ensures Valid() && locked == old(locked) - {l} && at == next
    {
      locked, at := locked - {l}, next;
    }

    function Mutexes(table: Table): map<Name, MutexId>
      reads this
    {
      match table case Starts => starts case Invokes => invokes
    }

    /** The locks stay as they were and no instance moves. */
    twostate predicate Quiet()
      reads this
    {
      && locked == old(locked) && instances == old(instances) && urls == old(urls) && at.sh.stops == old(at.sh.stops)
      && at.sh.known == old(at.sh.known) && posts == old(posts)
    }

    /** namedMutex: the mutex a table has for the name, made on first access and kept for it. */
    method NamedMutex(table: Table, name: Name) returns (mu: MutexId)
      requires Valid() && at.th.pc == AtNamed(AwaitMap, table) && at.th.name == name && MapMu !in locked
      modifies this
      ensures Valid() && Quiet() && Filed(table, name, mu)
      ensures at.th == SetMu(old(at.th), table, mu).(pc := if table == Starts then AwaitStart else AwaitInvoke)
    {
      Lock(MapMu, ByNamed(at, Acquire(MapMu), at.th.(pc := AtNamed(Lookup, table))));
      var mus := Mutexes(table);
      if name in mus {
        mu := mus[name];
        at := ByNamed(at, Local, SetMu(at.th, table, mu).(pc := AtNamed(LeaveMap, table)));
      } else {
        at := ByNamed(at, Local, at.th.(pc := AtNamed(AddMutex, table)));
        mu := NewMutexFor(table, name);
      }
      Unlock(MapMu, ByNamed(at, Release(MapMu), at.th.(pc := if table == Starts then AwaitStart else AwaitInvoke)));
    }

    /** The table has this mutex for the name: the one it had, or else a new one. Nothing else is filed. */
    twostate predicate Filed(table: Table, name: Name, mu: MutexId)
      reads this
    {
      && Mutexes(table) == old(Mutexes(table))[name := mu]
      && (mu == if name in old(Mutexes(table)) then old(Mutexes(table))[name] else old(made))
      && (table == Starts ==> invokes == old(invokes)) && (table == Invokes ==> starts == old(starts))
    }

    method NewMutexFor(table: Table, name: Name) returns (mu: MutexId)
      requires Valid() && at.th.pc == AtNamed(AddMutex, table) && at.th.name == name && name !in Mutexes(table)
      modifies this
      ensures Valid() && Quiet() && Filed(table, name, mu)
      ensures at.th == SetMu(old(at.th), table, mu).(pc := AtNamed(LeaveMap, table))
    {
      mu, made := made, made + 1;
      if table == Starts { starts := starts[name := mu]; } else { invokes := invokes[name := mu]; }
      at := ByNamed(at, NewMutex(table, name), SetMu(at.th, table, mu).(pc := AtNamed(LeaveMap, table)));
    }

    /** A call has just begun; a call has just returned. */
    ghost predicate Entered(op: Op, name: Name)
      reads this
    {
      at.th.pc == Check && at.th.op == op && at.th.name == name && at.th.hand == None && at.th.taken == [] && locked == {}
    }

    /** No call is under way. */
    ghost predicate Quit()
      reads this
    {
      at.th.pc == Idle && locked == {} && at.th.hand == None && at.th.taken == []
    }

    twostate predicate Left()
      reads this
    {
      && at.th.pc == Returned && at.th.op == old(at.th.op) && at.th.name == old(at.th.name) && locked == {}
      && at.th.frame == old(at.th.frame) && at.th.hand == None && at.th.taken == []
    }

    /** The instance in the map, read under instMu. */
    method ReadInstance(name: Name) returns (inst: Option<Inst>)
      requires Valid() && at.th.pc == AtEnsure(AwaitInst) && at.th.name == name && InstMu !in locked
      modifies this
      ensures Valid() && Quiet() && inst == if name in instances then Some(instances[name]) else None
      ensures at.th == old(at.th).(pc := AtEnsure(if inst.Some? then HitLeave else Resolve), found := inst)
    {
      Lock(InstMu, ByEnsure(at, Acquire(InstMu), at.th.(pc := AtEnsure(Read))));
      inst := if name in instances then Some(instances[name]) else None;
      at := ByEnsure(at, Local, at.th.(pc := AtEnsure(LeaveInst), found := inst));
      Unlock(InstMu, ByEnsure(at, Release(InstMu), at.th.(pc := AtEnsure(if inst.Some? then HitLeave else Resolve))));
    }

    /** The backend is resolved and starts an instance, or not. */
    method Start(name: Name, start: Option<Url>) returns (inst: Option<Inst>)
      requires Valid() && at.th.pc == AtEnsure(Resolve) && at.th.name == name && (start.Some? ==> start.value !in urls)
      modifies this
      ensures Valid() && locked == old(locked) && instances == old(instances) && at.sh.stops == old(at.sh.stops)
      ensures inst == if start.Some? then Some(|old(urls)|) else None
      ensures urls == old(urls) + if start.Some? then [start.value] else []
      ensures at.th == if start.Some? then old(at.th).(pc := AtEnsure(InsertAwaitInst), found := inst, hand := inst)
                       else old(at.th).(pc := AtEnsure(FailLeave))
    {
      at := ByEnsure(at, Local, at.th.(pc := AtEnsure(Starting)));
      if start == None {
        at := ByEnsure(at, Local, at.th.(pc := AtEnsure(FailLeave)));
        return None;
      }
      inst := Some(|urls|);
      at := ByEnsure(at, StartReturned(name, start.value), at.th.(pc := AtEnsure(InsertAwaitInst), found := inst,
          hand := inst));
      urls := urls + [start.value];
    }

    method InsertInstance(name: Name, inst: Inst)
      requires Valid() && at.th.pc == AtEnsure(InsertAwaitInst) && at.th.name == name && at.th.hand == Some(inst)
      requires InstMu !in locked && inst < |urls|
      modifies this
      ensures Valid() && locked == old(locked) && urls == old(urls) && at.sh.stops == old(at.sh.stops)
      ensures instances == old(instances)[name := inst]
      ensures at.th == old(at.th).(pc := AtEnsure(InsertLeave), hand := None)
    {
      Lock(InstMu, ByEnsure(at, Acquire(InstMu), at.th.(pc := AtEnsure(InsertInst))));
      Put(name, inst);
      Unlock(InstMu, ByEnsure(at, Release(InstMu), at.th.(pc := AtEnsure(InsertLeave))));
    }

    method Put(name: Name, inst: Inst)
      requires Valid() && at.th.pc == AtEnsure(InsertInst) && at.th.name == name && at.th.hand == Some(inst)
               && inst < |urls|
      modifies this`instances, this`at
      ensures Valid() && instances == old(instances)[name := inst] && at.sh.stops == old(at.sh.stops)
      ensures at.th == old(at.th).(pc := AtEnsure(InsertLeaveInst), hand := None)
    {
      instances := instances[name := inst];
      at := ByEnsure(at, Insert(name, inst), at.th.(pc := AtEnsure(InsertLeaveInst), hand := None));
    }

    /** Ensure's part under the start guard. */
    method EnsureLocked(name: Name, start: Option<Url>) returns (inst: Option<Inst>)
      requires Valid() && at.th.pc == AtEnsure(AwaitInst) && at.th.name == name && InstMu !in locked
      requires at.th.hand == None && (start.Some? ==> start.value !in urls)
      modifies this
      ensures Valid() && locked == old(locked) && at.sh.stops == old(at.sh.stops)
      ensures EnsureSpec(old(instances), old(urls), name, start, instances, urls, inst)
      ensures at.th.frame == old(at.th.frame) && at.th.op == old(at.th.op) && at.th.name == name
              && at.th.hand == old(at.th.hand)
              && at.th.taken == old(at.th.taken) && at.th.startMu == old(at.th.startMu)
      ensures inst.Some? ==> at.th.pc in {AtEnsure(HitLeave), AtEnsure(InsertLeave)} && at.th.found == inst
      ensures inst == None ==> at.th.pc == AtEnsure(FailLeave)
    {
      inst := ReadInstance(name);
      if inst.Some? { return; }
      inst := Start(name, start);
      if inst == None { return; }
      InsertInstance(name, inst.value);
    }

    /** Ensure, with what the backend gives if it is asked to start: a URL that no instance had before, or an error. */
    method Ensure(name: Name, start: Option<Url>) returns (url: Option<Url>)
      requires Valid() && Entered(Lifecycle.Ensure, name) && (start.Some? ==> start.value !in urls)
      modifies this
      ensures Valid() && Left() && at.th.ok == url.Some? && at.sh.stops == old(at.sh.stops)
      ensures name in known ==>
              EnsureSpec(old(instances), old(urls), name, start, instances, urls, if url.Some? then at.th.found else None)
      ensures name !in known ==> url == None && instances == old(instances) && urls == old(urls)
      ensures url.Some? ==> at.th.found.Some? && at.th.found.value < |urls| && url.value == urls[at.th.found.value]
    {
      if name !in known {
        at := ByCall(at, Local, at.th.(pc := Returned, ok := false));
        return None;
      }
      var inst := EnsureKnown(name, start);
      url := if inst.Some? then Some(urls[inst.value]) else None;
    }

    /** Ensure, of a function that there is. */
    method EnsureKnown(name: Name, start: Option<Url>) returns (inst: Option<Inst>)
      requires Valid() && Entered(Lifecycle.Ensure, name) && name in known && (start.Some? ==> start.value !in urls)
      modifies this
      ensures Valid() && Left() && at.th.ok == inst.Some? && at.sh.stops == old(at.sh.stops)
      ensures EnsureSpec(old(instances), old(urls), name, start, instances, urls, inst)
      ensures inst.Some? ==> at.th.found == inst
    {
      at := ByCall(at, Local, at.th.(pc := AtNamed(AwaitMap, Starts)));
      var mu := LockNamed(Starts, name);
      inst := EnsureLocked(name, start);
      Unlock(Lifecycle.Named(mu), ByEnsure(at, Release(Lifecycle.Named(mu)), at.th.(pc := Returned, ok := inst.Some?)));
    }

    /** m.namedMutex(...).Lock(): it is free, or another call of this thread would hold it. */
    method LockNamed(table: Table, name: Name) returns (mu: MutexId)
      requires Valid() && at.th.pc == AtNamed(AwaitMap, table) && at.th.name == name && MapMu !in locked
      requires forall l :: l in locked && l.Named? ==>
                 at.th.op == Lifecycle.Restart && table == Invokes && l == Lifecycle.Named(at.th.startMu)
      modifies this
      ensures Valid() && locked == old(locked) + {Lifecycle.Named(mu)} && Lifecycle.Named(mu) !in old(locked)
      ensures instances == old(instances) && urls == old(urls) && at.sh.stops == old(at.sh.stops) && posts == old(posts)
      ensures Filed(table, name, mu)
      ensures at.th == SetMu(old(at.th), table, mu).(pc := AfterLock(old(at.th).op, table))
    {
      mu := NamedMutex(table, name);
      MutexesDiffer(at);
      Lock(Lifecycle.Named(mu), ByCall(at, Acquire(Lifecycle.Named(mu)), at.th.(pc := AfterLock(at.th.op, table))));
    }

    /** Restart. `stopErr` is what the instance's Stop says, if it is called. */
    method Restart(name: Name, stopErr: bool) returns (ok: bool)
      requires Valid() && Entered(Lifecycle.Restart, name)
      modifies this
      ensures Valid() && Left() && urls == old(urls) && at.th.ok == ok
      ensures name !in known ==> !ok && instances == old(instances) && at.sh.stops == old(at.sh.stops)
      ensures name in known ==>
                && TakeSpec(old(instances), old(at.sh.stops), name, true, instances, at.sh.stops)
                && ok == (name in old(instances) ==> !stopErr)
    {
      if name !in known {
        at := ByCall(at, Local, at.th.(pc := Returned, ok := false));
        return false;
      }
      at := ByCall(at, Local, at.th.(pc := AtNamed(AwaitMap, Starts)));
      var startMu := LockNamed(Starts, name);
      ok := RestartLocked(name, stopErr);
      Unlock(Lifecycle.Named(startMu), ByTake(at, Release(Lifecycle.Named(startMu)), at.th.(pc := Returned)));
    }

    /** Restart's part under the start guard. */
    method RestartLocked(name: Name, stopErr: bool) returns (ok: bool)
      requires Valid() && at.th.op == Lifecycle.Restart && at.th.pc == AtNamed(AwaitMap, Invokes) && at.th.name == name
      requires locked == {Lifecycle.Named(at.th.startMu)} && at.th.taken == []
      modifies this
      ensures Valid() && locked == old(locked) && urls == old(urls)
      ensures TakeSpec(old(instances), old(at.sh.stops), name, true, instances, at.sh.stops)
      ensures ok == (name in old(instances) ==> !stopErr)
      ensures at.th == old(at.th).(pc := AtTake(LeaveStart), invokeMu := at.th.invokeMu, ok := ok)
    {
      var invokeMu := LockNamed(Invokes, name);
      var inst := TakeOut(name, None);
      ok := StopTaken(inst, stopErr);
      Unlock(Lifecycle.Named(invokeMu), ByTake(at, Release(Lifecycle.Named(invokeMu)), at.th.(pc := AtTake(LeaveStart))));
    }

    /** Discard. */
    method Discard(name: Name, invokeUrl: Url, stopErr: bool) returns (ok: bool)
      requires Valid() && Entered(Lifecycle.Discard, name) && at.th.url == invokeUrl
      modifies this
      ensures Valid() && Left() && urls == old(urls) && at.th.ok == ok
      ensures name !in known ==> !ok && instances == old(instances) && at.sh.stops == old(at.sh.stops)
      ensures name in known ==>
                var it := name in old(instances) && urls[old(instances)[name]] == invokeUrl;
                && TakeSpec(old(instances), old(at.sh.stops), name, it, instances, at.sh.stops)
                && ok == (it ==> !stopErr)
    {
      if name !in known {
        at := ByCall(at, Local, at.th.(pc := Returned, ok := false));
        return false;
      }
      at := ByCall(at, Local, at.th.(pc := AtNamed(AwaitMap, Starts)));
      var startMu := LockNamed(Starts, name);
      var inst := TakeOut(name, Some(invokeUrl));
      ok := StopTaken(inst, stopErr);
      Unlock(Lifecycle.Named(startMu), ByTake(at, Release(Lifecycle.Named(startMu)), at.th.(pc := Returned)));
    }

    /** The map's instance of that name, taken out under instMu, if there is one and, for Discard, its URL is the one
        given. */
    method TakeOut(name: Name, wanted: Option<Url>) returns (inst: Option<Inst>)
      requires Valid() && at.th.pc == AtTake(TakeAwaitInst) && at.th.name == name && InstMu !in locked
               && at.th.taken == []
      requires if wanted == None then at.th.op == Lifecycle.Restart
               else at.th.op == Lifecycle.Discard && wanted.value == at.th.url
      modifies this
      ensures Valid() && locked == old(locked) && urls == old(urls) && at.sh.stops == old(at.sh.stops)
      ensures inst == if name in old(instances) && (wanted == None || urls[old(instances)[name]] == wanted.value)
                      then Some(old(instances)[name]) else None
      ensures instances == if inst.Some? then old(instances) - {name} else old(instances)
      ensures at.th == if inst.Some? then old(at.th).(pc := AtTake(CallStop), taken := [inst.value])
                       else old(at.th).(pc := AtTake(Leaving(at.th.op)), ok := true)
    {
      Lock(InstMu, ByTake(at, Acquire(InstMu), at.th.(pc := AtTake(Take))));
      inst := TakeIf(name, wanted);
      Unlock(InstMu, ByTake(at, Release(InstMu), if inst.Some? then at.th.(pc := AtTake(CallStop))
                                                 else at.th.(pc := AtTake(Leaving(at.th.op)), ok := true)));
    }

    method TakeIf(name: Name, wanted: Option<Url>) returns (inst: Option<Inst>)
      requires Valid() && at.th.pc == AtTake(Take) && at.th.name == name && at.th.taken == []
      requires if wanted == None then at.th.op == Lifecycle.Restart
               else at.th.op == Lifecycle.Discard && wanted.value == at.th.url
      modifies this`instances, this`at
      ensures Valid() && at.sh.stops == old(at.sh.stops)
      ensures inst == if name in old(instances) && (wanted == None || urls[old(instances)[name]] == wanted.value)
                      then Some(old(instances)[name]) else None
      ensures instances == if inst.Some? then old(instances) - {name} else old(instances)
      ensures at.th == old(at.th).(pc := AtTake(TakeLeaveInst), taken := if inst.Some? then [inst.value] else [])
    {
      inst := if name in instances then Some(instances[name]) else None;
      if inst.Some? && (wanted == None || urls[inst.value] == wanted.value) {
        instances := instances - {name};
        at := ByTake(at, Remove(name, inst.value, CauseOf(at.th)), at.th.(pc := AtTake(TakeLeaveInst),
            taken := [inst.value]));
      } else {
        inst := None;
        at := ByTake(at, Local, at.th.(pc := AtTake(TakeLeaveInst)));
      }
    }

    /** What was taken out is stopped, outside instMu. */
    method StopTaken(inst: Option<Inst>, stopErr: bool) returns (ok: bool)
      requires Valid() && at.th.pc == AtTake(if inst.Some? then CallStop else Leaving(at.th.op))
      requires at.th.taken == if inst.Some? then [inst.value] else []
      requires (inst.Some? ==> inst.value < |urls|) && (inst == None ==> at.th.ok)
      modifies this`at
      ensures Valid() && at.sh.stops == old(at.sh.stops) + if inst.Some? then multiset{inst.value} else multiset{}
      ensures ok == (inst.Some? ==> !stopErr)
      ensures at.th == old(at.th).(pc := AtTake(Leaving(at.th.op)), taken := [], ok := ok)
    {
      if inst == None { return true; }
      at := ByTake(at, StopCalled(inst.value), at.th.(pc := AtTake(Stopping), taken := []));
      at := ByTake(at, Local, at.th.(pc := AtTake(Leaving(at.th.op)), ok := !stopErr));
      ok := !stopErr;
    }

    /** StopAll: the map is emptied under instMu, then everything that was in it is stopped, whatever fails. */
    method StopAll(failing: set<Inst>) returns (ok: bool)
      requires Valid() && Entered(Lifecycle.StopAll, at.th.name)
      modifies this
      ensures Valid() && Left() && urls == old(urls) && instances == map[]
      ensures forall i :: at.sh.stops[i] == old(at.sh.stops)[i] + if i in old(instances).Values then 1 else 0
      ensures ok == at.th.ok == (old(instances).Values !! failing)
    {
      at := ByCall(at, Local, at.th.(pc := AtStopAll(AllAwaitInst)));
      var insts := TakeAll();
      ghost var stops := at.sh.stops;
      ok := StopEach(insts, failing);
      StoppedOnce(at, stops, insts);
    }

    method StopEach(insts: seq<Inst>, failing: set<Inst>) returns (ok: bool)
      requires Valid() && at.th.pc == AtStopAll(AllCallStop) && at.th.taken == insts
               && forall i :: i in insts ==> i < |urls|
      modifies this`at
      ensures Valid() && at.th == old(at.th).(pc := Returned, taken := [], ok := ok)
      ensures at.sh.stops == old(at.sh.stops) + multiset(insts)
      ensures ok == forall i :: i in insts ==> i !in failing
    {
      var errs := 0;
      for k := 0 to |insts|
        invariant Valid() && at.th == old(at.th).(taken := insts[k..])
        invariant at.sh.stops == old(at.sh.stops) + multiset(insts[..k])
        invariant errs == 0 <==> forall i :: i in insts[..k] ==> i !in failing
      {
        assert insts[k] in insts && insts[..k + 1] == insts[..k] + [insts[k]];
        StopOne(insts[k]);
        if insts[k] in failing { errs := errs + 1; }
      }
      ok := errs == 0;
      assert insts[..|insts|] == insts;
      at := ByAll(at, Local, at.th.(pc := Returned, ok := ok));
    }

    /** The map's instances, all taken out under instMu, in the map's arbitrary order. */
    method TakeAll() returns (insts: seq<Inst>)
      requires Valid() && at.th.pc == AtStopAll(AllAwaitInst) && locked == {} && at.th.taken == []
      modifies this
      ensures Valid() && locked == {} && urls == old(urls) && instances == map[] && at.sh.stops == old(at.sh.stops)
      ensures at.th == old(at.th).(pc := AtStopAll(AllCallStop), taken := insts)
      ensures forall i :: i in insts <==> i in old(instances).Values
      ensures forall i :: i in insts ==> i < |urls|
    {
      insts := [];
      Lock(InstMu, ByAll(at, Acquire(InstMu), at.th.(pc := AtStopAll(AllTake))));
      while instances != map[]
        invariant Valid() && locked == {InstMu} && urls == old(urls) && at.sh.stops == old(at.sh.stops)
        invariant at.th == old(at.th).(pc := AtStopAll(AllTake), taken := insts)
        invariant forall i :: i in insts || i in instances.Values <==> i in old(instances).Values
        decreases instances.Keys
      {
        var inst := TakeAny();
        insts := insts + [inst];
      }
      at := ByAll(at, Local, at.th.(pc := AtStopAll(AllLeaveInst)));
      Unlock(InstMu, ByAll(at, Release(InstMu), at.th.(pc := AtStopAll(AllCallStop))));
    }

    method TakeAny() returns (inst: Inst)
      requires Valid() && at.th.pc == AtStopAll(AllTake) && instances != map[]
      modifies this`instances, this`at
      ensures Valid() && at.sh.stops == old(at.sh.stops) && at.th == old(at.th).(taken := old(at.th.taken) + [inst])
      ensures instances.Values + {inst} == old(instances).Values && instances.Keys < old(instances).Keys
    {
      var name :| name in instances;
      inst := instances[name];
      ValuesWithout(instances, name);
      instances := instances - {name};
      at := ByAll(at, Remove(name, inst, ByStopAll), at.th.(taken := at.th.taken + [inst]));
    }

    method StopOne(inst: Inst)
      requires Valid() && at.th.pc == AtStopAll(AllCallStop) && at.th.taken != [] && inst == at.th.taken[0]
               && inst < |urls|
      modifies this`at
      ensures Valid() && at.sh.stops == old(at.sh.stops) + multiset{inst}
      ensures at.th == old(at.th).(taken := old(at.th.taken)[1..])
    {
      at := ByAll(at, StopCalled(inst), at.th.(pc := AtStopAll(AllStopping), taken := at.th.taken[1..]));
      at := ByAll(at, Local, at.th.(pc := AtStopAll(AllCallStop)));
    }

    /** WithLock, around one POST that ends so and reaches so many runtimes: exactly the name's invoke lock is held when
        it is sent, and none is afterwards. */
    method WithLock(name: Name, o: Outcome, reached: nat)
      requires Valid() && Entered(Lifecycle.WithLock, name) && at.th.frame.Invoke? && MayReach(o, reached)
      modifies this
      ensures Valid() && locked == {} && instances == old(instances) && urls == old(urls)
      ensures at.sh.stops == old(at.sh.stops) && at.sh.known == old(at.sh.known)
      ensures name in invokes && posts == old(posts) + if o.BuildFailed? then [] else [{Lifecycle.Named(invokes[name])}]
      ensures at.th == old(at.th).(pc := Returned, ok := true, invokeMu := at.th.invokeMu,
              frame := Posted(old(at.th.frame), o, reached))
    {
      at := ByCall(at, Local, at.th.(pc := AtNamed(AwaitMap, Invokes)));
      var mu := LockNamed(Invokes, name);
      assert locked == {Lifecycle.Named(mu)};
      PostLocked(mu, o, reached);
    }

    /** WithLock's part under the invoke lock. */
    method PostLocked(mu: MutexId, o: Outcome, ghost reached: nat)
      requires Valid() && at.th.pc == AtBody(Enter) && at.th.invokeMu == mu && locked == {Lifecycle.Named(mu)}
      requires at.th.frame.Invoke? && MayReach(o, reached)
      modifies this`locked, this`at, this`posts
      ensures Valid() && locked == {} && at.sh.stops == old(at.sh.stops) && at.sh.known == old(at.sh.known)
      ensures posts == old(posts) + if o.BuildFailed? then [] else [{Lifecycle.Named(mu)}]
      ensures at.th == old(at.th).(pc := Returned, ok := true, frame := Posted(old(at.th.frame), o, reached))
    {
      Post(o, reached);
      Unlock(Lifecycle.Named(mu), ByBody(at, Release(Lifecycle.Named(mu)), at.th.(pc := Returned, ok := true)));
    }

    /** doInvoke. */
    method Post(o: Outcome, ghost reached: nat)
      requires Valid() && at.th.pc == AtBody(Enter) && at.th.frame.Invoke? && MayReach(o, reached)
      modifies this`at, this`posts
      ensures Valid() && at.sh.stops == old(at.sh.stops) && at.sh.known == old(at.sh.known)
      ensures posts == old(posts) + if o.BuildFailed? then [] else [locked]
      ensures at.th == old(at.th).(pc := AtBody(LeaveBody), frame := Posted(old(at.th.frame), o, reached))
    {
      if o.BuildFailed? {
        at := ByBody(at, Local, at.th.(pc := AtBody(LeaveBody), frame := at.th.frame.(last := o)));
        return;
      }
      posts := posts + [locked];
      at := ByBody(at, Local, at.th.(pc := AtBody(Posting), frame := at.th.frame.(posts := at.th.frame.posts + 1)));
      at := ByBody(at, Local, at.th.(pc := AtBody(LeaveBody), frame := at.th.frame.(last := o,
          reached := at.th.frame.reached + reached)));
    }

    /** An invoke begins, with its first Ensure. */
    ghost method Begin(name: Name)
      requires Valid() && at.th.pc == Idle && locked == {}
      modifies this`at
      ensures Valid() && Entered(Lifecycle.Ensure, name) && at.sh == old(at.sh).(clock := old(at.sh).clock + 1)
      ensures at.th.frame == Invoke(InEnsure, 1, false, false, 0, BuildFailed, 0, 0)
    {
      at := ByCall(at, Local, Thread(Lifecycle.Ensure, Check, name, "", 0, 0, None, None, [], true, at.sh.clock,
                                     Invoke(InEnsure, 1, false, false, 0, BuildFailed, 0, 0)));
    }

    /** Its time runs out. */
    ghost method Expire()
      requires Valid() && at.th.frame.Invoke?
      modifies this`at
      ensures Valid() && at == Alone(old(at.sh).(clock := old(at.sh).clock + 1),
              old(at.th).(frame := old(at.th.frame).(expired := true)))
    {
      at := AfterExpiry(at);
    }

    /** One call of an invoke is over, and the next begins, or the invoke ends. */
    ghost method Return()
      requires Valid() && at.th.pc == Returned && at.th.frame.Invoke?
      modifies this`at
      ensures Valid() && at.th == Advance(old(at.sh), old(at.th)) && at.sh == old(at.sh).(clock := old(at.sh).clock + 1)
    {
      at := ByCall(at, Local, Advance(at.sh, at.th));
    }
  }

  function Posted(f: Frame, o: Outcome, reached: nat): (f': Frame)
    requires f.Invoke?
    ensures f'.Invoke?
  {
    f.(last := o, posts := f.posts + if o.BuildFailed? then 0 else 1, reached := f.reached + reached)
  }

  function Leaving(op: Op): TakePc { if op == Restart then LeaveInvoke else LeaveStart }

  /** What Restart and Discard do alone: the instance they take is forgotten and stopped once, any other stays. */
  predicate TakeSpec(instances: map<Name, Inst>, stops: multiset<Inst>, name: Name, takes: bool,
                     instances': map<Name, Inst>, stops': multiset<Inst>)
  {
    if takes && name in instances
    then instances' == instances - {name} && stops' == stops + multiset{instances[name]}
    else instances' == instances && stops' == stops
  }

  lemma ValuesWithout(m: map<Name, Inst>, n: Name)
    requires n in m
    ensures (m - {n}).Values + {m[n]} == m.Values
  {
    forall i | i in m.Values ensures i in (m - {n}).Values + {m[n]} {
      var k :| k in m && m[k] == i;
      if k != n { assert (m - {n})[k] == i; }
    }
  }

  lemma ValuesWith(m: map<Name, Inst>, n: Name, i: Inst)
    requires n !in m
    ensures m[n := i].Values == m.Values + {i}
  {
    forall j | j in m.Values + {i} ensures j in m[n := i].Values {
      if j == i {
        assert m[n := i][n] == i;
      } else {
        var k :| k in m && m[k] == j;
        assert m[n := i][k] == j;
      }
    }
  }

  /** Nothing is stopped twice, so every one of these was stopped once, and only now. */
  lemma StoppedOnce(a: Reached, before: multiset<Inst>, insts: seq<Inst>)
    requires a.sh.stops == before + multiset(insts)
    ensures forall i :: a.sh.stops[i] == before[i] + if i in insts then 1 else 0
  {
    ReachedIsReachable(a);
    forall i ensures a.sh.stops[i] == before[i] + if i in insts then 1 else 0 {
      StoppedAtMostOnce(a.State(), i);
      if i in insts { assert multiset(insts)[i] > 0; }
    }
  }

  function AfterLock(op: Op, table: Table): Pc {
    if table == Starts then
      match op
      case Ensure => AtEnsure(AwaitInst)
      case Restart => AtNamed(AwaitMap, Invokes)
      case _ => AtTake(TakeAwaitInst)
    else if op == Restart then AtTake(TakeAwaitInst) else AtBody(Enter)
  }

  /** A name's two mutexes are two. */
  lemma MutexesDiffer(a: Reached)
    ensures a.th.op == Restart && a.th.pc.AwaitInvoke? ==> a.th.startMu != a.th.invokeMu
  {
    ReachedIsReachable(a);
    ReachableInv(a.State());
    assert LookedUp(a.sh, a.State().threads[ME]);
  }

  /** What Ensure does alone: an instance that is there is returned, and nothing starts; otherwise one starts and is
      kept, or the failure is not. */
  predicate EnsureSpec(instances: map<Name, Inst>, urls: seq<Url>, name: Name, start: Option<Url>,
                       instances': map<Name, Inst>, urls': seq<Url>, inst: Option<Inst>)
  {
    if name in instances then inst == Some(instances[name]) && instances' == instances && urls' == urls
    else if start == None then inst == None && instances' == instances && urls' == urls
    else inst == Some(|urls|) && instances' == instances[name := |urls|] && urls' == urls + [start.value]
  }

  // ---------------------------------------------------------------------------------------------
  // Router.invoke
  // ---------------------------------------------------------------------------------------------

  /** What one attempt meets: a backend that starts or not if it is asked to, and how the POST ends. */
  datatype Try = Try(start: Option<Url>, post: Outcome, reached: nat)

  /** What the calls of one invoke change, by themselves. */
  datatype Ledger = Ledger(instances: map<Name, Inst>, urls: seq<Url>, stops: multiset<Inst>)

  function StartedBy(h: Ledger, name: Name, start: Option<Url>): (Ledger, Option<Inst>) {
    if name in h.instances then (h, Some(h.instances[name]))
    else if start == None then (h, None)
    else (h.(instances := h.instances[name := |h.urls|], urls := h.urls + [start.value]), Some(|h.urls|))
  }

  function Evicted(h: Ledger, name: Name): Ledger
    requires name in h.instances
  {
    h.(instances := h.instances - {name}, stops := h.stops + multiset{h.instances[name]})
  }

  /** The instance is evicted if it answered that its runtime had exited; only an answer is relayed. */
  function Settle(h: Ledger, name: Name, o: Outcome): (Ledger, Option<Outcome>)
    requires name in h.instances
  {
    if !o.Answered? then (h, None) else (if o.exit then Evicted(h, name) else h, Some(o))
  }

  /** The attempts of one invoke, alone: the second is made only after the first could not reach its instance in time
      left, and always against an instance started anew. */
  function Attempted(h: Ledger, known: set<Name>, name: Name, first: Try, second: Try, expired: bool):
      (r: (Ledger, Option<Inst>, Outcome))
    ensures r.1.Some? ==> name in r.0.instances
  {
    if name !in known then (h, None, first.post) else
      var (h1, i) := StartedBy(h, name, first.start);
      if i == None then (h1, None, first.post)
      else if first.post != DoFailed(false) || expired then (h1, i, first.post)
      else
        var (h2, j) := StartedBy(Evicted(h1, name), name, second.start);
        (h2, j, second.post)
  }

  /** One invoke, alone. */
  function Invoked(h: Ledger, known: set<Name>, name: Name, first: Try, second: Try, expired: bool):
      (Ledger, Option<Outcome>) {
    var (h', i, o) := Attempted(h, known, name, first, second, expired);
    if i == None then (h', None) else Settle(h', name, o)
  }

  /** What an invoke comes to, by what it meets: who answers, what was found dead and is taken out and stopped, and what
      is kept. */
  lemma InvokedMeans(h: Ledger, name: Name, first: Try, second: Try, expired: bool)
    ensures var (h', a) := Invoked(h, {name}, name, first, second, expired);
            var unreached := first.post == DoFailed(false) && !expired;
            var there := name in h.instances || first.start.Some?;
            && (!there ==> a == None && h' == h)
            && (there && !unreached ==>
                  && a == (if first.post.Answered? then Some(first.post) else None)
                  && (name in h'.instances <==> first.post != Answered(true))
                  && h'.urls == h.urls + (if name in h.instances then [] else [first.start.value]))
            && (there && unreached ==>
                  && a == (if second.start.Some? && second.post.Answered? then Some(second.post) else None)
                  && (name in h'.instances <==> second.start.Some? && second.post != Answered(true)))
  {
  }

  /** Each instance ever started is in the map under one name, or has been stopped once. */
  ghost predicate Balanced(h: Ledger) {
    && (forall n :: n in h.instances ==> h.instances[n] < |h.urls|)
    && (forall n, m :: n in h.instances && m in h.instances && h.instances[n] == h.instances[m] ==> n == m)
    && (forall i: Inst :: h.stops[i] == if i < |h.urls| && i !in h.instances.Values then 1 else 0)
  }

  /** Only this name's instance is another, and only new ones have been started. */
  ghost predicate OthersStay(h: Ledger, h': Ledger, name: Name) {
    h.urls <= h'.urls && h'.instances - {name} == h.instances - {name}
  }

  lemma StartBalances(h: Ledger, name: Name, start: Option<Url>)
    requires Balanced(h)
    ensures var h' := StartedBy(h, name, start).0; Balanced(h') && OthersStay(h, h', name)
  {
    if name !in h.instances && start.Some? {
      var i := |h.urls|;
      ValuesWith(h.instances, name, i);
      assert h.instances[name := i] - {name} == h.instances - {name};
    }
  }

  lemma EvictionBalances(h: Ledger, name: Name)
    requires Balanced(h) && name in h.instances
    ensures Balanced(Evicted(h, name)) && OthersStay(h, Evicted(h, name), name)
  {
    ValuesWithout(h.instances, name);
    assert h.instances[name] !in (h.instances - {name}).Values;
  }

  lemma OthersStayTwice(a: Ledger, b: Ledger, c: Ledger, name: Name)
    requires OthersStay(a, b, name) && OthersStay(b, c, name)
    ensures OthersStay(a, c, name)
  {
  }

  lemma RetryBalances(h: Ledger, h1: Ledger, name: Name, start: Option<Url>)
    requires Balanced(h1) && OthersStay(h, h1, name) && name in h1.instances
    ensures var h3 := StartedBy(Evicted(h1, name), name, start).0; Balanced(h3) && OthersStay(h, h3, name)
  {
    var h2 := Evicted(h1, name);
    EvictionBalances(h1, name);
    StartBalances(h2, name, start);
    OthersStayTwice(h, h1, h2, name);
    OthersStayTwice(h, h2, StartedBy(h2, name, start).0, name);
  }

  lemma AttemptedBalances(h: Ledger, known: set<Name>, name: Name, first: Try, second: Try, expired: bool)
    requires Balanced(h)
    ensures var h' := Attempted(h, known, name, first, second, expired).0; Balanced(h') && OthersStay(h, h', name)
  {
    var (h1, i) := StartedBy(h, name, first.start);
    StartBalances(h, name, first.start);
    if i.Some? { RetryBalances(h, h1, name, second.start); }
  }

  /** Whatever an invoke comes to, no instance is lost or stopped twice, and those of other names stay. */
  lemma InvokedBalances(h: Ledger, known: set<Name>, name: Name, first: Try, second: Try, expired: bool)
    requires Balanced(h)
    ensures var h' := Invoked(h, known, name, first, second, expired).0; Balanced(h') && OthersStay(h, h', name)
  {
    AttemptedBalances(h, known, name, first, second, expired);
    var (h1, i, _) := Attempted(h, known, name, first, second, expired);
    if i.Some? {
      EvictionBalances(h1, name);
      OthersStayTwice(h, h1, Evicted(h1, name), name);
    }
  }

  lemma CachedIsValue(sh: Shared, s: State, i: Inst)
    requires s.sh == sh
    ensures i in sh.instances.Values <==> exists n :: CachedAs(s, n, i)
  {
    if i in sh.instances.Values {
      var n :| n in sh.instances && sh.instances[n] == i;
      assert CachedAs(s, n, i);
    }
    if n :| CachedAs(s, n, i) { assert sh.instances[n] == i; }
  }

  /** The manager's own books are balanced whenever no call is under way. */
  lemma BooksAreBalanced(a: Reached)
    requires a.th.hand == None && a.th.taken == []
    ensures Balanced(Ledger(a.sh.instances, a.sh.urls, a.sh.stops))
  {
    ReachedIsReachable(a);
    ReachableInv(a.State());
    forall i: Inst ensures a.sh.stops[i] == if i < |a.sh.urls| && i !in a.sh.instances.Values then 1 else 0 {
      StoppedAtMostOnce(a.State(), i);
      if i < |a.sh.urls| {
        ExactlyOnePlace(a.State(), i);
        CachedIsValue(a.sh, a.State(), i);
      }
    }
    forall n, m | n in a.sh.instances && m in a.sh.instances && a.sh.instances[n] == a.sh.instances[m] ensures n == m {
      assert PlaceTrue(a.State(), a.sh.instances[n]);
    }
  }

  lemma ExitIsForgotten(h: Ledger, known: set<Name>, name: Name, first: Try, second: Try, expired: bool)
    ensures var (h', a) := Invoked(h, known, name, first, second, expired);
            a == Some(Answered(true)) ==> name !in h'.instances
  {
  }

  lemma ReachesOneRuntime(a: Reached)
    requires a.th.frame.Invoke?
    ensures var f := a.th.frame; f.posts <= 2 && f.reached <= 1 && (f.phase == Finished(true) ==> f.reached == 1)
  {
    ReachedIsReachable(a);
    BodyReachesOneRuntime(a.State(), ME);
  }

  /** An instance whose runtime has exited is in the map under no name, and has been stopped. */
  lemma DeadIsStopped(a: Reached)
    requires a.th.frame.Invoke? && a.th.frame.phase == Finished(true) && a.th.frame.last == Answered(true)
    ensures a.th.frame.used !in a.sh.instances.Values && a.sh.stops[a.th.frame.used] == 1
  {
    ReachedIsReachable(a);
    DeadAreEvicted(a.State(), ME);
    forall n | n in a.sh.instances ensures a.sh.instances[n] != a.th.frame.used {
      assert !CachedAs(a.State(), n, a.th.frame.used);
    }
  }

  /** The POST of this attempt has ended. */
  predicate Awaits(f: Frame, used: Inst, attempt: nat) {
    f.Invoke? && f.phase == InPost && f.used == used && f.attempt == attempt
  }

  class Router {
    const mgr: Manager

    constructor (mgr: Manager)
      ensures this.mgr == mgr
    {
      this.mgr := mgr;
    }

    ghost function Books(): Ledger
      reads this, mgr
    {
      Ledger(mgr.instances, mgr.urls, mgr.at.sh.stops)
    }

    /** attempt: Ensure, then one POST under the invoke lock. */
    method Attempt(name: Name, t: Try) returns (inst: Option<Inst>)
      requires mgr.Valid() && mgr.Entered(Ensure, name) && MayReach(t.post, t.reached)
      requires mgr.at.th.frame.Invoke? && mgr.at.th.frame.phase == InEnsure
      requires t.start.Some? ==> t.start.value !in mgr.urls
      modifies mgr
      ensures mgr.Valid() && mgr.locked == {} && mgr.at.th.name == name && mgr.at.th.hand == None && mgr.at.th.taken == []
      ensures name !in mgr.known ==> inst == None && Books() == old(Books())
      ensures name in mgr.known ==> (Books(), inst) == StartedBy(old(Books()), name, t.start)
      ensures inst == None ==> mgr.at.th.pc == Idle && mgr.at.th.frame == old(mgr.at.th.frame).(phase := Finished(false))
      ensures inst.Some? ==>
                && mgr.at.th.pc == Returned && inst.value < |mgr.urls|
                && mgr.at.th.frame == Posted(old(mgr.at.th.frame).(used := inst.value, phase := InPost), t.post,
                    t.reached)
    {
      var url := mgr.Ensure(name, t.start);
      ghost var found := mgr.at.th.found;
      mgr.Return();
      if url == None { return None; }
      mgr.WithLock(name, t.post, t.reached);
      inst := Some(mgr.instances[name]);
    }

    /** Discard of the instance an attempt used. */
    method Evict(name: Name, stopErr: bool)
      requires mgr.Valid() && mgr.Entered(Discard, name) && name in mgr.known && name in mgr.instances
      requires mgr.at.th.frame.Invoke? && mgr.at.th.url == mgr.urls[mgr.instances[name]]
      modifies mgr
      ensures mgr.Valid() && mgr.Left() && Books() == Evicted(old(Books()), name)
    {
      var url := mgr.urls[mgr.instances[name]];
      var ok := mgr.Discard(name, url, stopErr);
    }

    /** invoke, once its first POST has not reached the instance: that one is discarded, and a new one is tried. */
    method Retry(name: Name, used: Inst, second: Try, stopErr: bool) returns (inst: Option<Inst>)
      requires mgr.Valid() && mgr.locked == {} && mgr.at.th.hand == None && mgr.at.th.taken == []
      requires name in mgr.known && name in mgr.instances && mgr.instances[name] == used
      requires mgr.at.th.pc == Returned && mgr.at.th.name == name && mgr.at.th.frame.Invoke?
               && MayReach(second.post, second.reached)
      requires Awaits(mgr.at.th.frame, used, 1) && TransportFailure(mgr.at.th.frame.last, mgr.at.th.frame.expired)
      requires second.start.Some? ==> second.start.value !in mgr.urls
      modifies mgr
      ensures mgr.Valid() && mgr.locked == {} && mgr.at.th.name == name && mgr.at.th.hand == None && mgr.at.th.taken == []
      ensures mgr.at.th.frame.Invoke?
      ensures (Books(), inst) == StartedBy(Evicted(old(Books()), name), name, second.start)
      ensures inst == None ==> mgr.Quit() && mgr.at.th.frame.phase == Finished(false)
      ensures inst.Some? ==>
                && mgr.at.th.pc == Returned && Awaits(mgr.at.th.frame, inst.value, 2)
                && mgr.at.th.frame.last == second.post
    {
      mgr.Return();
      Evict(name, stopErr);
      mgr.Return();
      inst := Attempt(name, second);
    }

    /** invoke, once the POST that counts has ended: an answer is relayed, and evicts if it is a runtime's exit. */
    method Relay(name: Name, inst: Inst, o: Outcome, stopErr: bool) returns (answer: Option<Outcome>)
      requires mgr.Valid() && mgr.locked == {} && mgr.at.th.hand == None && mgr.at.th.taken == []
      requires name in mgr.known && name in mgr.instances && mgr.instances[name] == inst
      requires mgr.at.th.pc == Returned && mgr.at.th.name == name && mgr.at.th.frame.Invoke?
      requires mgr.at.th.frame.phase == InPost && mgr.at.th.frame.used == inst && mgr.at.th.frame.last == o
      requires mgr.at.th.frame.attempt == 1 ==> !TransportFailure(o, mgr.at.th.frame.expired)
      modifies mgr
      ensures mgr.Valid() && mgr.Quit() && mgr.at.th.frame.Invoke?
      ensures (Books(), answer) == Settle(old(Books()), name, o)
      ensures mgr.at.th.frame == old(mgr.at.th.frame).(phase := Finished(answer.Some?), late := mgr.at.th.frame.late)
      ensures answer.Some? ==> answer == Some(o)
    {
      mgr.Return();
      if !o.Answered? { return None; }
      if o.exit {
        Evict(name, stopErr);
        mgr.Return();
      }
      answer := Some(o);
    }

    /** invoke's attempts: the instance of the last one, if there is one, and how its POST ended. */
    method Attempts(name: Name, first: Try, second: Try, expired: bool, stopErr: bool)
      returns (inst: Option<Inst>, o: Outcome)
      requires mgr.Valid() && mgr.Quit() && MayReach(first.post, first.reached) && MayReach(second.post, second.reached)
      requires first.start.Some? ==> first.start.value !in mgr.urls
      requires second.start.Some? ==> second.start.value !in mgr.urls && second.start != first.start
      modifies mgr
      ensures mgr.Valid() && mgr.locked == {} && mgr.at.th.hand == None && mgr.at.th.taken == []
      ensures mgr.at.th.frame.Invoke? && mgr.at.th.name == name
      ensures (Books(), inst, o) == Attempted(old(Books()), mgr.known, name, first, second, expired)
      ensures inst == None ==> mgr.Quit() && mgr.at.th.frame.phase == Finished(false)
      ensures inst.Some? ==>
                && name in mgr.known && name in mgr.instances && mgr.instances[name] == inst.value
                && mgr.at.th.pc == Returned && Awaits(mgr.at.th.frame, inst.value, mgr.at.th.frame.attempt)
                && mgr.at.th.frame.last == o
                && (mgr.at.th.frame.attempt == 1 ==> !TransportFailure(o, mgr.at.th.frame.expired))
    {
      mgr.Begin(name);
      o := first.post;
      inst := Attempt(name, first);
      if inst.Some? && expired { mgr.Expire(); }
      if inst.Some? && TransportFailure(o, expired) {
        inst := Retry(name, inst.value, second, stopErr);
        o := second.post;
      }
    }

    /** invoke, for what its attempts meet and for its time running out during the first. */
    method Invoke(name: Name, first: Try, second: Try, expired: bool, stopErr: bool) returns (answer: Option<Outcome>)
      requires mgr.Valid() && mgr.Quit() && MayReach(first.post, first.reached) && MayReach(second.post, second.reached)
      requires first.start.Some? ==> first.start.value !in mgr.urls
      requires second.start.Some? ==> second.start.value !in mgr.urls && second.start != first.start
      modifies mgr
      ensures mgr.Valid() && mgr.Quit() && mgr.at.th.frame.Invoke?
      ensures (Books(), answer) == Invoked(old(Books()), mgr.known, name, first, second, expired)
      ensures mgr.at.th.frame.posts <= 2 && mgr.at.th.frame.reached <= 1
              && (answer.Some? ==> mgr.at.th.frame.reached == 1)
      ensures answer == Some(Answered(true)) ==>
                && name !in mgr.instances
                && mgr.at.th.frame.used !in mgr.instances.Values && mgr.at.sh.stops[mgr.at.th.frame.used] == 1
    {
      var inst, o := Attempts(name, first, second, expired, stopErr);
      answer := None;
      if inst.Some? { answer := Relay(name, inst.value, o, stopErr); }
      ReachesOneRuntime(mgr.at);
      if answer == Some(Answered(true)) {
        DeadIsStopped(mgr.at);
        ExitIsForgotten(old(Books()), mgr.known, name, first, second, expired);
      }
    }
  }
}
