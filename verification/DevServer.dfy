/** `lambdary dev`: a server that swaps its manager, handler and watch for new ones on every structural change, while
    requests go on. */
module DevServer {
  import opened Options
  import WatchChannel

  type MgrId = nat      // managers are numbered in the order buildStack made them
  type WatchId = nat
  type FnSet = nat      // a function set, by what it was discovered from

  /** What happens, in the order it happens. */
  datatype Event =
    | StartedOn(m: MgrId)                           // a manager starts an instance
    | StopCalled(m: MgrId) | StopReturned(m: MgrId) // its StopAll
    | Stored(m: MgrId)                              // requests from here on are routed to its handler

  // ---------------------------------------------------------------------------------------------
  // What a history says
  // ---------------------------------------------------------------------------------------------

  function Stops(log: seq<Event>, m: MgrId): nat {
    if log == [] then 0 else Stops(log[..|log| - 1], m) + if log[|log| - 1] == StopCalled(m) then 1 else 0
  }

  function Starts(log: seq<Event>, m: MgrId): nat {
    if log == [] then 0 else Starts(log[..|log| - 1], m) + if log[|log| - 1] == StartedOn(m) then 1 else 0
  }

  /** Nothing of a manager is stored or started before the StopAll of the one before it has returned. */
  predicate Ordered(log: seq<Event>) {
    log == [] ||
    var front, last := log[..|log| - 1], log[|log| - 1];
    Ordered(front) && ((last.StartedOn? || last.Stored?) && last.m > 0 ==> StopReturned(last.m - 1) in front)
  }

  /** Every manager before this one has been stopped, once; this one and those after it have not. */
  ghost predicate StoppedBefore(log: seq<Event>, cur: MgrId) {
    && (forall m: MgrId :: m < cur ==> Stops(log, m) == 1 && StopReturned(m) in log)
    && (forall m: MgrId :: m >= cur ==> Stops(log, m) == 0)
  }

  lemma {:induction false} StoredIsOrdered(log: seq<Event>, m: MgrId)
    requires Ordered(log) && m > 0 && (Stored(m) in log || StartedOn(m) in log)
    ensures StopReturned(m - 1) in log
  {
    var front, last := log[..|log| - 1], log[|log| - 1];
    assert forall e :: e in log ==> e == last || e in front;
    if Stored(m) in front || StartedOn(m) in front { StoredIsOrdered(front, m); }
  }

  lemma Grows(log: seq<Event>, e: Event)
    ensures (log + [e])[..|log|] == log
    ensures forall m :: Stops(log + [e], m) == Stops(log, m) + if e == StopCalled(m) then 1 else 0
    ensures forall f :: f in log + [e] <==> f in log || f == e
    ensures Ordered(log + [e]) <==>
            Ordered(log) && ((e.StartedOn? || e.Stored?) && e.m > 0 ==> StopReturned(e.m - 1) in log)
  {
    assert (log + [e])[..|log|] == log;
  }

  /** No instance of a manager starts before the StopAll of the one before it has returned. */
  ghost predicate StartsFollowStops(log: seq<Event>) {
    forall j :: 0 <= j < |log| && log[j].StartedOn? && log[j].m > 0 ==>
      exists i :: 0 <= i < j && log[i] == StopReturned(log[j].m - 1)
  }

  lemma {:induction false} OrderedStarts(log: seq<Event>)
    requires Ordered(log)
    ensures StartsFollowStops(log)
  {
    forall j | 0 <= j < |log| && log[j].StartedOn? && log[j].m > 0
      ensures exists i :: 0 <= i < j && log[i] == StopReturned(log[j].m - 1)
    {
      NoStartBeforeStop(log, j);
    }
  }

  lemma {:induction false} NoStartBeforeStop(log: seq<Event>, j: nat)
    requires Ordered(log) && j < |log| && log[j].StartedOn? && log[j].m > 0
    ensures exists i :: 0 <= i < j && log[i] == StopReturned(log[j].m - 1)
  {
    var front := log[..|log| - 1];
    if j < |front| {
      NoStartBeforeStop(front, j);
      var i :| 0 <= i < j && front[i] == StopReturned(log[j].m - 1);
      assert log[i] == front[i];
    } else {
      var i :| 0 <= i < |front| && front[i] == StopReturned(log[j].m - 1);
      assert log[i] == front[i];
    }
  }

  // ---------------------------------------------------------------------------------------------
  // The server
  // ---------------------------------------------------------------------------------------------

  type Report = WatchChannel.Report
  type Channel = WatchChannel.Channel

  /** How what a report asks for goes: a rebuild gives a function set or fails, and then a watch is opened or not; a
      restart and, under --eager, a start succeed or not. */
  datatype Answers = Answers(build: Option<FnSet>, watchOk: bool, restarted: bool, started: bool)

  /** What the select of the loop can meet. */
  datatype Stimulus = ServeEnded(err: bool) | Signal | FromWatch(answers: Answers)

  predicate Ends(s: Stimulus) { s.ServeEnded? || s.Signal? }

  /** What ends the loop: a signal at last, if nothing else has. */
  function EndOf(script: seq<Stimulus>): (s: Stimulus)
    ensures Ends(s)
  {
    if script == [] then Signal else if Ends(script[0]) then script[0] else EndOf(script[1..])
  }

  /** A report that the loop has received, from a watch. */
  datatype Received = Received(w: WatchId, report: Report, answers: Answers)

  function FromOne(history: seq<Received>, w: WatchId): seq<Report> {
    if history == [] then [] else
      var last := history[|history| - 1];
      FromOne(history[..|history| - 1], w) + if last.w == w then [last.report] else []
  }

  /** The channels have lost nothing that was received, and nothing was received but from them. */
  ghost predicate Traced(history: seq<Received>, channels: seq<Channel>) {
    && (forall w :: 0 <= w < |channels| ==> channels[w].received == FromOne(history, w))
    && (forall k :: 0 <= k < |history| ==> history[k].w < |channels|)
  }

  lemma {:induction false} FromNone(history: seq<Received>, w: WatchId)
    requires forall k :: 0 <= k < |history| ==> history[k].w < w
    ensures FromOne(history, w) == []
  {
    if history != [] { FromNone(history[..|history| - 1], w); }
  }

  lemma OneMoreFrom(history: seq<Received>, h: Received)
    ensures forall w :: FromOne(history + [h], w) == FromOne(history, w) + if h.w == w then [h.report] else []
  {
    assert (history + [h])[..|history|] == history;
  }

  /** A call of a manager's Restart. */
  datatype Restart = Restart(mgr: MgrId, fn: string)

  /** What comes of the reports: the function sets of new managers, and the calls of Restart. */
  datatype Done = Done(built: seq<FnSet>, restarted: seq<Restart>)

  /** A structural change gives a new manager if the rebuild succeeds, and a change of code restarts the function on the
      manager of that time. */
  function DoneBy(h: Received, mgr: MgrId): Done {
    match h.report
    case OfStructure => Done(if h.answers.build.Some? then [h.answers.build.value] else [], [])
    case OfCode(fn) => Done([], [Restart(mgr, fn)])
  }

  function After(done: Done, more: Done): Done { Done(done.built + more.built, done.restarted + more.restarted) }

  /** All of them, from when this manager was the current one. */
  function Applied(history: seq<Received>, mgr: MgrId): Done {
    if history == [] then Done([], []) else
      var done := Applied(history[..|history| - 1], mgr);
      After(done, DoneBy(history[|history| - 1], mgr + |done.built|))
  }

  /** What was received since, and applied since. */
  ghost predicate Applies(before: Done, since: nat, history: seq<Received>, mgr: MgrId, done: Done, now: MgrId) {
    since <= |history| &&
    var more := Applied(history[since..], mgr);
    done == After(before, more) && now == mgr + |more.built|
  }

  lemma AppliesNone(before: Done, history: seq<Received>, mgr: MgrId)
    ensures Applies(before, |history|, history, mgr, before, mgr)
  {
    assert history[|history|..] == [];
  }

  lemma AppliesMore(before: Done, since: nat, history: seq<Received>, mgr: MgrId, done: Done, now: MgrId, h: Received)
    requires Applies(before, since, history, mgr, done, now)
    ensures Applies(before, since, history + [h], mgr, After(done, DoneBy(h, now)), now + |DoneBy(h, now).built|)
  {
    assert (history + [h])[since..] == history[since..] + [h];
    assert (history[since..] + [h])[..|history[since..]|] == history[since..];
  }

  /** The history speaks of managers that there are. */
  ghost predicate Named(log: seq<Event>, managers: nat) { forall e :: e in log ==> e.m < managers }

  /** The context of a cancelled watch is done. */
  ghost predicate Contexts(channels: seq<Channel>, cancelled: set<WatchId>) {
    forall w :: w in cancelled ==> w < |channels| && channels[w].done
  }

  /** Of the watches opened so far, only this one may not have been cancelled. */
  ghost predicate OthersCancelled(channels: seq<Channel>, cancelled: set<WatchId>, cancel: Option<WatchId>) {
    && (forall w: WatchId :: w < |channels| && w !in cancelled ==> cancel == Some(w))
    && (cancel.Some? ==> cancel.value < |channels|)
  }

  lemma TracedNew(history: seq<Received>, channels: seq<Channel>)
    requires Traced(history, channels)
    ensures Traced(history, channels + [WatchChannel.NEW_CHANNEL])
  {
    FromNone(history, |channels|);
  }

  datatype Current = Current(mgr: MgrId, fns: FnSet, events: Option<WatchId>, cancel: Option<WatchId>)

  class Server {
    const eager: bool
    const noReload: bool
    var handler: Option<MgrId>       // the atomicHandler
    var managers: seq<FnSet>         // the managers made so far, each with its functions
    var channels: seq<Channel>       // of the watches opened so far
    ghost var cancelled: set<WatchId>
    ghost var history: seq<Received> // the reports received
    ghost var restarts: seq<Restart>
    ghost var log: seq<Event>

    /** The state between any two statements. */
    ghost predicate Sane()
      reads this
    {
      && Ordered(log) && Named(log, |managers|) && (handler.Some? ==> Stored(handler.value) in log)
      && Traced(history, channels) && Contexts(channels, cancelled)
    }

    /** The state at the head of the loop: requests go to the current manager, which has not been stopped, and every
        earlier one has been, once; the channel is the current watch's, and only that watch is open. */
    ghost predicate AtHead(cur: Current)
      reads this
    {
      && Sane()
      && cur.mgr + 1 == |managers| && cur.fns == managers[cur.mgr]
      && handler == Some(cur.mgr) && StoppedBefore(log, cur.mgr)
      && (cur.events.Some? ==> cur.events == cur.cancel)
      && OthersCancelled(channels, cancelled, cur.cancel) && (cur.cancel.Some? ==> cur.cancel.value !in cancelled)
    }

    constructor (eager: bool, noReload: bool)
      ensures Sane() && managers == [] && handler == None && log == [] && restarts == [] && channels == []
      ensures history == [] && cancelled == {}
    {
      this.eager, this.noReload := eager, noReload;
      handler, managers, channels, log, restarts, history, cancelled := None, [], [], [], [], [], {};
    }

    ghost method Happens(e: Event)
      requires Ordered(log) && ((e.StartedOn? || e.Stored?) && e.m > 0 ==> StopReturned(e.m - 1) in log)
      modifies this`log
      ensures log == old(log) + [e] && Ordered(log)
      ensures forall m :: Stops(log, m) == Stops(old(log), m) + if e == StopCalled(m) then 1 else 0
      ensures forall f :: f in log <==> f in old(log) || f == e
    {
      Grows(log, e);
      log := log + [e];
    }

    /** Meanwhile requests, each holding a handler it once loaded, start instances, and watches run. */
    method Meanwhile()
      requires Sane()
      modifies this`log, this`channels
      ensures Sane() && OnlyStarts(old(log), log) && |channels| == |old(channels)| && Onward(old(channels), channels)
    {
      Requests();
      Watches();
    }

    method Watches()
      requires Sane()
      modifies this`channels
      ensures Sane() && |channels| == |old(channels)| && Onward(old(channels), channels)
    {
      var n: int := *;
      while n > 0
        invariant Sane() && |channels| == |old(channels)| && Onward(old(channels), channels)
      {
        n := n - 1;
        var w: int, step: WatchChannel.Step := *, *;
        if 0 <= w < |channels| && WatchChannel.CanStep(channels[w], step) {
          channels := channels[w := WatchChannel.After(channels[w], step)];
        }
      }
    }

    ghost method Requests()
      requires Sane()
      modifies this`log
      ensures Sane() && OnlyStarts(old(log), log)
    {
      var more: seq<MgrId> :| forall m :: m in more ==> Stored(m) in log;
      for k := 0 to |more|
        invariant Sane() && OnlyStarts(old(log), log)
      {
        Request(more[k]);
      }
    }

    /** One does. */
    ghost method Request(m: MgrId)
      requires Sane() && Stored(m) in log
      modifies this`log
      ensures Sane() && OnlyStarts(old(log), log)
    {
      if m > 0 { StoredIsOrdered(log, m); }
      Happens(StartedOn(m));
    }

    method StopAll(m: MgrId)
      requires Sane() && m < |managers|
      modifies this`log, this`channels
      ensures Sane() && old(log) <= log && StopReturned(m) in log
      ensures |channels| == |old(channels)| && Onward(old(channels), channels)
      ensures forall n :: Stops(log, n) == Stops(old(log), n) + if n == m then 1 else 0
      ensures forall e: Event :: !e.StartedOn? && !e.StopCalled? && !e.StopReturned? ==> (e in log <==> e in old(log))
      ensures forall n: MgrId :: StopReturned(n) in log <==> StopReturned(n) in old(log) || n == m
    {
      Happens(StopCalled(m));
      Meanwhile();
      Happens(StopReturned(m));
    }

    /** startWatch: a watch of its own, or a warning and none. */
    method StartWatch(ok: bool) returns (events: Option<WatchId>, cancel: Option<WatchId>)
      requires Sane()
      modifies this`channels
      ensures Sane() && events == cancel == if ok then Some(|old(channels)|) else None
      ensures channels == old(channels) + if ok then [WatchChannel.NEW_CHANNEL] else []
    {
      if !ok { return None, None; }
      TracedNew(history, channels);
      events, cancel := Some(|channels|), Some(|channels|);
      channels := channels + [WatchChannel.NEW_CHANNEL];
    }

    /** The watch's context is done. Its channel is not read from here. */
    method Cancel(w: Option<WatchId>)
      requires Sane() && (w.Some? ==> w.value < |channels|)
      modifies this`channels, this`cancelled
      ensures Sane() && |channels| == |old(channels)| && Onward(old(channels), channels)
      ensures cancelled == old(cancelled) + if w.Some? then {w.value} else {}
    {
      if w.Some? {
        channels := channels[w.value := WatchChannel.After(channels[w.value], WatchChannel.Done)];
        cancelled := cancelled + {w.value};
      }
    }

    method Store(m: MgrId)
      requires Sane() && m < |managers| && (m > 0 ==> StopReturned(m - 1) in log)
      modifies this`handler, this`log
      ensures Sane() && handler == Some(m) && (forall n :: Stops(log, n) == Stops(old(log), n))
      ensures forall e :: e in log <==> e in old(log) || e == Stored(m)
    {
      handler := Some(m);
      Happens(Stored(m));
    }

    /** buildStack: a manager of its own for the functions it finds, or an error. */
    method BuildStack(build: Option<FnSet>) returns (m: Option<MgrId>)
      modifies this`managers
      ensures m == if build.Some? then Some(|old(managers)|) else None
      ensures managers == if build.Some? then old(managers) + [build.value] else old(managers)
    {
      if build == None { return None; }
      m := Some(|managers|);
      managers := managers + [build.value];
    }

    /** handleReloadEvent. */
    method HandleReloadEvent(report: Report, answers: Answers, cur: Current) returns (cur': Current)
      requires AtHead(cur)
      modifies this`log, this`channels, this`cancelled, this`handler, this`managers, this`restarts
      ensures AtHead(cur') && Onward(old(channels), channels)
      ensures report.OfStructure? && answers.build.Some? ==>
                && cur'.mgr == cur.mgr + 1 && cur'.fns == answers.build.value && managers == old(managers) + [cur'.fns]
                && cur'.events == cur'.cancel == if noReload || !answers.watchOk then None else Some(|old(channels)|)
      ensures !(report.OfStructure? && answers.build.Some?) ==> cur' == cur && Unchanged()
      ensures restarts == old(restarts) + if report.OfCode? then [Restart(cur.mgr, report.fn)] else []
    {
      Meanwhile();
      if report.OfCode? {
        restarts := restarts + [Restart(cur.mgr, report.fn)];
        if answers.restarted && eager && answers.started { Request(cur.mgr); }
        return cur;
      }
      cur' := Rebuild(answers, cur);
    }

    /** A structural change: the functions are discovered again; if that fails, all stays as it is. */
    method Rebuild(answers: Answers, cur: Current) returns (cur': Current)
      requires AtHead(cur)
      modifies this`log, this`channels, this`cancelled, this`handler, this`managers
      ensures AtHead(cur') && Onward(old(channels), channels)
      ensures answers.build.Some? ==>
                && cur'.mgr == cur.mgr + 1 && cur'.fns == answers.build.value && managers == old(managers) + [cur'.fns]
                && cur'.events == cur'.cancel == if noReload || !answers.watchOk then None else Some(|old(channels)|)
      ensures answers.build == None ==>
                && cur' == cur && log == old(log) && channels == old(channels) && cancelled == old(cancelled)
                && handler == old(handler) && managers == old(managers)
    {
      var built := BuildStack(answers.build);
      if built == None { return cur; }
      cur' := Reconfigure(built.value, answers.watchOk, cur);
    }

    /** Everything of the current manager is replaced by what the new one needs. */
    method Reconfigure(next: MgrId, watchOk: bool, cur: Current) returns (cur': Current)
      requires Sane() && StoppedBefore(log, cur.mgr) && next == cur.mgr + 1 && next + 1 == |managers|
      requires OthersCancelled(channels, cancelled, cur.cancel)
      modifies this`log, this`handler, this`channels, this`cancelled
      ensures AtHead(cur') && cur'.mgr == next && cur'.fns == managers[next] && Onward(old(channels), channels)
      ensures cur'.events == cur'.cancel == if noReload || !watchOk then None else Some(|old(channels)|)
    {
      Switch(cur.mgr, next);
      var events, cancel := Rewatch(cur.cancel, watchOk);
      cur' := Current(next, managers[next], events, cancel);
    }

    /** The old manager is stopped, then requests are routed to the new one. */
    method Switch(m: MgrId, next: MgrId)
      requires Sane() && next == m + 1 < |managers| && StoppedBefore(log, m)
      modifies this`log, this`handler, this`channels
      ensures Sane() && handler == Some(next) && StoppedBefore(log, next)
      ensures |channels| == |old(channels)| && Onward(old(channels), channels)
    {
      StopAll(m);
      Meanwhile();
      Store(next);
      Meanwhile();
    }

    /** The old watch is cancelled, and a new one is opened, unless hot reload is off or it cannot be. */
    method Rewatch(previous: Option<WatchId>, ok: bool) returns (events: Option<WatchId>, cancel: Option<WatchId>)
      requires Sane() && OthersCancelled(channels, cancelled, previous)
      modifies this`channels, this`cancelled
      ensures Sane() && events == cancel == if noReload || !ok then None else Some(|old(channels)|)
      ensures Onward(old(channels), channels)
      ensures OthersCancelled(channels, cancelled, cancel) && (cancel.Some? ==> cancel.value !in cancelled)
      ensures previous.Some? ==> previous.value in cancelled
    {
      Cancel(previous);
      events, cancel := None, None;
      if !noReload { events, cancel := StartWatch(ok); }
    }

    /** The loop of serve, to its end. Every report that is received is applied. While it has no watch, as after one that
        could not be opened, none is. On a signal the watch is cancelled while requests are still being answered. */
    method Loop(script: seq<Stimulus>, first: Current) returns (cur: Current, runErr: bool)
      requires AtHead(first)
      modifies this
      ensures AtExit(cur) && old(history) <= history
      ensures Applies(old(DoneSoFar()), |old(history)|, history, first.mgr, DoneSoFar(), cur.mgr)
      ensures first.events == None ==> history == old(history)
      ensures runErr == (EndOf(script) == ServeEnded(true))
      ensures EndOf(script).Signal? && cur.cancel.Some? ==> cur.cancel.value in cancelled
    {
      var signalled;
      cur, runErr, signalled := Turns(script, first);
      if signalled { Cancel(cur.cancel); }
      Meanwhile();
    }

    method Turns(script: seq<Stimulus>, first: Current) returns (cur: Current, runErr: bool, signalled: bool)
      requires AtHead(first)
      modifies this
      ensures AtHead(cur) && old(history) <= history
      ensures runErr == (EndOf(script) == ServeEnded(true)) && signalled == EndOf(script).Signal?
      ensures Applies(old(DoneSoFar()), |old(history)|, history, first.mgr, DoneSoFar(), cur.mgr)
      ensures first.events == None ==> history == old(history)
    {
      cur, runErr, signalled := first, false, true;
      ghost var before, since := DoneSoFar(), |history|;
      AppliesNone(before, history, first.mgr);
      var k, ended := 0, false;
      while k < |script| && !ended
        invariant k <= |script| && AtHead(cur) && old(history) <= history
        invariant !ended ==> !runErr && signalled && EndOf(script) == EndOf(script[k..])
        invariant ended ==> runErr == (EndOf(script) == ServeEnded(true)) && signalled == EndOf(script).Signal?
        invariant Applies(before, since, history, first.mgr, DoneSoFar(), cur.mgr)
        invariant first.events == None ==> history == old(history) && cur.events == None
      {
        ghost var was, done, mgr := history, DoneSoFar(), cur.mgr;
        cur, runErr, ended := Turn(script[k], cur);
        signalled := !script[k].ServeEnded?;
        assert script[k..][1..] == script[k + 1..];
        if history != was { AppliesMore(before, since, was, first.mgr, done, mgr, history[|was|]); }
        k := k + 1;
      }
    }

    ghost function DoneSoFar(): Done
      reads this
    {
      Done(managers, restarts)
    }

    /** One turn of it. A report that is in the channel when the watch's case is taken is received and applied; once the
        channel is empty and closed there is no watch. */
    method Turn(s: Stimulus, cur: Current) returns (cur': Current, runErr: bool, ended: bool)
      requires AtHead(cur)
      modifies this
      ensures AtHead(cur') && ended == Ends(s) && runErr == (s == ServeEnded(true))
      ensures history == old(history) ==> cur'.mgr == cur.mgr && DoneSoFar() == old(DoneSoFar())
      ensures history != old(history) ==>
                && s.FromWatch? && cur.events.Some? && |history| == |old(history)| + 1
                && var h := history[|old(history)|];
                && history == old(history) + [h] && h.w == cur.events.value && h.answers == s.answers
                && DoneSoFar() == After(old(DoneSoFar()), DoneBy(h, cur.mgr))
                && cur'.mgr == cur.mgr + |DoneBy(h, cur.mgr).built|
      ensures s.FromWatch? && cur.events.Some? && cur.events.value < |old(channels)|
              && old(channels)[cur.events.value].queue != [] ==>
                history == old(history)
                           + [Received(cur.events.value, old(channels)[cur.events.value].queue[0], s.answers)]
      ensures cur.events == None ==> cur'.events == None
    {
      cur', runErr, ended := cur, false, false;
      Meanwhile();
      match s {
        case ServeEnded(err) => runErr, ended := err, true;
        case Signal => ended := true;
        case FromWatch(answers) =>
          if cur.events.Some? {
            var c := channels[cur.events.value];
            if c.queue != [] {
              Take(cur.events.value, answers);
              cur' := HandleReloadEvent(c.queue[0], answers, cur);
            } else if c.ended {
              cur' := cur.(events := None);
            }
          }
      }
    }

    /** The first report in a channel is received. */
    method Take(w: WatchId, ghost answers: Answers)
      requires Sane() && w < |channels| && channels[w].queue != []
      modifies this`channels, this`history
      ensures Sane() && |channels| == |old(channels)|
      ensures history == old(history) + [Received(w, old(channels)[w].queue[0], answers)]
    {
      OneMoreFrom(history, Received(w, channels[w].queue[0], answers));
      history := history + [Received(w, channels[w].queue[0], answers)];
      channels := channels[w := WatchChannel.Receive(channels[w])];
    }

    /** The manager that is left is the last, and the only watch that can be open is the one still to be cancelled. */
    ghost predicate AtExit(cur: Current)
      reads this
    {
      && Sane() && cur.mgr + 1 == |managers| && StoppedBefore(log, cur.mgr)
      && OthersCancelled(channels, cancelled, cur.cancel)
    }

    /** serve: when it returns, for whatever reason, every manager has been stopped once and every watch cancelled; the
        reports that were received have been applied, and those a watch has made and that were not are the ones left in
        its channel or still to be sent. */
    method Serve(m: MgrId, listens: bool, script: seq<Stimulus>, watchOk: bool) returns (runErr: bool)
      requires Sane() && m + 1 == |managers| && StoppedBefore(log, m) && channels == [] && history == []
      requires m > 0 ==> StopReturned(m - 1) in log
      modifies this
      ensures Sane() && StoppedBefore(log, |managers|) && StartsFollowStops(log) && AllCancelled()
      ensures !listens ==> runErr && managers == old(managers) && handler == old(handler) && history == []
      ensures listens ==> runErr == (EndOf(script) == ServeEnded(true))
      ensures listens ==> |managers| > 0 && Applies(old(DoneSoFar()), 0, history, m, DoneSoFar(), |managers| - 1)
      ensures forall w :: 0 <= w < |channels| ==>
                channels[w].reported == FromOne(history, w) + channels[w].queue + channels[w].unsent
    {
      if !listens {
        StopAll(m);
        OrderedStarts(log);
        return true;
      }
      Store(m);
      var events, cancel := Rewatch(None, watchOk);
      var cur;
      cur, runErr := Loop(script, Current(m, managers[m], events, cancel));
      Finish(cur);
      OrderedStarts(log);
    }

    ghost predicate AllCancelled()
      reads this
    {
      forall w: WatchId :: w < |channels| ==> w in cancelled && channels[w].done
    }

    method Finish(cur: Current)
      requires AtExit(cur)
      modifies this`log, this`channels, this`cancelled
      ensures Sane() && StoppedBefore(log, |managers|) && AllCancelled()
    {
      StopAll(cur.mgr);
      Cancel(cur.cancel);
    }

    /** ensureAll, on the first manager: so many functions have been started, all of them or up to the first failure. */
    method EnsureAll(n: nat)
      requires Sane() && log == [] && |managers| == 1
      modifies this`log
      ensures Sane() && StoppedBefore(log, 0)
      ensures Starts(log, 0) == n && Stops(log, 0) == 0 && (forall e :: e in log ==> e == StartedOn(0))
    {
      for k := 0 to n
        invariant Sane() && Starts(log, 0) == k && (forall m :: Stops(log, m) == 0)
        invariant forall e :: e in log ==> e == StartedOn(0)
      {
        ghost var before := log;
        Happens(StartedOn(0));
        assert log[..|log| - 1] == before;
      }
    }

    /** run: what serve promises holds of it unless an eager start failed; then the one manager is never stopped, and what
        it has started until then is left running. */
    method Run(build: Option<FnSet>, eagerOk: bool, eagerStarts: nat, listens: bool, script: seq<Stimulus>, watchOk: bool)
      returns (runErr: bool)
      requires managers == [] && log == [] && handler == None && channels == [] && cancelled == {} && history == []
      modifies this
      ensures Sane() && StartsFollowStops(log) && AllCancelled()
      ensures (forall m: MgrId :: m < |managers| ==> Stops(log, m) == 1) <==> !(build.Some? && eager && !eagerOk)
      ensures build.Some? && eager && !eagerOk ==>
                runErr && |managers| == 1 && Stops(log, 0) == 0 && Starts(log, 0) == eagerStarts
    {
      var m := BuildStack(build);
      if m == None { return true; }
      if eager {
        EnsureAll(eagerStarts);
        if !eagerOk {
          OrderedStarts(log);
          return true;
        }
      }
      runErr := Serve(m.value, listens, script, watchOk);
    }

    /** The server is as it was, but for instances that started. */
    twostate predicate Unchanged()
      reads this
    {
      && handler == old(handler) && managers == old(managers) && OnlyStarts(old(log), log)
      && |channels| == |old(channels)| && cancelled == old(cancelled)
    }
  }

  /** Nothing was received meanwhile; what was next in a channel still is, and contexts and watches that ended have. */
  ghost predicate Onward(before: seq<Channel>, after: seq<Channel>) {
    && |before| <= |after|
    && forall w :: 0 <= w < |before| ==>
         && after[w].received == before[w].received
         && (before[w].queue != [] ==> after[w].queue != [] && after[w].queue[0] == before[w].queue[0])
         && (before[w].done ==> after[w].done) && (before[w].ended ==> after[w].ended)
  }

  /** Nothing happened but that instances started. */
  ghost predicate OnlyStarts(before: seq<Event>, after: seq<Event>) {
    && before <= after
    && (forall m :: Stops(after, m) == Stops(before, m))
    && (forall e: Event :: !e.StartedOn? ==> (e in after <==> e in before))
  }
}
