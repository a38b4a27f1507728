/** The watcher's debounce loop: accepted file-system events gather in a window that is flushed, coalesced, once the
    timer has run for 300 ms since the last of them. */
module Watcher {
  import opened Options

  const DEBOUNCE_MS: nat := 300

  /** One accepted event: what classify said, its path, and when it came. */
  datatype Item = Item(structural: bool, fn: string, path: string, at: nat)

  datatype Event = Event(fn: string, structural: bool, paths: seq<string>)

  // ---------------------------------------------------------------------------------------------
  // What a window holds, by what was put in
  // ---------------------------------------------------------------------------------------------

  predicate AnyStructural(items: seq<Item>) {
    items != [] && (items[|items| - 1].structural || AnyStructural(items[..|items| - 1]))
  }

  function StructuralPaths(items: seq<Item>): seq<string> {
    if items == [] then [] else
      var last := items[|items| - 1];
      StructuralPaths(items[..|items| - 1]) + if last.structural then [last.path] else []
  }

  /** A function's changed paths, in the order they were observed. */
  function PathsOf(items: seq<Item>, fn: string): seq<string> {
    if items == [] then [] else
      var last := items[|items| - 1];
      PathsOf(items[..|items| - 1], fn) + if !last.structural && last.fn == fn then [last.path] else []
  }

  function Functions(items: seq<Item>): set<string> {
    if items == [] then {} else
      var last := items[|items| - 1];
      Functions(items[..|items| - 1]) + if last.structural then {} else {last.fn}
  }

  function Paths(items: seq<Item>): seq<string> {
    if items == [] then [] else Paths(items[..|items| - 1]) + [items[|items| - 1].path]
  }

  /** The paths of the functions in a set, counted. */
  ghost function PathsIn(items: seq<Item>, fns: set<string>): multiset<string> {
    if items == [] then multiset{} else
      var last := items[|items| - 1];
      PathsIn(items[..|items| - 1], fns) + if !last.structural && last.fn in fns then multiset{last.path} else multiset{}
  }

  lemma {:induction false} PathsInSplit(items: seq<Item>, fns: set<string>, fn: string)
    requires fn in fns
    ensures PathsIn(items, fns) == multiset(PathsOf(items, fn)) + PathsIn(items, fns - {fn})
  {
    if items != [] { PathsInSplit(items[..|items| - 1], fns, fn); }
  }

  lemma {:induction false} PathsInAll(items: seq<Item>, fns: set<string>)
    requires Functions(items) <= fns
    ensures multiset(Paths(items)) == multiset(StructuralPaths(items)) + PathsIn(items, fns)
  {
    if items != [] {
      PathsInAll(items[..|items| - 1], fns);
    }
  }

  lemma {:induction false} PathsInNone(items: seq<Item>)
    ensures PathsIn(items, {}) == multiset{}
  {
    if items != [] { PathsInNone(items[..|items| - 1]); }
  }

  // ---------------------------------------------------------------------------------------------
  // Names in order
  // ---------------------------------------------------------------------------------------------

  predicate Less(a: string, b: string) {
    if b == "" then false else if a == "" then true else a[0] < b[0] || (a[0] == b[0] && Less(a[1..], b[1..]))
  }

  lemma {:induction false} LessIsTotal(a: string, b: string)
    ensures Less(a, b) || a == b || Less(b, a)
  {
    if a != "" && b != "" && a[0] == b[0] {
      LessIsTotal(a[1..], b[1..]);
      assert a == [a[0]] + a[1..] && b == [b[0]] + b[1..];
    }
  }

  lemma {:induction false} LessIsTransitive(a: string, b: string, c: string)
    requires Less(a, b) && Less(b, c)
    ensures Less(a, c)
  {
    if a != "" && b != "" && c != "" && a[0] == b[0] == c[0] { LessIsTransitive(a[1..], b[1..], c[1..]); }
  }

  lemma {:induction false} LessIsIrreflexive(a: string)
    ensures !Less(a, a)
  {
    if a != "" { LessIsIrreflexive(a[1..]); }
  }

  predicate Ascending(names: seq<string>) { forall i, j :: 0 <= i < j < |names| ==> Less(names[i], names[j]) }

  /** sort.Strings over the keys of a map. */
  method SortNames(names: set<string>) returns (sorted: seq<string>)
    ensures Ascending(sorted) && forall n :: n in sorted <==> n in names
  {
    sorted := [];
    var rest := names;
    while rest != {}
      invariant rest <= names && forall n :: n in sorted <==> n in names && n !in rest
      invariant Ascending(sorted) && forall n, m :: n in sorted && m in rest ==> Less(n, m)
      decreases rest
    {
      var least := LeastName(rest);
      sorted := sorted + [least];
      rest := rest - {least};
    }
  }

  method LeastName(names: set<string>) returns (least: string)
    requires names != {}
    ensures least in names && forall n :: n in names && n != least ==> Less(least, n)
  {
    least :| least in names;
    var rest := names - {least};
    while rest != {}
      invariant rest <= names && least in names && least !in rest
      invariant forall n :: n in names && n !in rest && n != least ==> Less(least, n)
      decreases rest
    {
      var n :| n in rest;
      LessIsTotal(least, n);
      if Less(n, least) {
        forall m | m in names && m !in rest && m != least ensures Less(n, m) { LessIsTransitive(n, least, m); }
        least := n;
      }
      rest := rest - {n};
    }
  }

  // ---------------------------------------------------------------------------------------------
  // The window
  // ---------------------------------------------------------------------------------------------

  /** What a flush must emit: one Structural event with every path, the structural ones first, if any change was
      structural; otherwise one event a function, in name order, each with its paths in the order observed. */
  predicate Coalesced(items: seq<Item>, events: seq<Event>) {
    if AnyStructural(items) then OneStructural(items, events) else OnePerFunction(items, events)
  }

  predicate OneStructural(items: seq<Item>, events: seq<Event>) {
    && |events| == 1 && events[0].structural && events[0].fn == ""
    && StructuralPaths(items) <= events[0].paths
    && multiset(events[0].paths) == multiset(Paths(items))
  }

  predicate OnePerFunction(items: seq<Item>, events: seq<Event>) {
    && (forall k :: 0 <= k < |events| ==> !events[k].structural && events[k].paths == PathsOf(items, events[k].fn))
    && (forall i, j :: 0 <= i < j < |events| ==> Less(events[i].fn, events[j].fn))
    && Names(events) == Functions(items)
  }

  function Names(events: seq<Event>): set<string> {
    if events == [] then {} else Names(events[..|events| - 1]) + {events[|events| - 1].fn}
  }

  function Emitted(events: seq<Event>): multiset<string> {
    if events == [] then multiset{} else Emitted(events[..|events| - 1]) + multiset(events[|events| - 1].paths)
  }

  /** The fields of a window, with what was put in it. */
  datatype Held = Held(
    items: seq<Item>,
    structural: bool,
    structuralPaths: seq<string>,
    functions: map<string, seq<string>>)

  const EMPTY_WINDOW := Held([], false, [], map[])

  /** The same with one event more. */
  function WithItem(h: Held, item: Item): Held {
    if item.structural
    then h.(items := h.items + [item], structural := true, structuralPaths := h.structuralPaths + [item.path])
    else
      var paths := if item.fn in h.functions then h.functions[item.fn] else [];
      h.(items := h.items + [item], functions := h.functions[item.fn := paths + [item.path]])
  }

  ghost predicate Invariant(P: Held -> bool) {
    P(EMPTY_WINDOW) && forall h, item :: P(h) ==> P(WithItem(h, item))
  }

  /** A window that has every invariant of adding events. */
  type Content = h: Held | forall P :: Invariant(P) ==> P(h) ghost witness EMPTY_WINDOW

  ghost function OneMoreHeld(h: Content, item: Item): (h': Content)
    ensures h' == WithItem(h, item)
  {
    WithItem(h, item)
  }

  /** One of them is that its fields say of its events what they should. */
  ghost predicate Describes(h: Held) {
    && h.structural == AnyStructural(h.items) && h.structuralPaths == StructuralPaths(h.items)
    && h.functions.Keys == Functions(h.items) && forall n :: n in h.functions ==> h.functions[n] == PathsOf(h.items, n)
  }

  lemma DescribesKept(h: Held, item: Item)
    requires Describes(h)
    ensures Describes(WithItem(h, item))
  {
    WithOneMore(h.items, item);
    NoPathsOfOthers(h.items, item.fn);
  }

  lemma WithOneMore(items: seq<Item>, item: Item)
    ensures AnyStructural(items + [item]) == (item.structural || AnyStructural(items))
    ensures StructuralPaths(items + [item]) == StructuralPaths(items) + if item.structural then [item.path] else []
    ensures Functions(items + [item]) == Functions(items) + if item.structural then {} else {item.fn}
    ensures forall fn :: PathsOf(items + [item], fn)
                         == PathsOf(items, fn) + if !item.structural && item.fn == fn then [item.path] else []
  {
    assert (items + [item])[..|items|] == items;
  }

  lemma ContentDescribes(h: Content)
    ensures Describes(h)
  {
    var P := h => Describes(h);
    forall h, item | P(h) ensures P(WithItem(h, item)) { DescribesKept(h, item); }
    assert Invariant(P);
  }

  class PendingWindow {
    var structural: bool
    var structuralPaths: seq<string>
    var functions: map<string, seq<string>>
    ghost var held: Content

    ghost predicate Valid()
      reads this
    {
      held == Held(held.items, structural, structuralPaths, functions)
    }

    constructor ()
      ensures Valid() && held.items == []
    {
      structural, structuralPaths, functions, held := false, [], map[], EMPTY_WINDOW;
    }

    method Add(structural: bool, fn: string, path: string, ghost at: nat)
      requires Valid()
      modifies this
      ensures Valid() && held.items == old(held.items) + [Item(structural, fn, path, at)]
    {
      held := OneMoreHeld(held, Item(structural, fn, path, at));
      if structural {
        this.structural := true;
        structuralPaths := structuralPaths + [path];
        return;
      }
      functions := functions[fn := (if fn in functions then functions[fn] else []) + [path]];
    }

    method Flush() returns (events: seq<Event>)
      requires Valid()
      ensures Coalesced(held.items, events)
    {
      ContentDescribes(held);
      if structural {
        var paths := FlushPaths();
        return [Event("", true, paths)];
      }
      events := FlushFunctions();
    }

    /** The structural paths, then every function's in the arbitrary order of the map. */
    method FlushPaths() returns (paths: seq<string>)
      requires Valid()
      ensures StructuralPaths(held.items) <= paths && multiset(paths) == multiset(Paths(held.items))
    {
      ContentDescribes(held);
      paths := structuralPaths;
      var rest := functions.Keys;
      PathsInAll(held.items, rest);
      while rest != {}
        invariant rest <= functions.Keys && structuralPaths <= paths
        invariant multiset(paths) + PathsIn(held.items, rest) == multiset(Paths(held.items))
        decreases rest
      {
        var n :| n in rest;
        PathsInSplit(held.items, rest, n);
        paths := paths + functions[n];
        rest := rest - {n};
      }
      PathsInNone(held.items);
    }

    method FlushFunctions() returns (events: seq<Event>)
      requires Valid() && !structural
      ensures Coalesced(held.items, events)
    {
      ContentDescribes(held);
      var names := SortNames(functions.Keys);
      events := [];
      for k := 0 to |names|
        invariant |events| == k
        invariant forall i :: 0 <= i < k ==> events[i] == Event(names[i], false, PathsOf(held.items, names[i]))
      {
        assert names[k] in functions.Keys;
        events := events + [Event(names[k], false, functions[names[k]])];
      }
      NamesAre(events, names);
    }
  }

  lemma {:induction false} NoPathsOfOthers(items: seq<Item>, fn: string)
    ensures fn !in Functions(items) ==> PathsOf(items, fn) == []
  {
    if items != [] {
      NoPathsOfOthers(items[..|items| - 1], fn);
    }
  }

  lemma {:induction false} NamesAre(events: seq<Event>, names: seq<string>)
    requires |names| == |events| && forall k :: 0 <= k < |events| ==> events[k].fn == names[k]
    ensures forall n :: n in Names(events) <==> n in names
  {
    if events != [] {
      var m := |events| - 1;
      NamesAre(events[..m], names[..m]);
      assert names == names[..m] + [names[m]];
    }
  }

  /** A flush loses no path and repeats none, whichever way it coalesces. */
  lemma EmitsEveryPathOnce(items: seq<Item>, events: seq<Event>)
    requires Coalesced(items, events)
    ensures Emitted(events) == multiset(Paths(items))
  {
    if AnyStructural(items) {
      assert Emitted(events) == Emitted(events[..0]) + multiset(events[0].paths);
    } else {
      NoStructuralPaths(items);
      EmitsByFunction(items, events);
    }
  }

  lemma EmitsByFunction(items: seq<Item>, events: seq<Event>)
    requires OnePerFunction(items, events) && StructuralPaths(items) == []
    ensures Emitted(events) == multiset(Paths(items))
  {
    PathsInAll(items, Functions(items));
    forall i, j | 0 <= i < j < |events| ensures events[i].fn != events[j].fn { LessIsIrreflexive(events[i].fn); }
    EmittedByFunction(items, events, Functions(items));
    assert Functions(items) - Names(events) == {};
    PathsInNone(items);
  }

  lemma {:induction false} NoStructuralPaths(items: seq<Item>)
    requires !AnyStructural(items)
    ensures StructuralPaths(items) == []
  {
    if items != [] { NoStructuralPaths(items[..|items| - 1]); }
  }

  lemma {:induction false} EmittedByFunction(items: seq<Item>, events: seq<Event>, fns: set<string>)
    requires forall k :: 0 <= k < |events| ==> events[k].paths == PathsOf(items, events[k].fn)
    requires forall i, j :: 0 <= i < j < |events| ==> events[i].fn != events[j].fn
    requires Names(events) <= fns
    ensures Emitted(events) + PathsIn(items, fns - Names(events)) == PathsIn(items, fns)
  {
    if events == [] {
      assert fns - {} == fns;
    } else {
      var front, n := events[..|events| - 1], events[|events| - 1].fn;
      EmittedByFunction(items, front, fns);
      NotAmong(front, n);
      PathsInSplit(items, fns - Names(front), n);
      assert fns - Names(events) == fns - Names(front) - {n};
    }
  }

  lemma {:induction false} NotAmong(events: seq<Event>, n: string)
    requires forall k :: 0 <= k < |events| ==> events[k].fn != n
    ensures n !in Names(events)
  {
    if events != [] { NotAmong(events[..|events| - 1], n); }
  }

  // ---------------------------------------------------------------------------------------------
  // The loop
  // ---------------------------------------------------------------------------------------------

  /** time.Timer: running until `deadline`, or stopped or expired; `full` when its channel holds a tick. */
  datatype Timer = Timer(active: bool, deadline: nat, full: bool)

  /** What the select of the loop is given, with the passing of time between; a change comes with classify's verdict. */
  datatype Stimulus = Cancel | EventsClosed | ErrorsClosed | WatchError | TimerCase | Wait(ms: nat)
                    | Change(path: string, structural: bool, fn: string, ignore: bool)

  /** What was in a flushed window, when it was flushed, and what that sent: a window was not empty, was flushed 300 ms
      or more after its last event, and sent what its events coalesce to. */
  datatype Sent = Sent(items: seq<Item>, at: nat, events: seq<Event>)
  type Window = w: Sent | w.items != [] && w.items[|w.items| - 1].at + DEBOUNCE_MS <= w.at && Coalesced(w.items, w.events)
    ghost witness OneWindow()

  ghost function OneWindow(): (w: Sent)
    ensures w.items != [] && w.items[|w.items| - 1].at + DEBOUNCE_MS <= w.at && Coalesced(w.items, w.events)
  {
    var item := Item(true, "", "go", 0);
    assert [item][..0] == [] && Paths([item]) == ["go"] && StructuralPaths([item]) == ["go"];
    Sent([item], DEBOUNCE_MS, [Event("", true, ["go"])])
  }

  ghost function Closing(items: seq<Item>, at: nat, events: seq<Event>): (w: Window)
    requires items != [] && items[|items| - 1].at + DEBOUNCE_MS <= at && Coalesced(items, events)
    ensures w == Sent(items, at, events)
  {
    Sent(items, at, events)
  }

  function Output(windows: seq<Window>): seq<Event> {
    if windows == [] then [] else Output(windows[..|windows| - 1]) + windows[|windows| - 1].events
  }

  function Flat(windows: seq<Window>): seq<Item> {
    if windows == [] then [] else Flat(windows[..|windows| - 1]) + windows[|windows| - 1].items
  }

  lemma OneMoreItem(closed: seq<Item>, open: seq<Item>, item: Item)
    ensures closed + open + [item] == closed + (open + [item])
  {
  }

  lemma OneMore(windows: seq<Window>, w: Window)
    ensures Flat(windows + [w]) == Flat(windows) + w.items && Output(windows + [w]) == Output(windows) + w.events
    ensures Batches(windows + [w]) == Batches(windows) + [Batch(w.items, w.at)]
  {
    assert (windows + [w])[..|windows|] == windows;
  }

  class Watch {
    var now: nat
    var timer: Option<Timer>
    var armed: bool                   // timerC is the timer's channel, not nil
    var pending: PendingWindow
    var out: seq<Event>
    ghost var accepted: seq<Item>     // every event classify did not ignore
    ghost var windows: seq<Window>

    /** The flushed windows and the open one cut the accepted events into consecutive pieces;
        and nothing was sent but by them. */
    ghost predicate Valid()
      reads this, pending
    {
      && pending.Valid() && TimerOk(pending.held.items)
      && accepted == Flat(windows) + pending.held.items
      && out == Output(windows)
    }

    /** The timer is armed exactly while the window holds something, and for 300 ms after the last of it. */
    ghost predicate TimerOk(items: seq<Item>)
      reads this
    {
      && (armed <==> items != []) && (items != [] ==> items[|items| - 1].at <= now)
      && (timer.Some? && timer.value.active ==> now < timer.value.deadline && !timer.value.full)
      && (armed ==>
            var deadline := items[|items| - 1].at + DEBOUNCE_MS;
            && timer.Some?
            && (timer.value.active || timer.value.full)
            && (timer.value.active ==> timer.value.deadline == deadline)
            && (timer.value.full ==> deadline <= now))
    }

    constructor ()
      ensures Valid() && fresh(pending) && accepted == [] && windows == [] && now == 0
    {
      now, timer, armed, out := 0, None, false, [];
      accepted, windows := [], [];
      pending := new PendingWindow();
    }

    method Pass(ms: nat)
      requires Valid()
      modifies this`now, this`timer
      ensures Valid() && now == old(now) + ms && Now() == After(old(Now()), Wait(ms))
    {
      now := now + ms;
      if timer.Some? && timer.value.active && timer.value.deadline <= now {
        timer := Some(Timer(false, timer.value.deadline, true));
      }
    }

    /** Start the timer, or start it again; a tick that came before is drained. */
    method Arm()
      requires timer.Some? && timer.value.active ==> !timer.value.full
      modifies this`timer, this`armed
      ensures armed && timer == Some(Timer(true, now + DEBOUNCE_MS, false))
    {
      if timer == None {
        timer := Some(Timer(true, now + DEBOUNCE_MS, false));
      } else {
        var stopped := timer.value.active;
        timer := Some(timer.value.(active := false));
        if !stopped { timer := Some(timer.value.(full := false)); }
        timer := Some(timer.value.(active := true, deadline := now + DEBOUNCE_MS));
      }
      armed := true;
    }

    /** An accepted event: into the window, and the quiet period starts again. */
    method Accept(structural: bool, fn: string, path: string)
      requires Valid()
      modifies this, pending
      ensures Valid() && pending == old(pending) && windows == old(windows) && now == old(now)
      ensures accepted == old(accepted) + [Item(structural, fn, path, now)]
      ensures pending.held.items == old(pending.held.items) + [Item(structural, fn, path, now)]
      ensures Now() == old(Now()).(open := old(pending.held.items) + [Item(structural, fn, path, now)])
    {
      ghost var item := Item(structural, fn, path, now);
      OneMoreItem(Flat(windows), pending.held.items, item);
      pending.Add(structural, fn, path, now);
      accepted := accepted + [item];
      Arm();
    }

    /** The timer case of the select: flush and start an empty window. */
    method Flush()
      requires Valid() && armed && timer.value.full
      modifies this
      ensures Valid() && fresh(pending) && pending.held.items == [] && accepted == old(accepted) && now == old(now)
      ensures Now() == Progress(now, [], old(Now()).flushed + [Batch(old(pending.held.items), now)])
    {
      var events := Send();
      pending := new PendingWindow();
      timer := Some(timer.value.(full := false));
      armed := false;
    }

    method Send() returns (events: seq<Event>)
      requires Valid() && armed && timer.value.full
      modifies this`out, this`windows
      ensures accepted == Flat(windows) && out == Output(windows)
      ensures Batches(windows) == Batches(old(windows)) + [Batch(pending.held.items, now)]
    {
      events := pending.Flush();
      ghost var w := Closing(pending.held.items, now, events);
      OneMore(windows, w);
      out := out + events;
      windows := windows + [w];
    }

    /** What the loop comes to, without its timer. */
    ghost function Now(): Progress
      reads this, pending
    {
      Progress(now, pending.held.items, Batches(windows))
    }

    /** There is a tick to take exactly when the open window is due. */
    lemma TicksWhenDue()
      requires Valid()
      ensures armed && timer.value.full <==> Due(Now())
    {
    }

    /** One turn of the loop. */
    method Step(s: Stimulus) returns (more: bool)
      requires Valid()
      modifies this, pending
      ensures Valid() && (pending == old(pending) || fresh(pending))
      ensures more == !Ends(s) && Now() == After(old(Now()), s)
      ensures s.Change? && !s.ignore ==> accepted == old(accepted) + [Item(s.structural, s.fn, s.path, old(now))]
      ensures !s.Change? || s.ignore ==> accepted == old(accepted)
    {
      more := true;
      TicksWhenDue();
      match s {
        case Cancel | EventsClosed | ErrorsClosed => more := false;
        case WatchError =>
        case Wait(ms) => Pass(ms);
        case Change(path, structural, fn, ignore) => if !ignore { Accept(structural, fn, path); }
        case TimerCase => if armed && timer.value.full { Flush(); }
      }
    }

    /** run, for every order in which events, ticks and the passing of time can come. Every change that came before the
        end, and that classify did not ignore, is accepted; the windows are flushed when, and with what, they should. */
    method Run(script: seq<Stimulus>)
      requires Valid()
      modifies this, pending
      ensures Valid() && (pending == old(pending) || fresh(pending))
      ensures Now() == AfterAll(old(Now()), script) && accepted == old(accepted) + Changes(script, old(now))
      ensures old(accepted) <= accepted && AllTaken(script, old(now), accepted[|old(accepted)|..])
    {
      ghost var start := Now();
      ItemsAreFlat(windows);
      RunLoop(script);
      ItemsAreFlat(windows);
      NothingLost(start, script);
      ChangesAreTaken(script, old(now));
    }

    method RunLoop(script: seq<Stimulus>)
      requires Valid()
      modifies this, pending
      ensures Valid() && (pending == old(pending) || fresh(pending)) && Now() == AfterAll(old(Now()), script)
    {
      ghost var end := AfterAll(Now(), script);
      var k, more := 0, true;
      assert script[0..] == script;
      while more && k < |script|
        invariant 0 <= k <= |script| && Valid() && (pending == old(pending) || fresh(pending))
        invariant end == if more then AfterAll(Now(), script[k..]) else Now()
      {
        AfterAllFrom(Now(), script, k);
        more := Step(script[k]);
        k := k + 1;
      }
    }

    /** 300 quiet ms, and a tick. */
    method Rest(ms: nat)
      requires Valid() && ms >= DEBOUNCE_MS
      modifies this, pending
      ensures Valid() && pending.held.items == [] && accepted == old(accepted)
    {
      AllDue(Now(), ms);
      var more := Step(Wait(ms));
      more := Step(TimerCase);
    }

    /** After any run that does not end, 300 quiet ms and a tick leave nothing unsent: every path of every event that was
        ever accepted has been sent exactly once. */
    method RunToRest(script: seq<Stimulus>, ms: nat)
      requires Valid() && ms >= DEBOUNCE_MS && forall k :: 0 <= k < |script| ==> !Ends(script[k])
      modifies this, pending
      ensures Valid() && old(accepted) <= accepted && AllTaken(script, old(now), accepted[|old(accepted)|..])
      ensures accepted == Flat(windows) && Emitted(out) == multiset(Paths(accepted))
    {
      Run(script);
      Rest(ms);
      PathsConserved(windows);
    }
  }

  /** The windows flushed so far, when each was, and the open one. */
  datatype Batch = Batch(items: seq<Item>, at: nat)
  datatype Progress = Progress(now: nat, open: seq<Item>, flushed: seq<Batch>)

  ghost function Batches(windows: seq<Window>): seq<Batch> {
    if windows == [] then [] else
      var last := windows[|windows| - 1];
      Batches(windows[..|windows| - 1]) + [Batch(last.items, last.at)]
  }

  lemma AllDue(p: Progress, ms: nat)
    requires ms >= DEBOUNCE_MS && (p.open != [] ==> p.open[|p.open| - 1].at <= p.now)
    ensures After(After(p, Wait(ms)), TimerCase).open == []
  {
  }

  predicate Due(p: Progress) { p.open != [] && p.open[|p.open| - 1].at + DEBOUNCE_MS <= p.now }

  /** The open window is flushed by the first tick that comes 300 ms or more after its last event. */
  function After(p: Progress, s: Stimulus): Progress {
    match s
    case Wait(ms) => p.(now := p.now + ms)
    case Change(_, _, _, _) => p.(open := p.open + Accepting(s, p.now))
    case TimerCase => if Due(p) then Progress(p.now, [], p.flushed + [Batch(p.open, p.now)]) else p
    case _ => p
  }

  function AfterAll(p: Progress, script: seq<Stimulus>): Progress
    decreases |script|
  {
    if script == [] || Ends(script[0]) then p else AfterAll(After(p, script[0]), script[1..])
  }

  lemma AfterAllFrom(p: Progress, script: seq<Stimulus>, k: nat)
    requires k < |script|
    ensures AfterAll(p, script[k..])
            == if Ends(script[k]) then p else AfterAll(After(p, script[k]), script[k + 1..])
  {
    assert script[k..][0] == script[k] && script[k..][1..] == script[k + 1..];
  }

  predicate Ends(s: Stimulus) { s.Cancel? || s.EventsClosed? || s.ErrorsClosed? }

  function Accepting(s: Stimulus, now: nat): seq<Item> {
    if s.Change? && !s.ignore then [Item(s.structural, s.fn, s.path, now)] else []
  }

  /** The accepted events among the stimuli before the loop ends. */
  function Changes(script: seq<Stimulus>, now: nat): seq<Item> {
    if script == [] || Ends(script[0]) then [] else
      var s := script[0];
      Accepting(s, now) + Changes(script[1..], now + if s.Wait? then s.ms else 0)
  }

  /** The loop takes the k-th stimulus, and it is a change that classify did not ignore. */
  predicate Taken(script: seq<Stimulus>, k: nat)
    requires k < |script|
  {
    script[k].Change? && !script[k].ignore && forall j :: 0 <= j < k ==> !Ends(script[j])
  }

  /** How many of them there are among the first k, and how much time has passed. */
  function Takes(script: seq<Stimulus>, k: nat): nat
    requires k <= |script|
  {
    if k == 0 then 0 else Takes(script, k - 1) + if Taken(script, k - 1) then 1 else 0
  }

  function Passed(script: seq<Stimulus>, k: nat): nat
    requires k <= |script|
  {
    if k == 0 then 0 else Passed(script, k - 1) + if script[k - 1].Wait? then script[k - 1].ms else 0
  }

  /** These are the changes taken, each as it is and when it came, and no others. */
  ghost predicate AllTaken(script: seq<Stimulus>, now: nat, items: seq<Item>) {
    && |items| == Takes(script, |script|)
    && forall k :: 0 <= k < |script| && Taken(script, k) ==> TakenAt(script, now, items, k)
  }

  predicate TakenAt(script: seq<Stimulus>, now: nat, items: seq<Item>, k: nat)
    requires k < |script| && script[k].Change?
  {
    var s, i := script[k], Takes(script, k);
    i < |items| && items[i] == Item(s.structural, s.fn, s.path, now + Passed(script, k))
  }

  /** Counted from the second stimulus on. */
  lemma {:induction false} FirstApart(script: seq<Stimulus>, k: nat)
    requires 0 < k <= |script|
    ensures Passed(script, k) == Passed(script[1..], k - 1) + if script[0].Wait? then script[0].ms else 0
    ensures Takes(script, k)
            == if Ends(script[0]) then 0
               else Takes(script[1..], k - 1) + if script[0].Change? && !script[0].ignore then 1 else 0
    ensures k < |script| ==> (Taken(script, k) <==> !Ends(script[0]) && Taken(script[1..], k - 1))
  {
    if k < |script| { assert script[1..][k - 1] == script[k]; }
    assert forall j :: 0 < j < k ==> script[j] == script[1..][j - 1];
    if k > 1 { FirstApart(script, k - 1); }
  }

  lemma {:induction false} ChangesAreTaken(script: seq<Stimulus>, now: nat)
    ensures AllTaken(script, now, Changes(script, now))
    decreases |script|
  {
    if script != [] {
      var later := now + if script[0].Wait? then script[0].ms else 0;
      ChangesAreTaken(script[1..], later);
      FirstApart(script, |script|);
      if !Ends(script[0]) {
        forall k | 0 < k < |script| && Taken(script, k) ensures TakenAt(script, now, Changes(script, now), k) {
          TakenLater(script, now, Accepting(script[0], now), Changes(script[1..], later), k);
        }
      }
      assert forall k :: 0 <= k < |script| && Taken(script, k) ==> TakenAt(script, now, Changes(script, now), k);
    }
  }

  lemma TakenLater(script: seq<Stimulus>, now: nat, first: seq<Item>, rest: seq<Item>, k: nat)
    requires 0 < k < |script| && Taken(script, k)
    requires |first| == if script[0].Change? && !script[0].ignore then 1 else 0
    requires AllTaken(script[1..], now + if script[0].Wait? then script[0].ms else 0, rest)
    ensures TakenAt(script, now, first + rest, k)
  {
    FirstApart(script, k);
    assert Taken(script[1..], k - 1) && script[1..][k - 1] == script[k];
  }

  function Items(flushed: seq<Batch>): seq<Item> {
    if flushed == [] then [] else Items(flushed[..|flushed| - 1]) + flushed[|flushed| - 1].items
  }

  lemma {:induction false} ItemsAreFlat(windows: seq<Window>)
    ensures Items(Batches(windows)) == Flat(windows)
  {
    if windows != [] {
      ItemsAreFlat(windows[..|windows| - 1]);
      var last := windows[|windows| - 1];
      assert (Batches(windows[..|windows| - 1]) + [Batch(last.items, last.at)])[..|Batches(windows)| - 1]
             == Batches(windows[..|windows| - 1]);
    }
  }

  lemma TurnKeepsItems(p: Progress, s: Stimulus)
    requires !Ends(s)
    ensures Items(After(p, s).flushed) + After(p, s).open == Items(p.flushed) + p.open + Accepting(s, p.now)
  {
    assert (p.flushed + [Batch(p.open, p.now)])[..|p.flushed|] == p.flushed;
  }

  /** Flushed or not, what a run leaves is what there was and what it accepted, in order. */
  lemma {:induction false} NothingLost(p: Progress, script: seq<Stimulus>)
    ensures var q := AfterAll(p, script);
            Items(q.flushed) + q.open == Items(p.flushed) + p.open + Changes(script, p.now)
    decreases |script|
  {
    if script != [] && !Ends(script[0]) {
      TurnKeepsItems(p, script[0]);
      NothingLost(After(p, script[0]), script[1..]);
    }
  }

  /** Every path of every flushed window was sent exactly once. */
  lemma {:induction false} PathsConserved(windows: seq<Window>)
    ensures Emitted(Output(windows)) == multiset(Paths(Flat(windows)))
  {
    if windows != [] {
      var front, last := windows[..|windows| - 1], windows[|windows| - 1];
      PathsConserved(front);
      EmitsEveryPathOnce(last.items, last.events);
      EmittedAppend(Output(front), last.events);
      PathsAppend(Flat(front), last.items);
    }
  }

  lemma {:induction false} EmittedAppend(a: seq<Event>, b: seq<Event>)
    ensures Emitted(a + b) == Emitted(a) + Emitted(b)
  {
    if b == [] {
      assert a + b == a;
    } else {
      var front, last := b[..|b| - 1], b[|b| - 1];
      EmittedAppend(a, front);
      LastOf(a, b);
      EmittedOneMore(a + front, last);
    }
  }

  lemma LastOf<T>(a: seq<T>, b: seq<T>)
    requires b != []
    ensures a + b == (a + b[..|b| - 1]) + [b[|b| - 1]]
  {
  }

  lemma EmittedOneMore(a: seq<Event>, e: Event)
    ensures Emitted(a + [e]) == Emitted(a) + multiset(e.paths)
  {
    assert (a + [e])[..|a|] == a;
  }

  lemma {:induction false} PathsAppend(a: seq<Item>, b: seq<Item>)
    ensures Paths(a + b) == Paths(a) + Paths(b)
  {
    if b == [] {
      assert a + b == a;
    } else {
      PathsAppend(a, b[..|b| - 1]);
      LastOf(a, b);
      assert (a + b)[..|a + b| - 1] == a + b[..|b| - 1];
    }
  }
}
