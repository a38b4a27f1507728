/** The channel between a watch and the server: it holds eight events, the watch blocks in a flush while it is full, and
    looks at its context only between flushes. */
module WatchChannel {
  const CAPACITY: nat := 8

  /** What a watch reports: the project's shape has changed, or a function's code. */
  datatype Report = OfStructure | OfCode(fn: string)

  /** `unsent` is what the flush under way has still to send; `done` that the watch's context is. The rest is history. */
  datatype Chan = Chan(
    queue: seq<Report>,
    unsent: seq<Report>,
    done: bool,
    ended: bool,              // the watch has returned, and closed the channel
    reported: seq<Report>,    // everything flushed
    received: seq<Report>)    // everything the server has received

  /** Nothing reported is lost in the channel: it was received, or is in it, or is still to be sent. */
  predicate ChanOk(c: Chan) {
    && |c.queue| <= CAPACITY && c.reported == c.received + c.queue + c.unsent
    && (c.ended ==> c.done && c.unsent == [])
  }

  type Channel = c: Chan | ChanOk(c) witness Chan([], [], false, false, [], [])

  const NEW_CHANNEL: Channel := Chan([], [], false, false, [], [])

  /** What the watch does, and its context's end. */
  datatype Step = Flush(reports: seq<Report>) | Send | Finish | Done

  predicate CanStep(c: Chan, s: Step) {
    match s
    case Flush(_) => !c.ended && c.unsent == []
    case Send => c.unsent != [] && |c.queue| < CAPACITY
    case Finish => !c.ended && c.unsent == [] && c.done
    case Done => true
  }

  function After(c: Channel, s: Step): (c': Channel)
    requires CanStep(c, s)
    ensures c'.received == c.received && c.reported <= c'.reported && c.queue <= c'.queue
    ensures (c.done ==> c'.done) && (c.ended ==> c'.ended)
  {
    match s
    case Flush(reports) => c.(unsent := reports, reported := c.reported + reports)
    case Send =>
      assert c.unsent == [c.unsent[0]] + c.unsent[1..];
      c.(queue := c.queue + [c.unsent[0]], unsent := c.unsent[1..])
    case Finish => c.(ended := true)
    case Done => c.(done := true)
  }

  /** A run of the watch while nobody receives. */
  predicate CanRun(c: Channel, steps: seq<Step>)
    decreases |steps|
  {
    steps == [] || (CanStep(c, steps[0]) && CanRun(After(c, steps[0]), steps[1..]))
  }

  function Ran(c: Channel, steps: seq<Step>): Channel
    requires CanRun(c, steps)
    decreases |steps|
  {
    if steps == [] then c else Ran(After(c, steps[0]), steps[1..])
  }

  /** The server's `ev, ok := <-ch`, when there is one. */
  function Receive(c: Channel): (c': Channel)
    requires c.queue != []
    ensures c'.received == c.received + [c.queue[0]] && c'.queue == c.queue[1..] && c'.unsent == c.unsent
    ensures c'.reported == c.reported && c'.done == c.done && c'.ended == c.ended
  {
    assert c.queue == [c.queue[0]] + c.queue[1..];
    c.(queue := c.queue[1..], received := c.received + [c.queue[0]])
  }

  // ---------------------------------------------------------------------------------------------
  // A watch that nobody receives from any more
  // ---------------------------------------------------------------------------------------------

  /** What it had reported and was not received is lost, and so is what it reports from then on. */
  lemma {:induction false} AbandonedIsLost(c: Channel, steps: seq<Step>)
    requires CanRun(c, steps)
    ensures var c' := Ran(c, steps);
            c'.received == c.received && c.queue <= c'.queue && c'.reported == c.received + c'.queue + c'.unsent
    decreases |steps|
  {
    if steps != [] { AbandonedIsLost(After(c, steps[0]), steps[1..]); }
  }

  predicate Fits(c: Chan) { |c.queue| + |c.unsent| <= CAPACITY }

  /** With more than the channel can hold, it blocks in its flush for ever, whatever becomes of its context. */
  lemma {:induction false} Stuck(c: Channel, steps: seq<Step>)
    requires CanRun(c, steps) && !Fits(c)
    ensures !Ran(c, steps).ended && Ran(c, steps).unsent != [] && !Fits(Ran(c, steps))
    decreases |steps|
  {
    if steps != [] { Stuck(After(c, steps[0]), steps[1..]); }
  }

  /** Nine reports of one window, with the server at something else when the watch is cancelled, are enough. */
  lemma TooMany(reports: seq<Report>)
    requires |reports| > CAPACITY
    ensures var steps := [Flush(reports), Done];
            CanRun(NEW_CHANNEL, steps) && Ran(NEW_CHANNEL, steps).done && !Fits(Ran(NEW_CHANNEL, steps))
  {
    var steps := [Flush(reports), Done];
    var flushed := After(NEW_CHANNEL, Flush(reports));
    assert steps[1..] == [Done] && [Done][1..] == [];
    assert CanRun(flushed, [Done]) && Ran(flushed, [Done]) == After(flushed, Done);
  }

  /** The steps of a watch that sees nothing more: send the rest, and return. */
  function Drain(n: nat): seq<Step> { if n == 0 then [Finish] else [Send] + Drain(n - 1) }

  lemma {:induction false} Drains(c: Channel)
    requires Fits(c) && c.done && !c.ended
    ensures CanRun(c, Drain(|c.unsent|)) && Ran(c, Drain(|c.unsent|)).ended
    decreases |c.unsent|
  {
    if c.unsent == [] {
      assert Drain(0)[1..] == [];
    } else {
      Drains(After(c, Send));
      assert Drain(|c.unsent|)[1..] == Drain(|c.unsent| - 1);
    }
  }

  /** A cancelled watch that nobody receives from can end exactly if what it still has to send fits in the channel. */
  lemma EndsIffFits(c: Channel)
    requires c.done && !c.ended
    ensures (exists steps :: CanRun(c, steps) && Ran(c, steps).ended) <==> Fits(c)
  {
    if Fits(c) { Drains(c); }
    if !Fits(c) {
      forall steps | CanRun(c, steps) ensures !Ran(c, steps).ended { Stuck(c, steps); }
    }
  }

  /** And it does, if it flushes no other window first: any steps of its own but those lead there in time. */
  lemma {:induction false} EndsInTime(c: Channel, steps: seq<Step>)
    requires CanRun(c, steps) && c.done && !c.ended && |steps| > |c.unsent|
    requires forall k :: 0 <= k < |steps| ==> steps[k].Send? || steps[k].Finish?
    ensures Ran(c, steps).ended && Fits(c)
    decreases |steps|
  {
    if c.unsent == [] {
      assert steps[0].Finish?;
      StaysEnded(After(c, Finish), steps[1..]);
    } else {
      EndsInTime(After(c, Send), steps[1..]);
    }
  }

  lemma {:induction false} StaysEnded(c: Channel, steps: seq<Step>)
    requires CanRun(c, steps) && c.ended
    ensures Ran(c, steps).ended
    decreases |steps|
  {
    if steps != [] { StaysEnded(After(c, steps[0]), steps[1..]); }
  }
}
