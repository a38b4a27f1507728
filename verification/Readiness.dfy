/** waitReady: probing a port with a growing pause until something answers or time runs out. The process and the container
    backend have the same one. Times are in nanoseconds, and pass only in probes and pauses. */
module Readiness {
  const MS: nat := 1_000_000

  /** What the n-th round would meet: a probe that takes so long and succeeds or not, and a cancellation right after
      it, or so long into the pause that follows. */
  datatype Round = Round(took: nat, ok: bool, cancelled: bool, cancelledInPause: bool, after: nat)

  datatype Result = Ready | TimedOut | Cancelled

  datatype Report = Report(result: Result, elapsed: nat, probes: nat)

  /** minDuration: the smaller, a bound that is not positive being none. */
  function MinDuration(a: nat, b: int): nat { if 0 < b < a then b else a }

  function Min(a: nat, b: nat): nat { if a < b then a else b }

  /** The pause after the n-th failed probe: 50, 100, 200, 400 ms and then 500 ms. */
  function Backoff(n: nat): (b: nat)
    ensures 50 * MS <= b <= 500 * MS
  {
    match n case 0 => 50 * MS case 1 => 100 * MS case 2 => 200 * MS case 3 => 400 * MS case _ => 500 * MS
  }

  lemma BackoffDoubles(n: nat)
    ensures Backoff(n + 1) == Min(2 * Backoff(n), 500 * MS)
  {
  }

  /** One round: it ends the wait, or the next one starts at a later time. */
  datatype Turn = Over(report: Report) | Next(at: nat)

  function TurnOf(timeout: int, r: Round, n: nat, now: nat): (t: Turn)
    ensures t.Next? ==> now < t.at <= timeout && (t.at == timeout || t.at >= now + 50 * MS)
    ensures t.Over? ==> t.report.probes == n + 1 && now <= t.report.elapsed
    ensures t.Over? && (now == 0 || now <= timeout) ==>
            t.report.elapsed <= (if timeout > 0 then timeout else 0) + 2000 * MS
    ensures t.Over? && t.report.result == TimedOut ==> t.report.elapsed >= timeout
  {
    var limit := MinDuration(4 * Backoff(n), timeout - now);
    var end := now + Min(r.took, limit);
    if r.ok && r.took <= limit then Over(Report(Ready, end, n + 1))
    else if r.cancelled then Over(Report(Cancelled, end, n + 1))
    else if end >= timeout then Over(Report(TimedOut, end, n + 1))
    else
      var pause := MinDuration(Backoff(n), timeout - end);
      if r.cancelledInPause && r.after <= pause then Over(Report(Cancelled, end + r.after, n + 1)) else Next(end + pause)
  }

  /** What becomes of the rounds from the n-th on, which starts at a time `now`. */
  function From(timeout: int, rounds: nat -> Round, n: nat, now: nat): Report
    decreases timeout - now
  {
    match TurnOf(timeout, rounds(n), n, now)
    case Over(r) => r
    case Next(at) => From(timeout, rounds, n + 1, at)
  }

  method WaitReady(timeout: int, rounds: nat -> Round) returns (r: Report)
    ensures r == From(timeout, rounds, 0, 0)
  {
    var deadline, now, n := timeout, 0, 0;
    var backoff, maxBackoff := 50 * MS, 500 * MS;
    while true
      invariant backoff == Backoff(n) && From(timeout, rounds, n, now) == From(timeout, rounds, 0, 0)
      decreases timeout - now
    {
      var turn := OneRound(deadline, rounds(n), n, now, backoff);
      if turn.Over? { return turn.report; }
      BackoffDoubles(n);
      now, n := turn.at, n + 1;
      backoff := backoff * 2;
      if backoff > maxBackoff { backoff := maxBackoff; }
    }
  }

  /** The loop's body, up to where the pause grows. */
  method OneRound(deadline: int, round: Round, n: nat, start: nat, backoff: nat) returns (turn: Turn)
    requires backoff == Backoff(n)
    ensures turn == TurnOf(deadline, round, n, start)
  {
    var limit := MinDuration(backoff * 4, deadline - start);
    var now := start + Min(round.took, limit);
    if round.ok && round.took <= limit { return Over(Report(Ready, now, n + 1)); }
    if round.cancelled { return Over(Report(Cancelled, now, n + 1)); }
    if !(now < deadline) { return Over(Report(TimedOut, now, n + 1)); }
    var pause := MinDuration(backoff, deadline - now);
    if round.cancelledInPause && round.after <= pause { return Over(Report(Cancelled, now + round.after, n + 1)); }
    turn := Next(now + pause);
  }

  /** However the probes go it ends no more than 2 s late, though a deadline that has just passed does not limit the
      last probe; and it does not give up early. */
  lemma {:induction false} EndsInTime(timeout: int, rounds: nat -> Round, n: nat, now: nat)
    requires now == 0 || now <= timeout
    ensures var r := From(timeout, rounds, n, now);
            && now <= r.elapsed && r.elapsed <= (if timeout > 0 then timeout else 0) + 2000 * MS
            && (r.result == TimedOut ==> r.elapsed >= timeout)
    decreases timeout - now
  {
    match TurnOf(timeout, rounds(n), n, now)
    case Over(_) =>
    case Next(at) => EndsInTime(timeout, rounds, n + 1, at);
  }

  /** The number of probes, from the n-th on: one for every whole 50 ms that is left, and two; one if none is left. */
  lemma {:induction false} FewProbes(timeout: int, rounds: nat -> Round, n: nat, now: nat)
    requires now <= timeout
    ensures var more := From(timeout, rounds, n, now).probes - n;
            if now < timeout then (more - 2) * (50 * MS) <= timeout - now else more <= 1
    decreases timeout - now
  {
    match TurnOf(timeout, rounds(n), n, now)
    case Over(_) =>
    case Next(at) => FewProbes(timeout, rounds, n + 1, at);
  }

  /** waitReady's bounds. */
  lemma Bounds(timeout: int, rounds: nat -> Round)
    ensures From(timeout, rounds, 0, 0).elapsed <= (if timeout > 0 then timeout else 0) + 2000 * MS
    ensures timeout > 0 ==> From(timeout, rounds, 0, 0).probes <= timeout / (50 * MS) + 2
  {
    EndsInTime(timeout, rounds, 0, 0);
    if timeout > 0 { FewProbes(timeout, rounds, 0, 0); }
  }

  /** The 2 s are reached: probes that fail at once up to the deadline, and then one that hangs. */
  lemma LateByTwoSeconds()
    ensures exists timeout: nat, rounds :: From(timeout, rounds, 0, 0) == Report(TimedOut, timeout + 2000 * MS, 6)
  {
    var timeout: nat := 1250 * MS;
    var rounds := n => Round(if n < 5 then 0 else 2000 * MS, false, false, false, 0);
    assert From(timeout, rounds, 5, 1250 * MS) == Report(TimedOut, timeout + 2000 * MS, 6);
    assert From(timeout, rounds, 4, 750 * MS) == Report(TimedOut, timeout + 2000 * MS, 6);
    assert From(timeout, rounds, 3, 350 * MS) == Report(TimedOut, timeout + 2000 * MS, 6);
    assert From(timeout, rounds, 2, 150 * MS) == Report(TimedOut, timeout + 2000 * MS, 6);
    assert From(timeout, rounds, 1, 50 * MS) == Report(TimedOut, timeout + 2000 * MS, 6);
    assert From(timeout, rounds, 0, 0) == Report(TimedOut, timeout + 2000 * MS, 6);
  }

  /** A probe ends the wait with success exactly if it succeeds within its own limit: four times the pause that would
      follow it, or what is left until the deadline if that is less and not nothing. A success counts even when the
      caller gives up at that moment. */
  lemma ReadyIff(timeout: int, rounds: nat -> Round, n: nat, now: nat)
    ensures var r, left := rounds(n), timeout - now;
            var inTime := r.took <= 4 * Backoff(n) && (left > 0 ==> r.took <= left);
            && (r.ok && inTime ==> From(timeout, rounds, n, now) == Report(Ready, now + r.took, n + 1))
            && (TurnOf(timeout, r, n, now).Over? && TurnOf(timeout, r, n, now).report.result == Ready ==> r.ok && inTime)
  {
  }

  /** A caller that gives up is answered at once, in a probe that has not succeeded or in the pause after it. */
  lemma CancelledAtOnce(timeout: int, rounds: nat -> Round, n: nat, now: nat)
    requires !rounds(n).ok
    ensures var r := rounds(n);
            && (r.cancelled ==> From(timeout, rounds, n, now).result == Cancelled
                                && From(timeout, rounds, n, now).elapsed <= now + r.took)
            && (!r.cancelled && r.cancelledInPause && r.after == 0 && now + r.took < timeout
                && r.took <= 4 * Backoff(n) ==>
                  From(timeout, rounds, n, now) == Report(Cancelled, now + r.took, n + 1))
  {
  }
}
