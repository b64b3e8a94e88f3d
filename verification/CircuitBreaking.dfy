/** core/circuit_breaker.py for sequential calls. */
module CircuitBreaking {

  datatype Mode = Closed | Open | HalfOpen

  /** How the wrapped function ends; a cancellation is not an Exception, so neither hook runs. */
  datatype Ending = Returns | Raises | Cancelled

  datatype BreakerState = BreakerState(mode: Mode, failures: nat, lastFailure: real) {
    /** Whether a call at this time reaches the function. */
    predicate Lets(now: real, timeout: real) { !mode.Open? || now - lastFailure >= timeout }

    function Entered(): BreakerState { if mode.Open? then this.(mode := HalfOpen) else this }

    function Ended(ending: Ending, now: real, threshold: int): BreakerState {
      match ending
      case Returns => this.(failures := 0, mode := Closed)
      case Raises =>
        if failures + 1 >= threshold then BreakerState(Open, failures + 1, now)
        else this.(failures := failures + 1)
      case Cancelled => this
    }
  }

  const FRESH := BreakerState(Closed, 0, 0.0)

  class CircuitBreaker {
    const threshold: int
    const timeout: real
    var mode: Mode
    var failures: nat
    var lastFailure: real

    ghost function View(): BreakerState reads this { BreakerState(mode, failures, lastFailure) }

    constructor (threshold: int, timeout: real)
      ensures View() == FRESH && this.threshold == threshold && this.timeout == timeout
    {
      this.threshold, this.timeout := threshold, timeout;
      mode, failures, lastFailure := Closed, 0, 0.0;
    }

    /** call: the function is invoked at `start` and ends at `end`. */
    method Call(start: real, end: real, ending: Ending) returns (invoked: bool)
      modifies this
      ensures invoked == old(View()).Lets(start, timeout)
      ensures View() == if invoked then old(View()).Entered().Ended(ending, end, threshold) else old(View())
    {
      if mode == Open {
        if start - lastFailure >= timeout {
          mode := HalfOpen;
        } else {
          return false;
        }
      }
      match ending {
        case Returns => OnSuccess();
        case Raises => OnFailure(end);
        case Cancelled =>
      }
      return true;
    }

    method OnSuccess()
      modifies this
      ensures View() == old(View()).(failures := 0, mode := Closed)
    {
      failures, mode := 0, Closed;
    }

    method OnFailure(now: real)
      modifies this
      ensures View() == old(View()).Ended(Raises, now, threshold)
    {
      failures := failures + 1;
      if failures >= threshold {
        mode, lastFailure := Open, now;
      }
    }
  }

  // ---- Whole runs ----

  datatype Attempt = Attempt(start: real, end: real, ending: Ending)

  ghost predicate Sequential(calls: seq<Attempt>) {
    && (forall i :: 0 <= i < |calls| ==> calls[i].start <= calls[i].end)
    && (forall i, j :: 0 <= i < j < |calls| ==> calls[i].end <= calls[j].start)
  }

  function After(calls: seq<Attempt>, threshold: int, timeout: real): BreakerState {
    if calls == [] then FRESH
    else
      var before, last := After(calls[..|calls| - 1], threshold, timeout), calls[|calls| - 1];
      if before.Lets(last.start, timeout) then before.Entered().Ended(last.ending, last.end, threshold) else before
  }

  /** The endings of the calls that reached the function. */
  function Reached(calls: seq<Attempt>, threshold: int, timeout: real): seq<Ending> {
    if calls == [] then []
    else
      var before, last := After(calls[..|calls| - 1], threshold, timeout), calls[|calls| - 1];
      Reached(calls[..|calls| - 1], threshold, timeout)
        + (if before.Lets(last.start, timeout) then [last.ending] else [])
  }

  /** Failures since the last success. */
  function FailingRun(endings: seq<Ending>): nat {
    if endings == [] || endings[|endings| - 1].Returns? then 0
    else FailingRun(endings[..|endings| - 1]) + (if endings[|endings| - 1].Raises? then 1 else 0)
  }

  /** failure_count is the length of the current failing run; an open breaker (and one left half
      open by a cancellation) has reached the threshold, a closed one with a failure has not. */
  lemma {:induction false} StateTellsFailingRun(calls: seq<Attempt>, threshold: int, timeout: real)
    ensures Tells(After(calls, threshold, timeout), Reached(calls, threshold, timeout), threshold)
  {
    if calls != [] {
      var init, last := calls[..|calls| - 1], calls[|calls| - 1];
      StateTellsFailingRun(init, threshold, timeout);
      if After(init, threshold, timeout).Lets(last.start, timeout) {
        EndingTells(After(init, threshold, timeout), Reached(init, threshold, timeout), last, threshold);
      } else {
        assert Reached(init, threshold, timeout) + [] == Reached(init, threshold, timeout);
      }
    }
  }

  ghost predicate Tells(b: BreakerState, endings: seq<Ending>, threshold: int) {
    && b.failures == FailingRun(endings)
    && (!b.mode.Closed? ==> b.failures >= threshold && b.failures >= 1)
    && (b.mode.Closed? && b.failures >= 1 ==> b.failures < threshold)
  }

  lemma EndingTells(b: BreakerState, endings: seq<Ending>, call: Attempt, threshold: int)
    requires Tells(b, endings, threshold)
    ensures Tells(b.Entered().Ended(call.ending, call.end, threshold), endings + [call.ending], threshold)
  {
    assert (endings + [call.ending])[..|endings|] == endings;
  }

  /** When a call leaves the breaker half open: exactly if it is cancelled after it got through an
      open breaker or one already half open. */
  lemma CancelledProbeStaysHalfOpen(calls: seq<Attempt>, call: Attempt, threshold: int, timeout: real)
    ensures var b := After(calls, threshold, timeout);
            After(calls + [call], threshold, timeout).mode.HalfOpen?
            <==> call.ending.Cancelled? && !b.mode.Closed? && b.Lets(call.start, timeout)
  {
    assert (calls + [call])[..|calls|] == calls;
    StateTellsFailingRun(calls, threshold, timeout);
  }

  /** An open breaker turns calls away until its timeout has passed since the failure that opened
      it, and then lets one through; a success closes it with no failures left, another failure
      opens it again from that moment.  A closed or half-open breaker lets every call through. */
  lemma OpenBreakerRecovers(calls: seq<Attempt>, call: Attempt, threshold: int, timeout: real)
    ensures var b, all := After(calls, threshold, timeout), calls + [call];
            var after := After(all, threshold, timeout);
            var reached := |Reached(all, threshold, timeout)| > |Reached(calls, threshold, timeout)|;
            && (reached <==> b.mode != Open || call.start - b.lastFailure >= timeout)
            && (!reached ==> after == b)
            && (reached && call.ending == Returns ==> after.mode == Closed && after.failures == 0)
            && (reached && call.ending == Raises ==> after.failures == b.failures + 1)
            && (reached && call.ending == Raises && (b.mode != Closed || b.failures + 1 >= threshold) ==>
                  after.mode == Open && after.lastFailure == call.end)
            && (reached && call.ending == Raises && b.mode == Closed && b.failures + 1 < threshold ==>
                  after.mode == Closed && after.lastFailure == b.lastFailure)
  {
    assert (calls + [call])[..|calls|] == calls;
    StateTellsFailingRun(calls, threshold, timeout);
  }

  function Patience(threshold: int): nat { if threshold >= 1 then threshold else 1 }

  ghost predicate AllRaise(calls: seq<Attempt>) { forall i :: 0 <= i < |calls| ==> calls[i].ending.Raises? }

  /** The time n invocations take at least, counted from the first failure past the threshold. */
  function Due(n: nat, threshold: int, timeout: real): real {
    (n - Patience(threshold)) as real * timeout
  }

  /** After n failures and nothing else, the last of them at or before `now`. */
  ghost predicate Spaced(b: BreakerState, n: nat, first: real, now: real, threshold: int, timeout: real) {
    && b.failures == n && !b.mode.HalfOpen?
    && (b.mode.Closed? <==> n < Patience(threshold))
    && (b.mode.Open? ==> first + Due(n, threshold, timeout) <= b.lastFailure <= now)
  }

  lemma SpacedStep(b: BreakerState, n: nat, first: real, before: real, call: Attempt, threshold: int, timeout: real)
    requires Spaced(b, n, first, before, threshold, timeout) && timeout > 0.0
    requires call.ending.Raises? && first <= call.start <= call.end && before <= call.end
    requires b.Lets(call.start, timeout)
    ensures Spaced(b.Entered().Ended(Raises, call.end, threshold), n + 1, first, call.end, threshold, timeout)
    ensures n + 1 > Patience(threshold) ==> first + Due(n + 1, threshold, timeout) <= call.start
  {
    var k := n - Patience(threshold);
    assert (k + 1) as real * timeout == k as real * timeout + timeout;
    if n + 1 == Patience(threshold) {
      assert Due(n + 1, threshold, timeout) == 0.0;
    }
  }

  /** Beyond the threshold each invocation waits out a full timeout after the failure before it. */
  lemma {:induction false} FailuresAreSpaced(calls: seq<Attempt>, threshold: int, timeout: real)
    requires Sequential(calls) && AllRaise(calls) && timeout > 0.0 && calls != []
    ensures var n := |Reached(calls, threshold, timeout)|;
            && Spaced(After(calls, threshold, timeout), n, calls[0].start, calls[|calls| - 1].end, threshold, timeout)
            && (n > Patience(threshold) ==>
                  calls[0].start + Due(n, threshold, timeout) <= calls[|calls| - 1].start)
  {
    var last := |calls| - 1;
    assert calls[0].start <= calls[0].end && (last > 0 ==> calls[0].end <= calls[last].start);
    if last == 0 {
      assert calls[..0] == [];
      SpacedStep(FRESH, 0, calls[0].start, calls[0].start, calls[0], threshold, timeout);
    } else {
      var init := calls[..last];
      FailuresAreSpaced(init, threshold, timeout);
      assert calls[last - 1].start <= calls[last - 1].end <= calls[last].start;
      var b, n := After(init, threshold, timeout), |Reached(init, threshold, timeout)|;
      if b.Lets(calls[last].start, timeout) {
        SpacedStep(b, n, calls[0].start, calls[last - 1].end, calls[last], threshold, timeout);
      }
    }
  }

  lemma TimeoutsFit(k: nat, timeout: real, span: real)
    requires timeout > 0.0 && k as real * timeout <= span
    ensures k <= (span / timeout).Floor
  {
    var q := span / timeout;
    assert q * timeout == span;
    if k as real > q {
      LongerTakesMore(q, k as real, timeout);
    }
  }

  lemma LongerTakesMore(a: real, b: real, timeout: real)
    requires a < b && timeout > 0.0
    ensures a * timeout < b * timeout
  {
    assert (b - a) * timeout > 0.0;
  }

  /** Against a function that always raises, calls started within a time span T reach it at most
      threshold + floor(T / timeout) times. */
  lemma DeadServiceIsSpared(calls: seq<Attempt>, threshold: int, timeout: real, span: real)
    requires Sequential(calls) && AllRaise(calls) && timeout > 0.0
    requires forall i :: 0 <= i < |calls| ==> calls[i].start <= calls[0].start + span
    requires span >= 0.0
    ensures |Reached(calls, threshold, timeout)| <= Patience(threshold) + (span / timeout).Floor
  {
    TimeoutsFit(0, timeout, span);
    if calls != [] {
      var n := |Reached(calls, threshold, timeout)|;
      FailuresAreSpaced(calls, threshold, timeout);
      assert calls[|calls| - 1].start <= calls[0].start + span;
      if n > Patience(threshold) {
        TimeoutsFit(n - Patience(threshold), timeout, span);
      }
    }
  }
}
