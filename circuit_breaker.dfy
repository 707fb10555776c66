/**
 * The consolidated service's circuit breaker: a three-state gate (Closed,
 * Open, HalfOpen) with a failure counter and the time of the last failure.
 * `Step` is the specification of one call; the class `CircuitBreaker` keeps
 * the state in fields and updates them as the source does.
 */
module Resilience {
  import opened Common

  datatype CircuitState = Closed | Open | HalfOpen

  /** The breaker's mutable fields, as a value. */
  datatype BreakerState = BreakerState(state: CircuitState, failureCount: int, lastFailureTime: Option<DateTime>)

  /** What the wrapped unit of work does when it is invoked. */
  datatype ActionOutcome<+T> = Completed(value: T) | Threw(error: Exception)

  /** One call of the breaker: the state after it, what the caller sees, and whether the work ran. */
  datatype Execution<+T> = Execution(next: BreakerState, result: Result<T, Exception>, invoked: bool)

  /** One call in a sequence of calls: when it is made and what its work does. */
  datatype Call<+T> = Call(at: DateTime, action: ActionOutcome<T>)

  /** The exception thrown, without invoking the work, while the breaker is open. */
  const CircuitOpenError := Exception(InvalidOperation, "Circuit breaker is open")

  /** A freshly constructed breaker. */
  const Initial := BreakerState(Closed, 0, None)

  /** The state every reachable breaker is in: an open breaker has failed at least `threshold` times and knows when. */
  predicate Inv(s: BreakerState, threshold: int) {
    && s.failureCount >= 0
    && (s.state == Open ==> s.lastFailureTime.Some? && s.failureCount >= threshold)
  }

  /**
   * `now - lastFailureTime > durationOfBreak`. The source compares a nullable
   * difference, which is false when no failure was ever recorded.
   */
  predicate CooldownElapsed(s: BreakerState, durationOfBreak: TimeSpan, now: DateTime) {
    match s.lastFailureTime
    case None => false
    case Some(t) => now - t > durationOfBreak
  }

  /** The specification of `ExecuteAsync<T>`. */
  function Step<T>(s: BreakerState, threshold: int, durationOfBreak: TimeSpan, now: DateTime, action: ActionOutcome<T>): (x: Execution<T>)
    ensures Inv(s, threshold) ==> Inv(x.next, threshold)
    ensures x.invoked <==> !(s.state == Open && !CooldownElapsed(s, durationOfBreak, now))
  {
    if s.state == Open && !CooldownElapsed(s, durationOfBreak, now) then
      Execution(s, Failure(CircuitOpenError), false)
    else
      var entered := if s.state == Open then s.(state := HalfOpen) else s;
      match action
      case Completed(v) =>
        var next := if entered.state == HalfOpen then entered.(state := Closed, failureCount := 0)
                    else entered.(failureCount := 0);
        Execution(next, Success(v), true)
      case Threw(e) =>
        var failed := entered.(failureCount := entered.failureCount + 1, lastFailureTime := Some(now));
        var next := if failed.failureCount >= threshold then failed.(state := Open) else failed;
        Execution(next, Failure(e), true)
  }

  /** The state after a sequence of calls, the last call last. */
  function Replay<T>(s: BreakerState, threshold: int, durationOfBreak: TimeSpan, calls: seq<Call<T>>): (r: BreakerState)
    ensures Inv(s, threshold) ==> Inv(r, threshold)
  {
    if calls == [] then s
    else
      var last := calls[|calls| - 1];
      Step(Replay(s, threshold, durationOfBreak, calls[..|calls| - 1]), threshold, durationOfBreak, last.at, last.action).next
  }

  /** The non-generic overload runs the work and then returns `true`. */
  function ReturningTrue(action: ActionOutcome<()>): (a: ActionOutcome<bool>)
    ensures a.Completed? <==> action.Completed?
    ensures a.Completed? ==> a.value
    ensures a.Threw? ==> a.error == action.error
  {
    match action
    case Completed(_) => Completed(true)
    case Threw(e) => Threw(e)
  }

  /** While open and inside the cooldown (the comparison is strict), the call is refused and nothing changes. */
  lemma RejectedWhileOpen<T>(s: BreakerState, threshold: int, durationOfBreak: TimeSpan, now: DateTime, action: ActionOutcome<T>)
    requires s.state == Open && s.lastFailureTime.Some?
    requires now - s.lastFailureTime.value <= durationOfBreak
    ensures Step(s, threshold, durationOfBreak, now, action) == Execution(s, Failure(CircuitOpenError), false)
  {
  }

  /**
   * Once the cooldown has passed, an open breaker lets one probe through: a
   * success closes it, a failure is rethrown and counted on top of the
   * failures that opened it (see `FailedProbeReopens`).
   */
  lemma ProbeAfterCooldown<T>(s: BreakerState, threshold: int, durationOfBreak: TimeSpan, now: DateTime, action: ActionOutcome<T>)
    requires s.state == Open && s.lastFailureTime.Some?
    requires now - s.lastFailureTime.value > durationOfBreak
    ensures var x := Step(s, threshold, durationOfBreak, now, action);
      && x.invoked
      && (action.Completed? ==> x.next == s.(state := Closed, failureCount := 0) && x.result == Success(action.value))
      && (action.Threw? ==> x.result == Failure(action.error) && x.next.failureCount == s.failureCount + 1
                            && x.next.lastFailureTime == Some(now))
  {
  }

  /** A completed call returns the work's value unchanged, closes the breaker and clears the count. */
  lemma SuccessResets<T>(s: BreakerState, threshold: int, durationOfBreak: TimeSpan, now: DateTime, v: T)
    requires Step(s, threshold, durationOfBreak, now, Completed(v)).invoked
    ensures var x := Step(s, threshold, durationOfBreak, now, Completed(v));
      && x.result == Success(v)
      && x.next == BreakerState(Closed, 0, s.lastFailureTime)
  {
  }

  /**
   * A failed call counts exactly one failure, records `now`, rethrows the same
   * exception, and opens the breaker exactly when the count reaches the
   * threshold; below it the state is the one the call ran in.
   */
  lemma FailureCounts<T>(s: BreakerState, threshold: int, durationOfBreak: TimeSpan, now: DateTime, e: Exception)
    requires Step(s, threshold, durationOfBreak, now, ActionOutcome<T>.Threw(e)).invoked
    ensures var x := Step(s, threshold, durationOfBreak, now, ActionOutcome<T>.Threw(e));
      && x.result == Failure(e)
      && x.next.failureCount == s.failureCount + 1
      && x.next.lastFailureTime == Some(now)
      && (x.next.state == Open <==> s.failureCount + 1 >= threshold)
      && (s.failureCount + 1 < threshold ==> x.next.state == (if s.state == Open then HalfOpen else s.state))
  {
  }

  /** The count is not reset on entering HalfOpen, so a failed probe re-opens at once. */
  lemma FailedProbeReopens<T>(s: BreakerState, threshold: int, durationOfBreak: TimeSpan, now: DateTime, e: Exception)
    requires Inv(s, threshold) && s.state == Open
    requires CooldownElapsed(s, durationOfBreak, now)
    ensures var x := Step(s, threshold, durationOfBreak, now, ActionOutcome<T>.Threw(e));
      x.invoked && x.next.state == Open && x.next.lastFailureTime == Some(now)
  {
  }

  /**
   * Consecutive failures starting from a breaker that is not open: below the
   * threshold they only count up; once the count reaches the threshold the
   * breaker is open, and it stays open however many more calls fail.
   */
  lemma {:induction false} ConsecutiveFailuresOpen<T>(s: BreakerState, threshold: int, durationOfBreak: TimeSpan, calls: seq<Call<T>>)
    requires Inv(s, threshold) && s.state != Open
    requires forall i :: 0 <= i < |calls| ==> calls[i].action.Threw?
    ensures var r := Replay(s, threshold, durationOfBreak, calls);
      && (s.failureCount + |calls| < threshold ==> r.state == s.state && r.failureCount == s.failureCount + |calls|)
      && (s.failureCount + |calls| >= threshold && |calls| > 0 ==> r.state == Open)
  {
    if calls != [] {
      var prefix := calls[..|calls| - 1];
      ConsecutiveFailuresOpen(s, threshold, durationOfBreak, prefix);
    }
  }

  /**
   * A closed breaker with a zero count is left exactly as it is by any
   * sequence of calls whose work completes: it never opens and never rejects.
   */
  lemma {:induction false} CompletedCallsKeepClosed<T>(s: BreakerState, threshold: int, durationOfBreak: TimeSpan, calls: seq<Call<T>>)
    requires s.state == Closed && s.failureCount == 0
    requires forall i :: 0 <= i < |calls| ==> calls[i].action.Completed?
    ensures Replay(s, threshold, durationOfBreak, calls) == s
  {
    if calls != [] {
      CompletedCallsKeepClosed(s, threshold, durationOfBreak, calls[..|calls| - 1]);
    }
  }

  /** `SimpleCircuitBreaker`: the thresholds are fixed at construction, the state is updated in place. */
  class CircuitBreaker {
    const failureThreshold: int
    const durationOfBreak: TimeSpan
    var state: CircuitState
    var failureCount: int
    var lastFailureTime: Option<DateTime>

    /** The fields as a value. */
    function Snapshot(): BreakerState
      reads this
    {
      BreakerState(state, failureCount, lastFailureTime)
    }

    ghost predicate Valid()
      reads this
    {
      Inv(Snapshot(), failureThreshold)
    }

    constructor (failureThreshold: int, durationOfBreak: TimeSpan)
      ensures this.failureThreshold == failureThreshold && this.durationOfBreak == durationOfBreak
      ensures Snapshot() == Initial
      ensures Valid()
    {
      this.failureThreshold := failureThreshold;
      this.durationOfBreak := durationOfBreak;
      state := Closed;
      failureCount := 0;
      lastFailureTime := None;
    }

    /** `ExecuteAsync<T>`: gate, run the work (given as its outcome), then record success or failure. */
    method Execute<T>(action: ActionOutcome<T>, now: DateTime) returns (result: Result<T, Exception>, invoked: bool)
      requires Valid()
      modifies this
      ensures Valid()
      ensures Execution(Snapshot(), result, invoked) == Step(old(Snapshot()), failureThreshold, durationOfBreak, now, action)
    {
      invoked := false;
      if state == Open {
        var elapsed := match lastFailureTime
          case None => false
          case Some(t) => now - t > durationOfBreak;
        if elapsed {
          state := HalfOpen;
        } else {
          result := Failure(CircuitOpenError);
          return;
        }
      }
      invoked := true;
      match action
      case Completed(v) =>
        if state == HalfOpen {
          state := Closed;
          failureCount := 0;
        } else {
          failureCount := 0;
        }
        result := Success(v);
      case Threw(e) =>
        failureCount := failureCount + 1;
        lastFailureTime := Some(now);
        if failureCount >= failureThreshold {
          state := Open;
        }
        result := Failure(e);
    }

    /** The non-generic `ExecuteAsync`: the generic one on work that returns `true`, with the value dropped. */
    method ExecuteVoid(action: ActionOutcome<()>, now: DateTime) returns (result: Result<(), Exception>, invoked: bool)
      requires Valid()
      modifies this
      ensures Valid()
      ensures var x := Step(old(Snapshot()), failureThreshold, durationOfBreak, now, ReturningTrue(action));
        && Snapshot() == x.next
        && invoked == x.invoked
        && (result.Success? <==> x.result.Success?)
        && (result.Failure? ==> result.error == x.result.error)
    {
      var r;
      r, invoked := Execute(ReturningTrue(action), now);
      match r
      case Success(_) => result := Success(());
      case Failure(e) => result := Failure(e);
    }
  }
}
