/** The three-state circuit breaker: what each locked section of a call does to
    the breaker's memory, and the in-process object that holds it. */
module CircuitBreaker {
  import opened Options

  type Instant = int   // wall clock
  type Ticks = real    // monotonic clock, seconds

  datatype CircuitState = Closed | Open | HalfOpen
  datatype FailureClass = Timeout | Connection | Other

  datatype Memory = Memory(state: CircuitState, failures: nat, openedAt: Option<Ticks>, probing: bool,
                           changedAt: Option<Instant>, failedAt: Option<Instant>, reason: Option<FailureClass>,
                           observedReset: Option<Instant>)

  const FRESH := Memory(Closed, 0, None, false, None, None, None, None)

  datatype Admission = Rejected | Admitted(isProbe: bool)

  /** The record another process reads. */
  datatype Record = Record(state: CircuitState, failures: nat, threshold: int, recoveryTimeout: Ticks,
                           changedAt: Option<Instant>, failedAt: Option<Instant>, reason: Option<FailureClass>)

  const REFRESH_INTERVAL: Ticks := 60.0

  function Entered(m: Memory, state: CircuitState, now: Instant): Memory {
    if state == m.state then m else m.(state := state, changedAt := Some(now))
  }

  predicate Recovered(m: Memory, recoveryTimeout: Ticks, t: Ticks) {
    t - (if m.openedAt.Some? then m.openedAt.value else 0.0) >= recoveryTimeout
  }

  function Admit(m: Memory, recoveryTimeout: Ticks, t: Ticks, now: Instant): (Memory, Admission) {
    if m.state == Closed then (m, Admitted(false))
    else if m.state == Open && Recovered(m, recoveryTimeout, t)
    then (Entered(m, HalfOpen, now).(probing := true), Admitted(true))
    else (m, Rejected)
  }

  function Succeeded(m: Memory, now: Instant): Memory {
    Entered(m, Closed, now).(failures := 0, openedAt := None, probing := false)
  }

  function Failed(m: Memory, threshold: int, t: Ticks, now: Instant, reason: FailureClass): Memory {
    var counted := m.(probing := false, failures := m.failures + 1, failedAt := Some(now), reason := Some(reason));
    if m.state == HalfOpen || m.failures + 1 >= threshold
    then Entered(counted, Open, now).(openedAt := Some(t)) else counted
  }

  /** A nested breaker rejected a probe: the upstream was never reached. */
  function ProbeUndone(m: Memory, now: Instant): Memory {
    Entered(m.(probing := false), Open, now)
  }

  /** Forget what predates the reset signal; keep a failure that is newer. */
  function Honoured(m: Memory, signal: Option<Instant>): Memory {
    if signal.None? || signal == m.observedReset then m
    else if m.failedAt.Some? && m.failedAt.value > signal.value then m.(observedReset := signal)
    else FRESH.(observedReset := signal)
  }

  function RecordOf(m: Memory, threshold: int, recoveryTimeout: Ticks): Record {
    Record(m.state, m.failures, threshold, recoveryTimeout, m.changedAt, m.failedAt, m.reason)
  }

  class Breaker {
    const threshold: int
    const recoveryTimeout: Ticks
    var state: CircuitState
    var failureCount: nat
    var openedAt: Option<Ticks>
    var probeInFlight: bool
    var lastStateChangeAt: Option<Instant>
    var lastFailureAt: Option<Instant>
    var lastFailureReason: Option<FailureClass>
    var observedResetAt: Option<Instant>
    var recordedAt: Option<Ticks>

    ghost function View(): Memory reads this {
      Memory(state, failureCount, openedAt, probeInFlight, lastStateChangeAt, lastFailureAt, lastFailureReason,
             observedResetAt)
    }

    constructor (threshold: int, recoveryTimeout: Ticks)
      ensures View() == FRESH && this.threshold == threshold && this.recoveryTimeout == recoveryTimeout
      ensures recordedAt == None
    {
      this.threshold, this.recoveryTimeout := threshold, recoveryTimeout;
      state, failureCount, openedAt, probeInFlight := Closed, 0, None, false;
      lastStateChangeAt, lastFailureAt, lastFailureReason := None, None, None;
      observedResetAt, recordedAt := None, None;
    }

    method SetState(to: CircuitState, now: Instant)
      modifies this`state, this`lastStateChangeAt
      ensures View() == Entered(old(View()), to, now)
    {
      if to == state { return; }
      state := to;
      lastStateChangeAt := Some(now);
    }

    /** The locked section that decides whether a call may go through. */
    method Arrive(t: Ticks, now: Instant) returns (a: Admission)
      modifies this
      ensures (View(), a) == Admit(old(View()), recoveryTimeout, t, now) && recordedAt == old(recordedAt)
      ensures match old(state)
        case Closed => a == Admitted(false) && View() == old(View())
        case HalfOpen => a == Rejected && View() == old(View())
        case Open =>
          if t - (if old(openedAt).Some? then old(openedAt).value else 0.0) >= recoveryTimeout
          then a == Admitted(true)
               && View() == old(View()).(state := HalfOpen, probing := true, changedAt := Some(now))
          else a == Rejected && View() == old(View())
    {
      a := Admitted(false);
      if state == Open {
        var since := if openedAt.Some? then openedAt.value else 0.0;
        if t - since >= recoveryTimeout {
          SetState(HalfOpen, now);
          probeInFlight := true;
          a := Admitted(true);
        } else {
          a := Rejected;
        }
      } else if state == HalfOpen {
        a := Rejected;
      }
    }

    method OnSuccess(now: Instant) returns (changed: bool)
      modifies this
      ensures View() == Succeeded(old(View()), now) && changed == (old(state) != Closed)
      ensures state == Closed && failureCount == 0 && openedAt == None && !probeInFlight
      ensures lastStateChangeAt == if changed then Some(now) else old(lastStateChangeAt)
      ensures lastFailureAt == old(lastFailureAt) && lastFailureReason == old(lastFailureReason)
      ensures observedResetAt == old(observedResetAt)
      ensures recordedAt == old(recordedAt)
    {
      var was := state;
      SetState(Closed, now);
      failureCount, openedAt, probeInFlight := 0, None, false;
      changed := was != Closed;
    }

    method OnFailure(t: Ticks, now: Instant, reason: FailureClass) returns (changed: bool)
      modifies this
      ensures View() == Failed(old(View()), threshold, t, now, reason) && changed == (old(state) != state)
      ensures failureCount == old(failureCount) + 1 && !probeInFlight
      ensures lastFailureAt == Some(now) && lastFailureReason == Some(reason) && observedResetAt == old(observedResetAt)
      ensures if old(state) == HalfOpen || old(failureCount) + 1 >= threshold
        then state == Open && openedAt == Some(t) else state == old(state) && openedAt == old(openedAt)
      ensures lastStateChangeAt == if changed then Some(now) else old(lastStateChangeAt)
      ensures recordedAt == old(recordedAt)
    {
      probeInFlight := false;
      failureCount := failureCount + 1;
      lastFailureAt, lastFailureReason := Some(now), Some(reason);
      var was := state;
      var tripped := failureCount >= threshold;
      if state == HalfOpen || tripped {
        SetState(Open, now);
        openedAt := Some(t);
      }
      changed := was != state;
    }

    method OnNestedRejection(isProbe: bool, now: Instant)
      modifies this
      ensures View() == (if isProbe then ProbeUndone(old(View()), now) else old(View()))
      ensures isProbe ==> View() == old(View()).(state := Open, probing := false, changedAt := lastStateChangeAt)
      ensures isProbe ==> lastStateChangeAt == if old(state) == Open then old(lastStateChangeAt) else Some(now)
      ensures recordedAt == old(recordedAt)
    {
      if isProbe {
        probeInFlight := false;
        SetState(Open, now);
      }
    }

    method HonourReset(signal: Option<Instant>) returns (cleared: bool)
      modifies this
      ensures View() == Honoured(old(View()), signal) && recordedAt == old(recordedAt)
      ensures signal.None? || signal == old(observedResetAt) ==> View() == old(View())
      ensures signal.Some? && signal != old(observedResetAt) ==> observedResetAt == signal
      ensures signal.Some? && signal != old(observedResetAt) ==>
        if old(lastFailureAt).Some? && old(lastFailureAt).value > signal.value
        then View() == old(View()).(observedReset := signal)
        else state == Closed && failureCount == 0 && openedAt == None && !probeInFlight
             && lastStateChangeAt == None && lastFailureAt == None && lastFailureReason == None
      ensures cleared ==> signal.Some? && View() == FRESH.(observedReset := signal)
      ensures cleared <==>
        && signal.Some? && signal != old(observedResetAt)
        && !(old(lastFailureAt).Some? && old(lastFailureAt).value > signal.value)
        && (old(state) != Closed || old(failureCount) != 0 || old(lastStateChangeAt).Some? || old(lastFailureAt).Some?)
    {
      if signal.None? || signal == observedResetAt {
        return false;
      }
      observedResetAt := signal;
      if lastFailureAt.Some? && lastFailureAt.value > signal.value {
        return false;
      }
      cleared := !(state == Closed && failureCount == 0 && lastStateChangeAt.None? && lastFailureAt.None?);
      state, failureCount, openedAt, probeInFlight := Closed, 0, None, false;
      lastStateChangeAt, lastFailureAt, lastFailureReason := None, None, None;
    }

    /** Publish unless unchanged and throttled; a publish always weighs the reset signal first. */
    method Publish(changed: bool, t: Ticks, t': Ticks, signal: Option<Instant>) returns (record: Option<Record>)
      modifies this
      ensures var throttled := !changed && old(recordedAt).Some? && t - old(recordedAt).value < REFRESH_INTERVAL;
        if throttled then record == None && View() == old(View()) && recordedAt == old(recordedAt)
        else View() == Honoured(old(View()), signal) && recordedAt == Some(t')
             && record == Some(RecordOf(View(), threshold, recoveryTimeout))
      ensures record.None? <==> !changed && old(recordedAt).Some? && t - old(recordedAt).value < 60.0
      ensures record.Some? ==>
        record.value == Record(state, failureCount, threshold, recoveryTimeout, lastStateChangeAt, lastFailureAt,
                               lastFailureReason)
    {
      if !changed && recordedAt.Some? && t - recordedAt.value < REFRESH_INTERVAL {
        return None;
      }
      var cleared := HonourReset(signal);
      recordedAt := Some(t');
      record := Some(Record(state, failureCount, threshold, recoveryTimeout, lastStateChangeAt, lastFailureAt,
                            lastFailureReason));
    }
  }
}
