/** Runs of the circuit breaker: arbitrarily overlapping calls, whose results
    may land after the state has moved, and the load a failing upstream sees. */
module BreakerRuns {
  import opened Options
  import opened Sequences
  import opened CircuitBreaker

  type CallId = nat

  /** The breaker, the calls between admission and result (true marks a probe),
      how many were ever admitted, and which call opened the last HALF_OPEN period. */
  datatype State = State(memory: Memory, calls: map<CallId, bool>, admitted: nat, opener: Option<CallId>)

  datatype Step =
    | Arrive(c: CallId, t: Ticks, now: Instant)
    | Succeed(c: CallId, now: Instant)
    | Fail(c: CallId, t: Ticks, now: Instant, reason: FailureClass)
    | NestedReject(c: CallId, now: Instant)
    | Reset(signal: Option<Instant>)

  ghost function Finish(s: State, c: CallId, memory: Memory): State {
    s.(memory := memory, calls := map d | d in s.calls && d != c :: s.calls[d])
  }

  ghost function Apply(s: State, threshold: int, timeout: Ticks, step: Step): State {
    match step
    case Arrive(c, t, now) =>
      if c in s.calls then s else
      var (memory, a) := Admit(s.memory, timeout, t, now);
      if a.Rejected? then s
      else State(memory, s.calls[c := a.isProbe], s.admitted + 1, if a.isProbe then Some(c) else s.opener)
    case Succeed(c, now) => if c in s.calls then Finish(s, c, Succeeded(s.memory, now)) else s
    case Fail(c, t, now, reason) =>
      if c in s.calls then Finish(s, c, Failed(s.memory, threshold, t, now, reason)) else s
    case NestedReject(c, now) =>
      if c !in s.calls then s
      else Finish(s, c, if s.calls[c] then ProbeUndone(s.memory, now) else s.memory)
    case Reset(signal) => s.(memory := Honoured(s.memory, signal))
  }

  ghost function Run(threshold: int, timeout: Ticks, steps: seq<Step>): State {
    if steps == [] then State(FRESH, map[], 0, None)
    else Apply(Run(threshold, timeout, steps[..|steps| - 1]), threshold, timeout, steps[|steps| - 1])
  }

  ghost predicate Inv(s: State, threshold: int) {
    && (s.memory.state == HalfOpen <==> s.memory.probing)
    && (s.memory.state == HalfOpen ==> s.opener.Some? && s.opener.value in s.calls && s.calls[s.opener.value])
    && (s.memory.state == Closed && threshold >= 1 ==> s.memory.failures < threshold)
  }

  /** However calls overlap: HALF_OPEN exactly when a probe is marked in flight;
      the call that opened the period is then still unfinished, so HALF_OPEN is
      never stranded; and CLOSED means fewer failures than the threshold. */
  lemma {:induction false} OverlappingCallsKeepTheBreakerSound(threshold: int, timeout: Ticks, steps: seq<Step>)
    ensures Inv(Run(threshold, timeout, steps), threshold)
  {
    if steps != [] {
      OverlappingCallsKeepTheBreakerSound(threshold, timeout, steps[..|steps| - 1]);
    }
  }

  ghost function At(threshold: int, timeout: Ticks, steps: seq<Step>, k: nat): State
    requires k <= |steps|
  {
    Run(threshold, timeout, steps[..k])
  }

  lemma NextAt(threshold: int, timeout: Ticks, steps: seq<Step>, k: nat)
    requires k < |steps|
    ensures At(threshold, timeout, steps, k + 1)
         == Apply(At(threshold, timeout, steps, k), threshold, timeout, steps[k])
  {
    assert steps[..k + 1][..k] == steps[..k];
  }

  /** A HALF_OPEN period spanning states i+1..j admits exactly one call: the one
      that opened it, which is in flight as a probe for the whole period. */
  lemma {:induction false} OneAdmissionPerHalfOpenPeriod(threshold: int, timeout: Ticks, steps: seq<Step>, i: nat,
                                                         j: nat)
    requires i < j <= |steps|
    requires At(threshold, timeout, steps, i).memory.state != HalfOpen
    requires forall k :: i < k <= j ==> At(threshold, timeout, steps, k).memory.state == HalfOpen
    ensures At(threshold, timeout, steps, j).admitted == At(threshold, timeout, steps, i).admitted + 1
    ensures steps[i].Arrive?
    ensures var s := At(threshold, timeout, steps, j);
      s.opener == Some(steps[i].c) && steps[i].c in s.calls && s.calls[steps[i].c]
    decreases j
  {
    NextAt(threshold, timeout, steps, j - 1);
    OverlappingCallsKeepTheBreakerSound(threshold, timeout, steps[..j]);
    if j > i + 1 {
      OneAdmissionPerHalfOpenPeriod(threshold, timeout, steps, i, j - 1);
    }
  }

  // ----- a breaker that has waited long enough lets a probe through -----

  /** When the last failure of the run landed. */
  ghost function LastFailure(threshold: int, timeout: Ticks, steps: seq<Step>): Option<Ticks> {
    if steps == [] then None
    else
      var before, step := steps[..|steps| - 1], steps[|steps| - 1];
      if step.Fail? && step.c in Run(threshold, timeout, before).calls then Some(step.t)
      else LastFailure(threshold, timeout, before)
  }

  /** Without nested rejections, an OPEN breaker has counted at least its threshold and counts
      its recovery from the last failure that landed, stale ones included. */
  lemma {:induction false} OpenSinceTheLastFailure(threshold: int, timeout: Ticks, steps: seq<Step>)
    requires forall k :: 0 <= k < |steps| ==> !steps[k].NestedReject?
    ensures var m := Run(threshold, timeout, steps).memory;
      m.state != Closed ==>
        m.failures >= threshold && m.openedAt.Some? && m.openedAt == LastFailure(threshold, timeout, steps)
  {
    if steps != [] { OpenSinceTheLastFailure(threshold, timeout, steps[..|steps| - 1]); }
  }

  /** An OPEN breaker admits the next arrival, as the probe, if and only if its recovery timeout
      has passed since the last failure; then the probe's success closes it with nothing
      counted, and the probe's failure opens it again from that moment. */
  lemma RecoveredBreakerProbes(threshold: int, timeout: Ticks, steps: seq<Step>, c: CallId, t: Ticks, now: Instant)
    requires forall k :: 0 <= k < |steps| ==> !steps[k].NestedReject?
    requires var s := Run(threshold, timeout, steps); s.memory.state == Open && c !in s.calls
    ensures LastFailure(threshold, timeout, steps).Some?
    ensures var s := Run(threshold, timeout, steps);
      var s' := Apply(s, threshold, timeout, Arrive(c, t, now));
      if t - LastFailure(threshold, timeout, steps).value >= timeout
      then
        && s'.memory.state == HalfOpen && s'.calls == s.calls[c := true] && s'.opener == Some(c)
        && s'.admitted == s.admitted + 1
      else s' == s
    ensures var s' := Apply(Run(threshold, timeout, steps), threshold, timeout, Arrive(c, t, now));
      t - LastFailure(threshold, timeout, steps).value >= timeout ==>
        && (forall at :: var m := Apply(s', threshold, timeout, Succeed(c, at)).memory;
             m.state == Closed && m.failures == 0 && !m.probing)
        && (forall t', at, why :: var m := Apply(s', threshold, timeout, Fail(c, t', at, why)).memory;
             m.state == Open && m.openedAt == Some(t') && !m.probing)
  {
    OpenSinceTheLastFailure(threshold, timeout, steps);
  }

  // ----- the load a failing upstream sees -----

  /** One call made and finished before the next: when it arrived and when it failed. */
  datatype Attempt = Attempt(arrived: Ticks, failed: Ticks, now: Instant)

  ghost function Attempted(m: Memory, threshold: int, timeout: Ticks, a: Attempt): (Memory, nat) {
    var (admitted, verdict) := Admit(m, timeout, a.arrived, a.now);
    if verdict.Rejected? then (admitted, 0) else (Failed(admitted, threshold, a.failed, a.now, Other), 1)
  }

  /** A fresh breaker after a sequence of failing attempts, and how many reached the upstream. */
  ghost function Hammered(threshold: int, timeout: Ticks, attempts: seq<Attempt>): (Memory, nat) {
    if attempts == [] then (FRESH, 0)
    else
      var (m, n) := Hammered(threshold, timeout, attempts[..|attempts| - 1]);
      var (m', k) := Attempted(m, threshold, timeout, attempts[|attempts| - 1]);
      (m', n + k)
  }

  ghost predicate Sequential(attempts: seq<Attempt>, t0: Ticks, t1: Ticks) {
    && (forall k :: 0 <= k < |attempts| ==> t0 <= attempts[k].arrived <= attempts[k].failed <= t1)
    && (forall k :: 1 <= k < |attempts| ==> attempts[k - 1].failed <= attempts[k].arrived)
  }

  /** k recovery timeouts end to end. */
  ghost function Periods(k: nat, timeout: Ticks): Ticks {
    if k == 0 then 0.0 else Periods(k - 1, timeout) + timeout
  }

  lemma {:induction false} PeriodsAreMultiples(k: nat, timeout: Ticks)
    ensures Periods(k, timeout) == k as real * timeout
  {
    if k > 0 { PeriodsAreMultiples(k - 1, timeout); }
  }

  lemma Scales(x: real, y: real, timeout: Ticks)
    requires timeout > 0.0 && x * timeout <= y * timeout
    ensures x <= y
  {
    assert (y - x) * timeout == y * timeout - x * timeout;
  }

  lemma PeriodsFit(k: nat, timeout: Ticks, span: Ticks)
    requires timeout > 0.0 && Periods(k, timeout) <= span
    ensures k as real <= span / timeout
  {
    PeriodsAreMultiples(k, timeout);
    assert span / timeout * timeout == span;
    Scales(k as real, span / timeout, timeout);
  }

  /** How many calls beyond the first threshold ones have been let through. */
  function Beyond(n: nat, threshold: int): nat { Max(0, n - Max(1, threshold)) }

  ghost predicate HammerInv(m: Memory, n: nat, threshold: int, timeout: Ticks, t0: Ticks, last: Ticks) {
    && m.failures == n
    && match m.state
       case Closed => n < Max(1, threshold)
       case Open => m.openedAt.Some? && t0 + Periods(Beyond(n, threshold), timeout) <= m.openedAt.value <= last
       case HalfOpen => false
  }

  lemma HammerStep(m: Memory, n: nat, threshold: int, timeout: Ticks, t0: Ticks, last: Ticks, a: Attempt)
    requires timeout > 0.0 && HammerInv(m, n, threshold, timeout, t0, last)
    requires t0 <= last <= a.arrived <= a.failed
    ensures var (m', k) := Attempted(m, threshold, timeout, a);
      HammerInv(m', n + k, threshold, timeout, t0, a.failed)
  {
    var (m', k) := Attempted(m, threshold, timeout, a);
    if m.state == Closed {
      assert Beyond(n + 1, threshold) == 0;
    } else {
      assert Beyond(n + 1, threshold) <= Beyond(n, threshold) + 1;
    }
  }

  lemma {:induction false} HammeredInv(threshold: int, timeout: Ticks, attempts: seq<Attempt>, t0: Ticks, t1: Ticks)
    requires timeout > 0.0 && t0 <= t1 && Sequential(attempts, t0, t1)
    ensures var (m, n) := Hammered(threshold, timeout, attempts);
      HammerInv(m, n, threshold, timeout, t0, if attempts == [] then t0 else attempts[|attempts| - 1].failed)
  {
    if attempts != [] {
      var before, a := attempts[..|attempts| - 1], attempts[|attempts| - 1];
      HammeredInv(threshold, timeout, before, t0, t1);
      var (m, n) := Hammered(threshold, timeout, before);
      HammerStep(m, n, threshold, timeout, t0, if before == [] then t0 else before[|before| - 1].failed, a);
    }
  }

  /** Sequential calls that all fail between t0 and t1 reach the upstream at most
      threshold + floor((t1 - t0) / recovery timeout) times. A threshold below
      one behaves as one, since the first failure always trips the breaker. */
  lemma FailingUpstreamSeesBoundedLoad(threshold: int, timeout: Ticks, attempts: seq<Attempt>, t0: Ticks, t1: Ticks)
    requires timeout > 0.0 && t0 <= t1 && Sequential(attempts, t0, t1)
    ensures Hammered(threshold, timeout, attempts).1 <= Max(1, threshold) + ((t1 - t0) / timeout).Floor
  {
    HammeredInv(threshold, timeout, attempts, t0, t1);
    var n := Hammered(threshold, timeout, attempts).1;
    PeriodsFit(0, timeout, t1 - t0);
    if Hammered(threshold, timeout, attempts).0.state == Open {
      PeriodsFit(Beyond(n, threshold), timeout, t1 - t0);
    }
  }
}
