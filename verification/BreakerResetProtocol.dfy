/** Breakers failing, recovering and publishing in any order around the store
    operations of any number of overlapping resets, with the store's keys free to expire. */
module BreakerResetProtocol {
  import opened Options
  import opened CircuitBreaker
  import opened BreakerReset

  type BreakerId = nat
  type ResetId = nat

  datatype Process = Process(name: Name, threshold: int, timeout: Ticks, memory: Memory)

  /** Where a reset is between two of its store operations: its signal is raised and SCAN is
      listing keys, or the keys are listed and their records are read, then rewritten. SCAN
      returns every key that stays throughout (`constant`), and may return or miss any other.
      `standing` while no signal has expired since, every publish could read it, and no
      rewrite of this reset was lost. */
  datatype Reset =
    | Listing(at: Instant, standing: bool, constant: set<Name>)
    | Reading(at: Instant, standing: bool, unread: set<Name>, dirty: map<Name, Record>)

  /** `resets` are those in progress, `started` how many there have been. `guarantee` is the
      latest instant of a reset that finished standing, as long as a signal has stood in the
      store since then and every publish could read it. */
  datatype World = World(now: Instant, signal: Option<Instant>, records: map<Name, Record>,
                         breakers: map<BreakerId, Process>, resets: map<ResetId, Reset>, started: nat,
                         guarantee: Option<Instant>)

  datatype Step =
    | Tick(to: Instant)
    | Register(b: BreakerId, name: Name, threshold: int, timeout: Ticks)
    | Admits(b: BreakerId, t: Ticks)
    | Fails(b: BreakerId, t: Ticks, reason: FailureClass)
    | Succeeds(b: BreakerId)
    | UndoesProbe(b: BreakerId)
    | Honours(b: BreakerId)
    | Publishes(b: BreakerId)
    | PublishesUnread(b: BreakerId)           // the signal could not be read, which counts as no reset
    | ResetSignals
    | ResetLists(r: ResetId, listed: set<Name>)
    | ResetReads(r: ResetId, n: Name)
    | ResetRewrites(r: ResetId, n: Name)
    | ResetLoses(r: ResetId, n: Name)         // a rewrite the store dropped
    | ResetAborts(r: ResetId)                 // a key or record could not be read, or its process stopped
    | ResetFinishes(r: ResetId)
    | RecordExpires(n: Name)
    | SignalExpires

  ghost predicate IsBreakerStep(step: Step) {
    step.Admits? || step.Fails? || step.Succeeds? || step.UndoesProbe? || step.Honours? || step.Publishes?
  }

  ghost predicate IsResetStep(step: Step) {
    || step.ResetLists? || step.ResetReads? || step.ResetRewrites? || step.ResetLoses? || step.ResetAborts?
    || step.ResetFinishes?
  }

  ghost function Remember(w: World, b: BreakerId, m: Memory): World
    requires b in w.breakers
  {
    w.(breakers := w.breakers[b := w.breakers[b].(memory := m)])
  }

  ghost function Published(w: World, b: BreakerId): World
    requires b in w.breakers
  {
    var p := w.breakers[b];
    var m := Honoured(p.memory, w.signal);
    Remember(w, b, m).(records := w.records[p.name := RecordOf(m, p.threshold, p.timeout)])
  }

  /** Every unbroken promise ends; what the store holds does not change. */
  ghost function Unpromised(w: World): World {
    w.(guarantee := None, resets := map r | r in w.resets :: w.resets[r].(standing := false))
  }

  ghost function BreakerStep(w: World, step: Step): World
    requires IsBreakerStep(step)
  {
    if step.b !in w.breakers then w else
    var p := w.breakers[step.b];
    match step
    case Admits(b, t) => Remember(w, b, Admit(p.memory, p.timeout, t, w.now).0)
    case Fails(b, t, reason) => Remember(w, b, Failed(p.memory, p.threshold, t, w.now, reason))
    case Succeeds(b) => Remember(w, b, Succeeded(p.memory, w.now))
    case UndoesProbe(b) => Remember(w, b, ProbeUndone(p.memory, w.now))
    case Honours(b) => Remember(w, b, Honoured(p.memory, w.signal))
    case Publishes(b) => Published(w, b)
  }

  ghost function Without<K, V>(m: map<K, V>, x: K): map<K, V> { map k | k in m && k != x :: m[k] }

  ghost function Later(a: Option<Instant>, b: Instant): Option<Instant> {
    if a.Some? && a.value >= b then a else Some(b)
  }

  /** A reset after its next read, whatever is found there. */
  ghost function ReadOne(p: Reset, records: map<Name, Record>, n: Name): Reset
    requires p.Reading?
  {
    p.(unread := p.unread - {n},
       dirty := if n in records && !ResetClean(records[n]) then p.dirty[n := records[n]] else p.dirty)
  }

  ghost predicate MayWrite(p: Reset, n: Name) { p.Reading? && p.unread == {} && n in p.dirty }

  ghost function ResetStep(w: World, step: Step): World
    requires IsResetStep(step)
  {
    if step.r !in w.resets then w else
    var p := w.resets[step.r];
    match step
    case ResetLists(r, listed) =>
      if p.Listing? && p.constant <= listed
      then w.(resets := w.resets[r := Reading(p.at, p.standing, listed, map[])]) else w
    case ResetReads(r, n) =>
      if p.Reading? && n in p.unread then w.(resets := w.resets[r := ReadOne(p, w.records, n)]) else w
    case ResetRewrites(r, n) =>
      if MayWrite(p, n)
      then w.(records := w.records[n := Cleaned(p.dirty[n])], resets := w.resets[r := p.(dirty := Without(p.dirty, n))])
      else w
    case ResetLoses(r, n) =>
      if MayWrite(p, n)
      then w.(resets := w.resets[r := p.(standing := false, dirty := Without(p.dirty, n))]) else w
    case ResetAborts(r) => w.(resets := Without(w.resets, r))
    case ResetFinishes(r) =>
      if p.Reading? && p.unread == {} && p.dirty == map[]
      then w.(resets := Without(w.resets, r), guarantee := if p.standing then Later(w.guarantee, p.at) else w.guarantee)
      else w
  }

  /** A key that goes is no longer one that SCAN must return. */
  ghost function Gone(p: Reset, n: Name): Reset { if p.Listing? then p.(constant := p.constant - {n}) else p }

  ghost function Apply(w: World, step: Step): World {
    match step
    case Tick(to) => if w.now <= to then w.(now := to) else w
    case Register(b, name, threshold, timeout) =>
      if b in w.breakers then w else w.(breakers := w.breakers[b := Process(name, threshold, timeout, FRESH)])
    case RecordExpires(n) =>
      w.(records := Without(w.records, n), resets := map r | r in w.resets :: Gone(w.resets[r], n))
    case SignalExpires => Unpromised(w).(signal := None)
    case PublishesUnread(b) =>
      if b !in w.breakers then w else
      var p := w.breakers[b];
      Unpromised(w).(records := w.records[p.name := RecordOf(p.memory, p.threshold, p.timeout)])
    case ResetSignals =>
      w.(signal := Some(w.now), resets := w.resets[w.started := Listing(w.now, true, w.records.Keys)],
         started := w.started + 1)
    case ResetLists(_, _) => ResetStep(w, step)
    case ResetReads(_, _) => ResetStep(w, step)
    case ResetRewrites(_, _) => ResetStep(w, step)
    case ResetLoses(_, _) => ResetStep(w, step)
    case ResetAborts(_) => ResetStep(w, step)
    case ResetFinishes(_) => ResetStep(w, step)
    case _ => BreakerStep(w, step)
  }

  ghost function Init(start: Instant): World { World(start, None, map[], map[], map[], 0, None) }

  ghost function Run(w: World, steps: seq<Step>): World {
    if steps == [] then w else Apply(Run(w, steps[..|steps| - 1]), steps[|steps| - 1])
  }

  /** No failure older than the instant. */
  ghost predicate Since(failedAt: Option<Instant>, at: Instant) {
    failedAt.Some? ==> failedAt.value >= at
  }

  ghost predicate RecordsSince(w: World, at: Instant) {
    forall n :: n in w.records ==> Since(w.records[n].failedAt, at)
  }

  ghost predicate MemorySound(w: World, b: BreakerId) {
    b in w.breakers ==> var m := w.breakers[b].memory;
      && (m.observedReset.Some? ==> m.observedReset.value <= w.now && Since(m.failedAt, m.observedReset.value))
      && (m.failedAt.Some? ==> m.failedAt.value <= w.now)
  }

  /** The reset is bound to come to n's record, or has it down to be rewritten. */
  ghost predicate Ahead(p: Reset, n: Name) {
    match p
    case Listing(_, _, constant) => n in constant
    case Reading(_, _, unread, dirty) => n in unread || n in dirty
  }

  ghost predicate ResetSound(w: World, r: ResetId) {
    r in w.resets ==> var p := w.resets[r];
      && r < w.started
      && (p.standing ==>
            && w.signal.Some? && p.at <= w.signal.value
            && forall n :: n in w.records ==> Since(w.records[n].failedAt, p.at) || Ahead(p, n))
  }

  ghost predicate SignalSound(w: World) {
    && (w.signal.Some? ==> w.signal.value <= w.now)
    && (w.guarantee.Some? ==>
          w.signal.Some? && w.guarantee.value <= w.signal.value && RecordsSince(w, w.guarantee.value))
  }

  ghost predicate Inv(w: World) {
    && SignalSound(w)
    && (forall b :: MemorySound(w, b))
    && (forall r :: ResetSound(w, r))
  }

  lemma ApplyKeepsMemory(w: World, step: Step, b: BreakerId)
    requires SignalSound(w) && MemorySound(w, b)
    ensures MemorySound(Apply(w, step), b)
  {
    if IsBreakerStep(step) { BreakerStepKeepsMemory(w, step, b); }
  }

  lemma BreakerStepKeepsMemory(w: World, step: Step, b: BreakerId)
    requires SignalSound(w) && MemorySound(w, b) && IsBreakerStep(step)
    ensures MemorySound(BreakerStep(w, step), b)
  {
  }

  lemma PublishIsSinceTheSignal(w: World, b: BreakerId)
    requires MemorySound(w, b) && b in w.breakers && w.signal.Some?
    ensures Since(Honoured(w.breakers[b].memory, w.signal).failedAt, w.signal.value)
  {
  }

  lemma ApplyKeepsReset(w: World, step: Step, r: ResetId)
    requires Inv(w)
    ensures ResetSound(Apply(w, step), r)
  {
    assert ResetSound(w, r);
    if step.Publishes? && step.b in w.breakers && w.signal.Some? {
      assert MemorySound(w, step.b);
      PublishIsSinceTheSignal(w, step.b);
    }
  }

  lemma ApplyKeepsSignal(w: World, step: Step)
    requires Inv(w)
    ensures SignalSound(Apply(w, step))
  {
    if step.Publishes? && step.b in w.breakers && w.signal.Some? {
      assert MemorySound(w, step.b);
      PublishIsSinceTheSignal(w, step.b);
    } else if step.ResetFinishes? {
      assert ResetSound(w, step.r);
    }
  }

  lemma ApplyKeepsInv(w: World, step: Step)
    requires Inv(w)
    ensures Inv(Apply(w, step))
  {
    ApplyKeepsSignal(w, step);
    forall b ensures MemorySound(Apply(w, step), b) { assert MemorySound(w, b); ApplyKeepsMemory(w, step, b); }
    forall r ensures ResetSound(Apply(w, step), r) { ApplyKeepsReset(w, step, r); }
  }

  lemma {:induction false} RunKeepsInv(w: World, steps: seq<Step>)
    requires Inv(w)
    ensures Inv(Run(w, steps))
  {
    if steps != [] {
      RunKeepsInv(w, steps[..|steps| - 1]);
      ApplyKeepsInv(Run(w, steps[..|steps| - 1]), steps[|steps| - 1]);
    }
  }

  /** Once a reset has finished without losing a rewrite, and for as long as the signal
      it raised (or a later one) stands and every publish can read it, no published
      record carries a failure older than it, however resets overlap or abort. */
  lemma NoOldFailureIsPublishedAfterAReset(start: Instant, steps: seq<Step>)
    ensures var w := Run(Init(start), steps);
      w.guarantee.Some? ==> RecordsSince(w, w.guarantee.value)
  {
    RunKeepsInv(Init(start), steps);
  }

  // ----- a failure newer than the reset survives -----

  /** The breaker remembers a failure no older than `at`, newer than the signal in force. */
  ghost predicate Remembers(w: World, b: BreakerId, at: Instant) {
    && b in w.breakers && w.breakers[b].memory.failedAt.Some? && w.breakers[b].memory.failedAt.value >= at
    && (w.signal.Some? ==> w.signal.value < at)
  }

  lemma ApplyKeepsRemembered(w: World, step: Step, b: BreakerId, at: Instant)
    requires Inv(w) && Remembers(w, b, at) && !step.ResetSignals?
    ensures Remembers(Apply(w, step), b, at)
  {
    assert MemorySound(w, b);
  }

  /** A failure newer than the reset outlives every interleaving short of a new
      reset, and the breaker's next publish carries it. */
  lemma {:induction false} NewerFailureSurvives(w: World, steps: seq<Step>, b: BreakerId, at: Instant)
    requires Inv(w) && Remembers(w, b, at) && forall k :: 0 <= k < |steps| ==> !steps[k].ResetSignals?
    ensures Remembers(Run(w, steps), b, at)
    ensures var later := Apply(Run(w, steps), Publishes(b)); var n := Run(w, steps).breakers[b].name;
      n in later.records && later.records[n].failedAt.Some? && later.records[n].failedAt.value >= at
  {
    if steps != [] {
      RunKeepsInv(w, steps[..|steps| - 1]);
      NewerFailureSurvives(w, steps[..|steps| - 1], b, at);
      ApplyKeepsRemembered(Run(w, steps[..|steps| - 1]), steps[|steps| - 1], b, at);
    }
  }

  // ----- when a published failure survives the resets in progress -----

  /** A failure newer than the signal, published before the reset reads its record, is
      dirty to the reset like any other, and is rewritten. */
  lemma ResetReadsANewerFailureAsDirty(w: World, r: ResetId, n: Name)
    requires r in w.resets && w.resets[r].Reading? && w.resets[r].unread == {n} && n in w.records
    requires w.records[n].failedAt.Some? && w.records[n].failedAt.value > w.resets[r].at
    ensures Apply(Apply(w, ResetReads(r, n)), ResetRewrites(r, n)).records[n].failedAt == None
  {
    assert w.resets[r].unread - {n} == {};
  }

  /** The store holds one record, of a failure newer than the signal of the one reset in
      progress, which is still listing keys and need not return this one. */
  ghost predicate NewSinceTheSignal(w: World, n: Name) {
    && n in w.records && w.signal.Some? && w.resets == map[0 := Listing(w.signal.value, true, {})]
    && w.records[n].failedAt.Some? && w.records[n].failedAt.value > w.signal.value
  }

  /** Reached from an empty world: the signal is raised, then a breaker fails and publishes its first record. */
  lemma NewSinceTheSignalIsReached(start: Instant, b: BreakerId, p: Process, t: Ticks, reason: FailureClass)
    ensures var signalled := Apply(Apply(Init(start), Register(b, p.name, p.threshold, p.timeout)), ResetSignals);
      var failed := Apply(Apply(signalled, Tick(start + 1)), Fails(b, t, reason));
      NewSinceTheSignal(Apply(failed, Publishes(b)), p.name)
  {
    var signalled := Apply(Apply(Init(start), Register(b, p.name, p.threshold, p.timeout)), ResetSignals);
    assert signalled.records.Keys == {};
    assert signalled.resets == map[0 := Listing(start, true, {})] && signalled.signal == Some(start);
    var failed := Apply(Apply(signalled, Tick(start + 1)), Fails(b, t, reason));
    assert b in failed.breakers && failed.breakers[b].memory.failedAt == Some(start + 1);
    assert failed.breakers[b].name == p.name && failed.resets == signalled.resets && failed.signal == Some(start);
  }

  /** SCAN comes after the signal, so a record that did not exist when it was raised is
      listed, read and rewritten like any other. */
  lemma RecordNewSinceTheSignalIsRewritten(w: World, n: Name)
    requires NewSinceTheSignal(w, n)
    ensures var listed := Apply(w, ResetLists(0, {n}));
      Apply(Apply(listed, ResetReads(0, n)), ResetRewrites(0, n)).records[n].failedAt == None
  {
    var listed := Apply(w, ResetLists(0, {n}));
    assert listed.resets[0] == Reading(w.signal.value, true, {n}, map[]) && listed.records == w.records;
    ResetReadsANewerFailureAsDirty(listed, 0, n);
  }

  /** A failure newer than the signal, published after the reset has read an older
      record dirty, is overwritten; the breaker's next publish restores it. */
  lemma RewriteOverwritesANewerPublish(w: World, r: ResetId, b: BreakerId)
    requires Inv(w) && b in w.breakers && r in w.resets && MayWrite(w.resets[r], w.breakers[b].name)
    requires w.signal == Some(w.resets[r].at)
    requires w.breakers[b].memory.failedAt.Some? && w.breakers[b].memory.failedAt.value > w.resets[r].at
    ensures var n := w.breakers[b].name;
      var published := Apply(w, Publishes(b));
      var rewritten := Apply(published, ResetRewrites(r, n));
      && published.records[n].failedAt == w.breakers[b].memory.failedAt
      && rewritten.records[n].failedAt == None
      && Apply(rewritten, Publishes(b)).records[n].failedAt == w.breakers[b].memory.failedAt
  {
  }

  /** No new reset, no expiry of n's record, and nothing published under n. */
  ghost predicate LeavesAlone(w: World, step: Step, n: Name) {
    && !step.ResetSignals? && step != RecordExpires(n)
    && ((step.Publishes? || step.PublishesUnread?) && step.b in w.breakers ==> w.breakers[step.b].name != n)
  }

  ghost predicate RunLeavesAlone(w: World, steps: seq<Step>, n: Name) {
    forall k :: 0 <= k < |steps| ==> LeavesAlone(Run(w, steps[..k]), steps[k], n)
  }

  /** The reset has listed its keys, and has read n's record and found it clean, or has not listed it. */
  ghost predicate PassedBy(p: Reset, n: Name) { p.Reading? && n !in p.unread && n !in p.dirty }

  ghost predicate AllPassedBy(w: World, n: Name) { forall r :: r in w.resets ==> PassedBy(w.resets[r], n) }

  lemma StepKeepsRecord(w: World, step: Step, n: Name)
    requires n in w.records && AllPassedBy(w, n) && LeavesAlone(w, step, n)
    ensures var w' := Apply(w, step); AllPassedBy(w', n) && n in w'.records && w'.records[n] == w.records[n]
  {
  }

  lemma {:induction false} RunKeepsRecord(w: World, steps: seq<Step>, n: Name)
    requires n in w.records && AllPassedBy(w, n) && RunLeavesAlone(w, steps, n)
    ensures var w' := Run(w, steps); AllPassedBy(w', n) && n in w'.records && w'.records[n] == w.records[n]
  {
    if steps != [] {
      var before := steps[..|steps| - 1];
      forall k | 0 <= k < |before| ensures LeavesAlone(Run(w, before[..k]), before[k], n) {
        assert before[..k] == steps[..k];
      }
      RunKeepsRecord(w, before, n);
      assert LeavesAlone(Run(w, before), steps[|before|], n);
      StepKeepsRecord(Run(w, before), steps[|before|], n);
    }
  }

  lemma {:induction false} RunFirst(w: World, step: Step, steps: seq<Step>)
    ensures Run(w, [step] + steps) == Run(Apply(w, step), steps)
  {
    var all := [step] + steps;
    if steps == [] {
      assert all[..0] == [];
    } else {
      RunFirst(w, step, steps[..|steps| - 1]);
      assert all[..|all| - 1] == [step] + steps[..|steps| - 1];
    }
  }

  lemma LeavesAloneFirst(w: World, step: Step, steps: seq<Step>, n: Name)
    requires LeavesAlone(w, step, n) && RunLeavesAlone(Apply(w, step), steps, n)
    ensures RunLeavesAlone(w, [step] + steps, n)
  {
    var all := [step] + steps;
    forall k | 0 <= k < |all| ensures LeavesAlone(Run(w, all[..k]), all[k], n) {
      if k == 0 {
        assert all[..0] == [];
      } else {
        assert all[..k] == [step] + steps[..k - 1];
        RunFirst(w, step, steps[..k - 1]);
      }
    }
  }

  /** The reset lists its keys, n among them, if it has not yet, reads on until nothing is
      unread, and has n down as dirty. */
  lemma {:induction false} ReadsOn(w: World, r: ResetId, n: Name) returns (steps: seq<Step>)
    requires r in w.resets && !PassedBy(w.resets[r], n) && n in w.records && !ResetClean(w.records[n])
    ensures RunLeavesAlone(w, steps, n)
    ensures var w' := Run(w, steps); r in w'.resets && MayWrite(w'.resets[r], n)
    decreases w.resets[r].Listing?, if w.resets[r].Reading? then w.resets[r].unread else {}
  {
    var p := w.resets[r];
    if p.Reading? && p.unread == {} {
      steps := [];
    } else {
      var next;
      if p.Listing? {
        next := ResetLists(r, p.constant + {n});
      } else {
        var m :| m in p.unread;
        next := ResetReads(r, m);
      }
      var rest := ReadsOn(Apply(w, next), r, n);
      steps := [next] + rest;
      RunFirst(w, next, rest);
      LeavesAloneFirst(w, next, rest, n);
    }
  }

  /** A published failure, however new, outlives every continuation without a new reset,
      an expiry of its record or another publish under its name, if and only if every reset
      in progress has listed its keys and has n's record neither to read nor to rewrite. */
  lemma PublishedFailureSurvivesIff(w: World, n: Name)
    requires n in w.records && w.records[n].failedAt.Some?
    ensures (forall steps :: RunLeavesAlone(w, steps, n) ==>
               n in Run(w, steps).records && Run(w, steps).records[n] == w.records[n])
            <==> AllPassedBy(w, n)
  {
    if AllPassedBy(w, n) {
      forall steps | RunLeavesAlone(w, steps, n)
        ensures n in Run(w, steps).records && Run(w, steps).records[n] == w.records[n]
      {
        RunKeepsRecord(w, steps, n);
      }
    } else {
      var r :| r in w.resets && !PassedBy(w.resets[r], n);
      var reading := ReadsOn(w, r, n);
      RewriteFollows(w, reading, r, n);
    }
  }

  lemma RewriteFollows(w: World, reading: seq<Step>, r: ResetId, n: Name)
    requires RunLeavesAlone(w, reading, n)
    requires var w' := Run(w, reading); r in w'.resets && MayWrite(w'.resets[r], n)
    ensures var steps := reading + [ResetRewrites(r, n)];
      RunLeavesAlone(w, steps, n) && n in Run(w, steps).records && Run(w, steps).records[n].failedAt == None
  {
    var steps := reading + [ResetRewrites(r, n)];
    assert steps[..|reading|] == reading;
    forall k | 0 <= k < |steps| ensures LeavesAlone(Run(w, steps[..k]), steps[k], n) {
      if k < |reading| { assert steps[..k] == reading[..k]; }
    }
  }

  // ----- a second reset finds nothing to rewrite -----

  /** As it was at boot, but for the last signal weighed. */
  ghost predicate CleanMemory(m: Memory) { m == FRESH.(observedReset := m.observedReset) }

  /** The next weighing of a signal at this instant clears the memory. */
  ghost predicate Forgettable(m: Memory, at: Instant) {
    && (m.observedReset.Some? ==> m.observedReset.value < at)
    && (m.failedAt.Some? ==> m.failedAt.value <= at)
  }

  ghost predicate MemorySettles(w: World, b: BreakerId)
    requires w.signal.Some?
  {
    b in w.breakers ==> CleanMemory(w.breakers[b].memory) || Forgettable(w.breakers[b].memory, w.signal.value)
  }

  /** A signal stands, every memory is clean or about to be, and every record is clean
      or still has the reset r ahead of it. */
  ghost predicate Settling(w: World, r: ResetId) {
    && w.signal.Some? && w.signal.value <= w.now && r < w.started
    && (forall b :: MemorySettles(w, b))
    && (forall n :: n in w.records ==> ResetClean(w.records[n]) || (r in w.resets && Ahead(w.resets[r], n)))
  }

  /** Nothing dirty is published, and no reset from the k-th on has found anything. */
  ghost predicate NothingDirty(w: World, k: nat) {
    && k <= w.started && (forall n :: n in w.records ==> ResetClean(w.records[n]))
    && (forall q :: q in w.resets && q >= k && w.resets[q].Reading? ==> w.resets[q].dirty == map[])
  }

  /** No new failure, no probe undone, no signal expired or unreadable, and the reset r
      neither aborted nor lost a rewrite. */
  ghost predicate Quiet(step: Step, r: ResetId) {
    && !step.Fails? && !step.UndoesProbe? && !step.SignalExpires? && !step.PublishesUnread?
    && step != ResetAborts(r) && !(step.ResetLoses? && step.r == r)
  }

  ghost predicate AllQuiet(steps: seq<Step>, r: ResetId) { forall k :: 0 <= k < |steps| ==> Quiet(steps[k], r) }

  lemma QuietMemory(m: Memory, at: Instant, timeout: Ticks, t: Ticks, now: Instant)
    requires CleanMemory(m) || Forgettable(m, at)
    ensures CleanMemory(Honoured(m, Some(at)))
    ensures CleanMemory(Admit(m, timeout, t, now).0) || Forgettable(Admit(m, timeout, t, now).0, at)
    ensures CleanMemory(Succeeded(m, now)) || Forgettable(Succeeded(m, now), at)
  {
  }

  lemma QuietBreakers(w: World, step: Step, r: ResetId)
    requires Settling(w, r) && Quiet(step, r) && (IsBreakerStep(step) || step.Register?)
    ensures Settling(Apply(w, step), r)
    ensures forall n :: n in Apply(w, step).records ==>
      ResetClean(Apply(w, step).records[n]) || (n in w.records && Apply(w, step).records[n] == w.records[n])
  {
    if IsBreakerStep(step) && step.b in w.breakers {
      assert MemorySettles(w, step.b);
      var p := w.breakers[step.b];
      QuietMemory(p.memory, w.signal.value, p.timeout, if step.Admits? then step.t else 0.0, w.now);
    }
    var w' := Apply(w, step);
    forall b ensures MemorySettles(w', b) { assert MemorySettles(w, b); }
  }

  lemma QuietResets(w: World, step: Step, r: ResetId)
    requires Settling(w, r) && Quiet(step, r) && !IsBreakerStep(step) && !step.Register?
    ensures Settling(Apply(w, step), r)
  {
    var w' := Apply(w, step);
    forall b ensures MemorySettles(w', b) { assert MemorySettles(w, b); }
  }

  lemma QuietKeepsSettling(w: World, step: Step, r: ResetId)
    requires Settling(w, r) && Quiet(step, r)
    ensures Settling(Apply(w, step), r)
  {
    if IsBreakerStep(step) || step.Register? { QuietBreakers(w, step, r); } else { QuietResets(w, step, r); }
  }

  lemma QuietKeepsClean(w: World, step: Step, r: ResetId, k: nat)
    requires Settling(w, r) && Quiet(step, r) && NothingDirty(w, k)
    ensures NothingDirty(Apply(w, step), k)
  {
    if IsBreakerStep(step) || step.Register? { QuietBreakers(w, step, r); }
  }

  lemma {:induction false} QuietRunKeepsSettling(w: World, steps: seq<Step>, r: ResetId, k: nat)
    requires Settling(w, r) && AllQuiet(steps, r)
    ensures Settling(Run(w, steps), r)
    ensures NothingDirty(w, k) ==> NothingDirty(Run(w, steps), k)
  {
    if steps != [] {
      var before, step := steps[..|steps| - 1], steps[|steps| - 1];
      QuietRunKeepsSettling(w, before, r, k);
      QuietKeepsSettling(Run(w, before), step, r);
      if NothingDirty(Run(w, before), k) { QuietKeepsClean(Run(w, before), step, r, k); }
    }
  }

  ghost predicate WeighedEarlier(w: World) {
    forall b :: b in w.breakers && w.breakers[b].memory.observedReset.Some? ==>
      w.breakers[b].memory.observedReset.value < w.now
  }

  lemma SignalSettles(w: World)
    requires Inv(w) && WeighedEarlier(w)
    ensures Settling(Apply(w, ResetSignals), w.started)
  {
    forall b ensures MemorySettles(Apply(w, ResetSignals), b) { assert MemorySound(w, b); }
  }

  lemma FinishedMeansClean(w: World, r: ResetId)
    requires Inv(w) && Settling(w, r) && r !in w.resets
    ensures NothingDirty(w, w.started)
  {
    forall q | q in w.resets ensures q < w.started { assert ResetSound(w, q); }
  }

  /** From a reset signalled later than any signal a breaker has weighed, whatever other
      resets are in progress, through any interleaving of admissions, successes, publishes,
      registrations, expiring records and reset steps: once that reset has finished
      everything published is clean, and stays so through any number of further resets,
      overlapping or not, none of which finds a record to rewrite. */
  lemma SecondResetRewritesNothing(w: World, first: seq<Step>, more: seq<Step>)
    requires Inv(w) && WeighedEarlier(w)
    requires AllQuiet(first, w.started) && AllQuiet(more, w.started)
    requires w.started !in Run(Apply(w, ResetSignals), first).resets
    ensures var w1 := Run(Apply(w, ResetSignals), first);
      var w2 := Run(w1, more);
      NothingDirty(w2, w1.started) && forall q, n :: q >= w1.started ==> Apply(w2, ResetRewrites(q, n)) == w2
  {
    var r, w0 := w.started, Apply(w, ResetSignals);
    SignalSettles(w);
    QuietRunKeepsSettling(w0, first, r, 0);
    var w1 := Run(w0, first);
    ApplyKeepsInv(w, ResetSignals);
    RunKeepsInv(w0, first);
    FinishedMeansClean(w1, r);
    QuietRunKeepsSettling(w1, more, r, w1.started);
    NothingToRewrite(Run(w1, more), w1.started);
  }

  lemma NothingToRewrite(w: World, k: nat)
    requires NothingDirty(w, k)
    ensures forall q, n :: q >= k ==> Apply(w, ResetRewrites(q, n)) == w
  {
  }

  // Each condition is needed: after a reset that is over, the next one finds the record.

  /** A reset started now, having listed every key and read n's record, has it down as dirty. */
  ghost predicate FoundByNextReset(w: World, n: Name) {
    var r := w.started;
    var w' := Apply(Apply(Apply(w, ResetSignals), ResetLists(r, w.records.Keys)), ResetReads(r, n));
    r in w'.resets && w'.resets[r].Reading? && n in w'.resets[r].dirty
  }

  lemma DirtyIsFound(w: World, n: Name)
    requires n in w.records && !ResetClean(w.records[n])
    ensures FoundByNextReset(w, n)
  {
    var r := w.started;
    var w1 := Apply(w, ResetSignals);
    assert w1.resets[r] == Listing(w.now, true, w.records.Keys) && w1.records == w.records;
    var w2 := Apply(w1, ResetLists(r, w.records.Keys));
    assert w2.resets[r] == Reading(w.now, true, w.records.Keys, map[]) && w2.records == w.records;
  }

  lemma NewFailureIsFound(w: World, b: BreakerId, t: Ticks, reason: FailureClass)
    requires b in w.breakers && w.breakers[b].memory.observedReset == w.signal
    ensures FoundByNextReset(Apply(Apply(w, Fails(b, t, reason)), Publishes(b)), w.breakers[b].name)
  {
    DirtyIsFound(Apply(Apply(w, Fails(b, t, reason)), Publishes(b)), w.breakers[b].name);
  }

  lemma UndoneProbeIsFound(w: World, b: BreakerId)
    requires b in w.breakers && w.breakers[b].memory.observedReset == w.signal
    ensures FoundByNextReset(Apply(Apply(w, UndoesProbe(b)), Publishes(b)), w.breakers[b].name)
  {
    DirtyIsFound(Apply(Apply(w, UndoesProbe(b)), Publishes(b)), w.breakers[b].name);
  }

  /** A breaker that has not yet weighed the signal publishes what it remembers if the
      signal has expired or cannot be read. */
  lemma UnweighedSignalIsFound(w: World, b: BreakerId)
    requires b in w.breakers && w.breakers[b].memory.failedAt.Some?
    ensures FoundByNextReset(Apply(Apply(w, SignalExpires), Publishes(b)), w.breakers[b].name)
    ensures FoundByNextReset(Apply(w, PublishesUnread(b)), w.breakers[b].name)
  {
    DirtyIsFound(Apply(Apply(w, SignalExpires), Publishes(b)), w.breakers[b].name);
    DirtyIsFound(Apply(w, PublishesUnread(b)), w.breakers[b].name);
  }

  lemma LostRewriteIsFound(w: World, r: ResetId, n: Name)
    requires r in w.resets && MayWrite(w.resets[r], n) && w.resets[r].dirty.Keys == {n}
    requires n in w.records && !ResetClean(w.records[n])
    ensures var w' := Apply(Apply(w, ResetLoses(r, n)), ResetFinishes(r)); r !in w'.resets && FoundByNextReset(w', n)
  {
    assert Without(w.resets[r].dirty, n) == map[];
    DirtyIsFound(Apply(Apply(w, ResetLoses(r, n)), ResetFinishes(r)), n);
  }

  /** A reset that could not list or read everything ends with its signal standing and the rest as it was. */
  lemma AbortedResetIsFound(w: World, r: ResetId, n: Name)
    requires r in w.resets && n in w.records && !ResetClean(w.records[n])
    ensures var w' := Apply(w, ResetAborts(r));
      r !in w'.resets && w'.signal == w.signal && w'.records == w.records && FoundByNextReset(w', n)
  {
    DirtyIsFound(Apply(w, ResetAborts(r)), n);
  }

  /** Two resets at one instant: a breaker that weighed the first and then failed keeps
      that failure through the second. */
  lemma SameInstantIsFound(w: World, b: BreakerId, t: Ticks, reason: FailureClass)
    requires w.records == map[] && b in w.breakers && w.breakers[b].memory.observedReset == Some(w.now)
    ensures var r, failed := w.started, Apply(w, Fails(b, t, reason));
      var listed := Apply(Apply(failed, ResetSignals), ResetLists(r, {}));
      var over := Apply(Apply(listed, Publishes(b)), ResetFinishes(r));
      r !in over.resets && FoundByNextReset(over, w.breakers[b].name)
  {
    var r, failed := w.started, Apply(w, Fails(b, t, reason));
    SameInstantIsPublished(failed, b, w.breakers[b].name);
    var listed := Apply(Apply(failed, ResetSignals), ResetLists(r, {}));
    DirtyIsFound(Apply(Apply(listed, Publishes(b)), ResetFinishes(r)), w.breakers[b].name);
  }

  lemma SameInstantIsPublished(w: World, b: BreakerId, n: Name)
    requires w.records == map[] && b in w.breakers && w.breakers[b].name == n
    requires w.breakers[b].memory.observedReset == Some(w.now) && w.breakers[b].memory.failedAt.Some?
    ensures var listed := Apply(Apply(w, ResetSignals), ResetLists(w.started, {}));
      var over := Apply(Apply(listed, Publishes(b)), ResetFinishes(w.started));
      w.started !in over.resets && over.started == w.started + 1 && n in over.records && !ResetClean(over.records[n])
  {
    var signalled := Apply(w, ResetSignals);
    assert signalled.resets[w.started] == Listing(w.now, true, {});
    var listed := Apply(signalled, ResetLists(w.started, {}));
    assert listed.resets[w.started] == Reading(w.now, true, {}, map[]) && listed.breakers == w.breakers;
  }

  // The worlds those lemmas start from are reached from an empty one.

  /** A breaker that has weighed a finished reset. */
  lemma WeighedIsReached(start: Instant, b: BreakerId, p: Process)
    ensures var signalled := Apply(Apply(Init(start), Register(b, p.name, p.threshold, p.timeout)), ResetSignals);
      var w := Apply(Apply(Apply(signalled, Honours(b)), ResetLists(0, {})), ResetFinishes(0));
      && w.resets == map[] && w.guarantee == Some(start) && w.records == map[] && b in w.breakers
      && w.breakers[b].memory.observedReset == w.signal == Some(w.now)
  {
    var signalled := Apply(Apply(Init(start), Register(b, p.name, p.threshold, p.timeout)), ResetSignals);
    assert signalled.records.Keys == {};
    assert signalled.resets == map[0 := Listing(start, true, {})];
    var listed := Apply(Apply(signalled, Honours(b)), ResetLists(0, {}));
    assert listed.resets == map[0 := Reading(start, true, {}, map[])];
  }

  /** A breaker that failed before a reset which has finished. */
  lemma FailedBeforeIsReached(start: Instant, b: BreakerId, p: Process, t: Ticks, reason: FailureClass)
    ensures var failed := Apply(Apply(Init(start), Register(b, p.name, p.threshold, p.timeout)), Fails(b, t, reason));
      var w := Apply(Apply(Apply(failed, ResetSignals), ResetLists(0, {})), ResetFinishes(0));
      w.resets == map[] && w.guarantee == Some(start) && b in w.breakers && w.breakers[b].memory.failedAt.Some?
  {
    var failed := Apply(Apply(Init(start), Register(b, p.name, p.threshold, p.timeout)), Fails(b, t, reason));
    var signalled := Apply(failed, ResetSignals);
    assert signalled.records.Keys == {};
    assert signalled.resets == map[0 := Listing(start, true, {})];
    var listed := Apply(signalled, ResetLists(0, {}));
    assert listed.resets == map[0 := Reading(start, true, {}, map[])];
  }

  /** A reset about to read what a failed breaker published. */
  lemma AboutToReadIsReached(start: Instant, b: BreakerId, p: Process, t: Ticks, reason: FailureClass)
    ensures var failed := Apply(Apply(Init(start), Register(b, p.name, p.threshold, p.timeout)), Fails(b, t, reason));
      var w := Apply(Apply(Apply(failed, Publishes(b)), ResetSignals), ResetLists(0, {p.name}));
      AboutToRead(w, 0, p.name)
  {
    var failed := Apply(Apply(Init(start), Register(b, p.name, p.threshold, p.timeout)), Fails(b, t, reason));
    var published := Apply(failed, Publishes(b));
    assert published.records.Keys == {p.name} && !ResetClean(published.records[p.name]);
    var signalled := Apply(published, ResetSignals);
    assert signalled.resets == map[0 := Listing(start, true, {p.name})];
  }

  ghost predicate AboutToRead(w: World, r: ResetId, n: Name) {
    && r in w.resets && w.resets[r].Reading? && w.resets[r].unread == {n} && w.resets[r].dirty == map[]
    && n in w.records && !ResetClean(w.records[n])
  }

  /** And then about to rewrite it. */
  lemma AboutToRewriteIsReached(w: World, r: ResetId, n: Name)
    requires AboutToRead(w, r, n)
    ensures var read := Apply(w, ResetReads(r, n));
      && r in read.resets && MayWrite(read.resets[r], n) && read.resets[r].dirty.Keys == {n}
      && n in read.records && !ResetClean(read.records[n])
  {
    assert {n} - {n} == {};
  }

  // ----- when the signal itself expires -----

  ghost predicate AllSince(w: World, at: Instant) {
    && at <= w.now && RecordsSince(w, at)
    && forall b :: b in w.breakers ==> Since(w.breakers[b].memory.failedAt, at)
  }

  lemma ApplyKeepsAllSince(w: World, step: Step, at: Instant)
    requires AllSince(w, at)
    ensures AllSince(Apply(w, step), at)
  {
    if IsBreakerStep(step) {
      BreakerStepKeepsAllSince(w, step, at);
    } else if IsResetStep(step) {
      ResetStepKeepsAllSince(w, step, at);
    }
  }

  lemma BreakerStepKeepsAllSince(w: World, step: Step, at: Instant)
    requires AllSince(w, at) && IsBreakerStep(step)
    ensures AllSince(BreakerStep(w, step), at)
  {
  }

  lemma ResetStepKeepsAllSince(w: World, step: Step, at: Instant)
    requires AllSince(w, at) && IsResetStep(step)
    ensures AllSince(ResetStep(w, step), at)
  {
  }

  lemma {:induction false} RunKeepsAllSince(w: World, steps: seq<Step>, at: Instant)
    requires AllSince(w, at)
    ensures AllSince(Run(w, steps), at)
  {
    if steps != [] {
      RunKeepsAllSince(w, steps[..|steps| - 1], at);
      ApplyKeepsAllSince(Run(w, steps[..|steps| - 1]), steps[|steps| - 1], at);
    }
  }

  /** The signal key lives one day. Once it has expired, no continuation ever
      publishes a failure older than the reset if and only if every breaker had
      already let go of such failures; otherwise its next publish brings one back. */
  lemma SafeAfterSignalExpiryIff(w: World, at: Instant)
    requires w.signal == None && at <= w.now && RecordsSince(w, at)
    ensures (forall steps :: RecordsSince(Run(w, steps), at))
            <==> (forall b :: b in w.breakers ==> Since(w.breakers[b].memory.failedAt, at))
  {
    if forall b :: b in w.breakers ==> Since(w.breakers[b].memory.failedAt, at) {
      forall steps ensures RecordsSince(Run(w, steps), at) { RunKeepsAllSince(w, steps, at); }
    } else {
      var b :| b in w.breakers && !Since(w.breakers[b].memory.failedAt, at);
      PublishBringsBack(w, b, at);
    }
  }

  lemma PublishBringsBack(w: World, b: BreakerId, at: Instant)
    requires w.signal == None && b in w.breakers && !Since(w.breakers[b].memory.failedAt, at)
    ensures !RecordsSince(Run(w, [Publishes(b)]), at)
  {
    var steps := [Publishes(b)];
    assert steps[..0] == [] && Run(w, steps) == Apply(w, Publishes(b));
    var n := w.breakers[b].name;
    assert n in Run(w, steps).records && !Since(Run(w, steps).records[n].failedAt, at);
  }
}
