/** Any number of callers, lookups, evictions and reaper passes interleaving on
    one records table. Each SQL statement is one atomic step; a step that is not
    enabled in the current state changes nothing, so every sequence of steps is a run. */
module IdempotencyProtocol {
  import opened Options
  import opened Idempotency

  type Caller = nat

  /** Where a caller is between two statements. */
  datatype Phase =
    | Claiming(call: Call, attempt: nat, expiresAt: Option<Time>)
    | Reading(call: Call, attempt: nat, expiresAt: Option<Time>)
    | Evicting(call: Call, expiresAt: Option<Time>, holder: Id)
    | LookingUp(call: Call)
    | LookupEvicting(call: Call, holder: Id)
    | Executing(call: Call, claim: Id, expiresAt: Option<Time>)
    | Done(call: Call, outcome: Outcome)

  datatype Outcome = Completed(response: Response) | Released | Missed | Refused(why: Acquired)
                   | Replayed(response: Response)

  datatype State = State(store: Store, now: Time, callers: map<Caller, Phase>)

  datatype Step =
    | Tick(to: Time)
    | BeginAcquire(c: Caller, call: Call, ttl: Option<Time>)
    | BeginLookup(c: Caller, call: Call)
    | Insert(c: Caller)
    | Read(c: Caller)
    | Evict(c: Caller)
    | Complete(c: Caller, response: Response, ttl: Option<Time>)
    | Release(c: Caller)
    | Reap(cutoff: Time, unseen: set<Id>)   // the reaper, which does not see uncommitted rows

  function Settle(v: Acquired): Outcome {
    if v.Replay? then Replayed(v.response) else Refused(v)
  }

  ghost function Apply(s: State, step: Step): State {
    match step
    case Tick(to) => if s.now <= to then s.(now := to) else s
    case BeginAcquire(c, call, ttl) =>
      if c in s.callers then s else s.(callers := s.callers[c := Claiming(call, 1, Deadline(s.now, ttl))])
    case BeginLookup(c, call) =>
      if c in s.callers then s else s.(callers := s.callers[c := LookingUp(call)])
    case Insert(c) =>
      if c in s.callers && s.callers[c].Claiming? then
        var p := s.callers[c];
        var (store, id) := Inserted(s.store, p.call, s.now, p.expiresAt);
        if id.Some? then State(store, s.now, s.callers[c := Executing(p.call, id.value, p.expiresAt)])
        else s.(callers := s.callers[c := Reading(p.call, p.attempt, p.expiresAt)])
      else s
    case Read(c) =>
      if c !in s.callers then s
      else if s.callers[c].Reading? then s.(callers := s.callers[c := AfterRead(s, s.callers[c])])
      else if s.callers[c].LookingUp? then s.(callers := s.callers[c := AfterLookup(s, s.callers[c])])
      else s
    case Evict(c) =>
      if c in s.callers && s.callers[c].Evicting? then
        State(Deleted(s.store, s.callers[c].holder), s.now,
              s.callers[c := Claiming(s.callers[c].call, 2, s.callers[c].expiresAt)])
      else if c in s.callers && s.callers[c].LookupEvicting? then
        State(Deleted(s.store, s.callers[c].holder), s.now, s.callers[c := Done(s.callers[c].call, Missed)])
      else s
    case Complete(c, response, ttl) =>
      if c in s.callers && s.callers[c].Executing? then
        State(Answered(s.store, s.callers[c].claim, response, Deadline(s.now, ttl)), s.now,
              s.callers[c := Done(s.callers[c].call, Completed(response))])
      else s
    case Release(c) =>
      if c in s.callers && s.callers[c].Executing? then
        State(Deleted(s.store, s.callers[c].claim), s.now, s.callers[c := Done(s.callers[c].call, Released)])
      else s
    case Reap(cutoff, unseen) => if cutoff <= s.now then s.(store := ReapedSeen(s.store, cutoff, unseen)) else s
  }

  ghost function ReapedSeen(s: Store, cutoff: Time, unseen: set<Id>): Store {
    s.(rows := map i | i in s.rows && (i in unseen || !Expired(s.rows[i], cutoff)) :: s.rows[i])
  }

  /** With nothing unseen it is the repository's own statement. */
  lemma ReapedSeenAll(s: Store, cutoff: Time)
    ensures ReapedSeen(s, cutoff, {}) == Reaped(s, cutoff)
  {
  }

  /** The loop body of acquire after a lost insert: retry, evict, refuse or replay. */
  ghost function AfterRead(s: State, p: Phase): Phase
    requires p.Reading?
  {
    var holder := HolderOf(s.store, p.call.scope);
    if holder.None? then
      if p.attempt == 1 then Claiming(p.call, 2, p.expiresAt) else Done(p.call, Refused(KeyInFlight))
    else if p.attempt == 1 && Expired(s.store.rows[holder.value], s.now) then
      Evicting(p.call, p.expiresAt, holder.value)
    else Done(p.call, Settle(Verdict(s.store.rows[holder.value], p.call)))
  }

  ghost function AfterLookup(s: State, p: Phase): Phase
    requires p.LookingUp?
  {
    var holder := HolderOf(s.store, p.call.scope);
    if holder.None? then Done(p.call, Missed)
    else if Expired(s.store.rows[holder.value], s.now) then LookupEvicting(p.call, holder.value)
    else Done(p.call, Settle(Verdict(s.store.rows[holder.value], p.call)))
  }

  ghost function Run(start: Time, steps: seq<Step>): State {
    if steps == [] then State(Store(map[], 0), start, map[])
    else Apply(Run(start, steps[..|steps| - 1]), steps[|steps| - 1])
  }

  ghost predicate Executes(s: State, c: Caller) { c in s.callers && s.callers[c].Executing? }

  ghost predicate ExecutesOn(s: State, c: Caller, scope: Scope) { Executes(s, c) && s.callers[c].call.scope == scope }

  /** No execution on the key has outlasted the claim it runs under. */
  ghost predicate Timely(s: State, scope: Scope) {
    forall c :: ExecutesOn(s, c, scope) && s.callers[c].expiresAt.Some? ==> s.now <= s.callers[c].expiresAt.value
  }

  /** While an execution on the key is uncommitted, the row it claimed is there for nobody
      else: an insert on the key waits for it, a read of the key is ordered before or after
      it, and the reaper does not see it. */
  ghost predicate Waits(s: State, step: Step, scope: Scope) {
    forall c :: ExecutesOn(s, c, scope) ==>
      && !((step.Insert? || step.Read?) && step.c != c && step.c in s.callers && s.callers[step.c].call.scope == scope)
      && (step.Reap? ==> s.callers[c].claim in step.unseen)
  }

  /** What each step of a run needs: claims that stay uncommitted while their execution
      lasts, as under the request transaction of the envelope, or claims that outlast it. */
  ghost predicate Sheltered(s: State, step: Step, scope: Scope) { Timely(s, scope) || Waits(s, step, scope) }

  ghost predicate ShelteredRun(start: Time, steps: seq<Step>, scope: Scope) {
    forall k :: 0 <= k < |steps| ==> Sheltered(Run(start, steps[..k]), steps[k], scope)
  }

  // ----- uniqueness of the key, on every run -----

  lemma ApplyKeepsWellFormed(s: State, step: Step)
    requires WellFormed(s.store)
    ensures WellFormed(Apply(s, step).store)
    ensures s.now <= Apply(s, step).now && s.store.nextId <= Apply(s, step).store.nextId
  {
  }

  /** No interleaving whatever gives one key two rows. */
  lemma {:induction false} OneRowPerKey(start: Time, steps: seq<Step>)
    ensures WellFormed(Run(start, steps).store)
  {
    if steps != [] {
      OneRowPerKey(start, steps[..|steps| - 1]);
      ApplyKeepsWellFormed(Run(start, steps[..|steps| - 1]), steps[|steps| - 1]);
    }
  }

  // ----- what every run keeps, overruns or not -----

  /** The row a caller means to finish or evict, as long as it exists, is one of its own key. */
  ghost predicate Tracks(s: State, c: Caller) {
    Executes(s, c) || Evicts(s, c) ==> IsOfKey(s.store, Target(s.callers[c]), s.callers[c].call.scope)
  }

  ghost function Target(p: Phase): Id
    requires p.Executing? || p.Evicting? || p.LookupEvicting?
  {
    if p.Executing? then p.claim else p.holder
  }

  ghost predicate Evicts(s: State, c: Caller) {
    c in s.callers && (s.callers[c].Evicting? || s.callers[c].LookupEvicting?)
  }

  ghost predicate IsOfKey(store: Store, id: Id, scope: Scope) {
    id < store.nextId && (id in store.rows ==> store.rows[id].call.scope == scope)
  }

  ghost predicate Base(s: State) {
    && WellFormed(s.store)
    && (forall c :: Tracks(s, c))
    && (forall c, d :: Executes(s, c) && Executes(s, d) && s.callers[c].claim == s.callers[d].claim ==> c == d)
  }

  lemma ApplyKeepsTracks(s: State, step: Step, c: Caller)
    requires Base(s)
    ensures Tracks(Apply(s, step), c)
  {
    assert Tracks(s, c);
    StepKeepsRowKeys(s, step);
  }

  /** Ids are not reused and a row never changes its key. */
  lemma StepKeepsRowKeys(s: State, step: Step)
    requires WellFormed(s.store)
    ensures forall id, scope :: IsOfKey(s.store, id, scope) ==> IsOfKey(Apply(s, step).store, id, scope)
  {
  }

  lemma ApplyKeepsClaimsApart(s: State, step: Step, c: Caller, d: Caller)
    requires Base(s)
    requires var s' := Apply(s, step); Executes(s', c) && Executes(s', d) && s'.callers[c].claim == s'.callers[d].claim
    ensures c == d
  {
    assert Tracks(s, c) && Tracks(s, d);
  }

  lemma ApplyKeepsBase(s: State, step: Step)
    requires Base(s)
    ensures Base(Apply(s, step))
  {
    var s' := Apply(s, step);
    ApplyKeepsWellFormed(s, step);
    forall c ensures Tracks(s', c) { ApplyKeepsTracks(s, step, c); }
    forall c, d | Executes(s', c) && Executes(s', d) && s'.callers[c].claim == s'.callers[d].claim ensures c == d {
      ApplyKeepsClaimsApart(s, step, c, d);
    }
  }

  // ----- mutual exclusion on a key, on every run that shelters its executions -----

  ghost predicate Owns(s: State, c: Caller, scope: Scope) {
    ExecutesOn(s, c, scope) ==>
      var p := s.callers[c];
      p.claim in s.store.rows && s.store.rows[p.claim].call == p.call
      && s.store.rows[p.claim].response.None? && s.store.rows[p.claim].expiresAt == p.expiresAt
  }

  ghost predicate EvictsOnlyExpired(s: State, c: Caller, scope: Scope) {
    Evicts(s, c) && s.callers[c].call.scope == scope && s.callers[c].holder in s.store.rows ==>
      Expired(s.store.rows[s.callers[c].holder], s.now)
  }

  /** Nobody is about to evict the claim of an execution in progress. */
  ghost predicate Apart(s: State, c: Caller, d: Caller, scope: Scope) {
    ExecutesOn(s, c, scope) && Evicts(s, d) ==> s.callers[d].holder != s.callers[c].claim
  }

  ghost predicate Inv(s: State, scope: Scope) {
    && Base(s)
    && (forall c :: Owns(s, c, scope))
    && (forall c :: EvictsOnlyExpired(s, c, scope))
    && (forall c, d :: Apart(s, c, d, scope))
  }

  lemma ApplyKeepsOwnership(s: State, step: Step, c: Caller, scope: Scope)
    requires Inv(s, scope) && Sheltered(s, step, scope)
    ensures Owns(Apply(s, step), c, scope)
  {
    if ExecutesOn(Apply(s, step), c, scope) {
      assert Owns(s, c, scope) && Tracks(s, c);
      if step.Evict? { assert Apart(s, c, step.c, scope); }
    }
  }

  lemma ApplyKeepsEvictions(s: State, step: Step, c: Caller, scope: Scope)
    requires Inv(s, scope)
    ensures EvictsOnlyExpired(Apply(s, step), c, scope)
  {
    assert EvictsOnlyExpired(s, c, scope) && Tracks(s, c);
    if step.Complete? { assert Apart(s, step.c, c, scope) && Tracks(s, step.c); }
  }

  lemma ApplyKeepsApart(s: State, step: Step, c: Caller, d: Caller, scope: Scope)
    requires Inv(s, scope) && Sheltered(s, step, scope)
    ensures Apart(Apply(s, step), c, d, scope)
  {
    assert Apart(s, c, d, scope) && Owns(s, c, scope) && Tracks(s, d);
  }

  lemma ApplyKeepsInv(s: State, step: Step, scope: Scope)
    requires Inv(s, scope) && Sheltered(s, step, scope)
    ensures Inv(Apply(s, step), scope)
  {
    var s' := Apply(s, step);
    ApplyKeepsBase(s, step);
    forall c ensures Owns(s', c, scope) && EvictsOnlyExpired(s', c, scope) {
      ApplyKeepsOwnership(s, step, c, scope);
      ApplyKeepsEvictions(s, step, c, scope);
    }
    forall c, d ensures Apart(s', c, d, scope) { ApplyKeepsApart(s, step, c, d, scope); }
  }

  lemma {:induction false} RunKeepsInv(start: Time, steps: seq<Step>, scope: Scope)
    requires ShelteredRun(start, steps, scope)
    ensures Inv(Run(start, steps), scope)
  {
    if steps != [] {
      var before := steps[..|steps| - 1];
      ShelteredPrefix(start, steps, |before|, scope);
      RunKeepsInv(start, before, scope);
      assert Sheltered(Run(start, before), steps[|before|], scope);
      ApplyKeepsInv(Run(start, before), steps[|before|], scope);
    }
  }

  lemma ShelteredPrefix(start: Time, steps: seq<Step>, k: nat, scope: Scope)
    requires ShelteredRun(start, steps, scope) && k <= |steps|
    ensures ShelteredRun(start, steps[..k], scope)
  {
    forall j | 0 <= j < k ensures Sheltered(Run(start, steps[..k][..j]), steps[..k][j], scope) {
      assert steps[..k][..j] == steps[..j];
    }
  }

  /** At most one caller per key is between winning the insert and finishing, whatever
      happens on other keys. */
  lemma AtMostOneExecutesPerKey(start: Time, steps: seq<Step>, scope: Scope, c: Caller, d: Caller)
    requires ShelteredRun(start, steps, scope)
    requires ExecutesOn(Run(start, steps), c, scope) && ExecutesOn(Run(start, steps), d, scope)
    ensures c == d
  {
    RunKeepsInv(start, steps, scope);
    var s := Run(start, steps);
    assert Owns(s, c, scope) && Owns(s, d, scope);
  }

  /** Whatever any other caller or the reaper does, the row a caller executes
      under stays exactly as that caller left it. */
  lemma OthersNeverTouchAnOwnedRow(start: Time, steps: seq<Step>, scope: Scope, c: Caller, step: Step)
    requires ShelteredRun(start, steps, scope) && Sheltered(Run(start, steps), step, scope)
    requires ExecutesOn(Run(start, steps), c, scope)
    requires !(step.Complete? && step.c == c) && !(step.Release? && step.c == c)
    ensures var s, s' := Run(start, steps), Apply(Run(start, steps), step);
      c in s'.callers && s'.callers[c] == s.callers[c]
      && s.callers[c].claim in s.store.rows && s.callers[c].claim in s'.store.rows
      && s'.store.rows[s.callers[c].claim] == s.store.rows[s.callers[c].claim]
  {
    RunKeepsInv(start, steps, scope);
    OwnedRowStep(Run(start, steps), scope, c, step);
  }

  lemma OwnedRowStep(s: State, scope: Scope, c: Caller, step: Step)
    requires Inv(s, scope) && Sheltered(s, step, scope) && ExecutesOn(s, c, scope)
    requires !(step.Complete? && step.c == c) && !(step.Release? && step.c == c)
    ensures var s' := Apply(s, step);
      c in s'.callers && s'.callers[c] == s.callers[c]
      && s.callers[c].claim in s.store.rows && s.callers[c].claim in s'.store.rows
      && s'.store.rows[s.callers[c].claim] == s.store.rows[s.callers[c].claim]
  {
    assert Owns(s, c, scope);
    match step
    case Evict(d) => assert Apart(s, c, d, scope);
    case _ =>
  }

  // ----- replay until expiry -----

  ghost predicate Live(expiresAt: Option<Time>, now: Time) {
    expiresAt.Some? ==> now <= expiresAt.value
  }

  /** An answered record: which row answers which call with what, and until when. */
  datatype Answer = Answer(id: Id, call: Call, response: Response, expiresAt: Option<Time>)

  ghost predicate Settled(s: State, a: Answer) {
    a.id in s.store.rows && s.store.rows[a.id].call == a.call
    && s.store.rows[a.id].response == Some(a.response) && s.store.rows[a.id].expiresAt == a.expiresAt
  }

  lemma SettledStep(s: State, step: Step, a: Answer)
    requires Inv(s, a.call.scope) && Settled(s, a) && Live(a.expiresAt, Apply(s, step).now)
    ensures Settled(Apply(s, step), a)
  {
    if step.Evict? || step.Complete? || step.Release? {
      var scope := a.call.scope;
      assert EvictsOnlyExpired(s, step.c, scope) && Owns(s, step.c, scope) && Tracks(s, step.c);
    }
  }

  /** The verdict a live answer gives to another call on its key. */
  ghost predicate AnsweredBy(a: Answer, call: Call, outcome: Outcome) {
    if call.argumentsHash == a.call.argumentsHash && call.tool == a.call.tool
    then outcome == Replayed(a.response) else outcome == Refused(KeyReused)
  }

  /** What a call on a settled key can be doing while the answer lives. One that was in
      flight when the answer was stored may still have an eviction ahead of it, which
      ends a lookup empty-handed; no other outcome is open to it. */
  ghost predicate AnsweredLate(p: Phase, a: Answer, inFlight: bool) {
    match p
    case Claiming(_, attempt, _) => attempt == 1 || inFlight
    case Reading(_, attempt, _) => attempt == 1 || inFlight
    case LookingUp(_) => true
    case Evicting(_, _, _) => inFlight
    case LookupEvicting(_, _) => inFlight
    case Executing(_, _, _) => false
    case Done(call, outcome) => AnsweredBy(a, call, outcome) || (inFlight && outcome == Missed)
  }

  ghost predicate LateCaller(s: State, c: Caller, a: Answer, inFlight: bool) {
    c in s.callers && s.callers[c].call.scope == a.call.scope ==> AnsweredLate(s.callers[c], a, inFlight)
  }

  lemma LateStep(s: State, step: Step, c: Caller, a: Answer, inFlight: bool)
    requires WellFormed(s.store) && Settled(s, a) && Live(a.expiresAt, s.now) && LateCaller(s, c, a, inFlight)
    ensures LateCaller(Apply(s, step), c, a, inFlight)
  {
    assert Held(s.store.rows, a.call.scope) && HolderOf(s.store, a.call.scope) == Some(a.id);
  }

  lemma {:induction false} SettledRun(start: Time, steps: seq<Step>, i: nat, c: Caller, a: Answer, inFlight: bool)
    requires ShelteredRun(start, steps, a.call.scope) && i <= |steps| && Live(a.expiresAt, Run(start, steps).now)
    requires Settled(Run(start, steps[..i]), a)
    ensures Settled(Run(start, steps), a)
    ensures LateCaller(Run(start, steps[..i]), c, a, inFlight) ==> LateCaller(Run(start, steps), c, a, inFlight)
    ensures !ExecutesOn(Run(start, steps[..i]), c, a.call.scope) ==> !ExecutesOn(Run(start, steps), c, a.call.scope)
    decreases |steps|
  {
    if i == |steps| {
      assert steps[..i] == steps;
    } else {
      var before := steps[..|steps| - 1];
      var s, step := Run(start, before), steps[|steps| - 1];
      assert before[..i] == steps[..i];
      ShelteredPrefix(start, steps, |before|, a.call.scope);
      RunKeepsInv(start, before, a.call.scope);
      ApplyKeepsWellFormed(s, step);
      SettledRun(start, before, i, c, a, inFlight);
      SettledOnward(s, step, c, a, inFlight);
    }
  }

  lemma SettledOnward(s: State, step: Step, c: Caller, a: Answer, inFlight: bool)
    requires Inv(s, a.call.scope) && Settled(s, a) && Live(a.expiresAt, Apply(s, step).now)
    ensures Settled(Apply(s, step), a)
    ensures LateCaller(s, c, a, inFlight) ==> LateCaller(Apply(s, step), c, a, inFlight)
    ensures !ExecutesOn(s, c, a.call.scope) ==> !ExecutesOn(Apply(s, step), c, a.call.scope)
  {
    ApplyKeepsWellFormed(s, step);
    SettledStep(s, step, a);
    if LateCaller(s, c, a, inFlight) { LateStep(s, step, c, a, inFlight); }
    if !ExecutesOn(s, c, a.call.scope) { SettledKeepsOut(s, step, c, a); }
  }

  lemma SettledKeepsOut(s: State, step: Step, c: Caller, a: Answer)
    requires Settled(s, a) && !ExecutesOn(s, c, a.call.scope)
    ensures !ExecutesOn(Apply(s, step), c, a.call.scope)
  {
    assert Held(s.store.rows, a.call.scope);
  }

  /** The answer a completing step stores. */
  ghost function AnswerOf(s: State, step: Step): Answer
    requires step.Complete? && Executes(s, step.c)
  {
    Answer(s.callers[step.c].claim, s.callers[step.c].call, step.response, Deadline(s.now, step.ttl))
  }

  /** Once an execution completes under a key, then until the stored expiry: no caller
      whatever executes under that key; every call that starts later replays exactly the
      stored response if it is the same call and is refused as reused if it is not; and
      so does every call that was in flight, but for a lookup already past its read. */
  lemma CompletedKeyReplaysUntilExpiry(start: Time, steps: seq<Step>, i: nat, c: Caller)
    requires i < |steps| && steps[i].Complete? && Executes(Run(start, steps[..i]), steps[i].c)
    requires ShelteredRun(start, steps, AnswerOf(Run(start, steps[..i]), steps[i]).call.scope)
    requires Live(AnswerOf(Run(start, steps[..i]), steps[i]).expiresAt, Run(start, steps).now)
    ensures var s, s', a := Run(start, steps[..i]), Run(start, steps), AnswerOf(Run(start, steps[..i]), steps[i]);
      && Settled(s', a) && !ExecutesOn(s', c, a.call.scope)
      && (c !in s.callers ==> LateCaller(s', c, a, false))
      && (c in s.callers && !s.callers[c].Done? && c != steps[i].c ==> LateCaller(s', c, a, true))
  {
    var s := Run(start, steps[..i]);
    var a := AnswerOf(s, steps[i]);
    var scope := a.call.scope;
    ShelteredPrefix(start, steps, i, scope);
    RunKeepsInv(start, steps[..i], scope);
    assert Owns(s, steps[i].c, scope) && Owns(s, c, scope);
    assert steps[..i + 1][..i] == steps[..i];
    assert Run(start, steps[..i + 1]) == Apply(s, steps[i]);
    SettledRun(start, steps, i + 1, c, a, c in s.callers);
  }

  // ----- and the key is given out again -----

  /** The two statements of a call that meets no row, and the three of one that meets a live one. */
  ghost function Tries(s: State, d: Caller, call: Call, ttl: Option<Time>): State {
    Apply(Apply(s, BeginAcquire(d, call, ttl)), Insert(d))
  }

  ghost function Asks(s: State, d: Caller, call: Call, ttl: Option<Time>): State {
    Apply(Tries(s, d, call, ttl), Read(d))
  }

  /** A key nobody holds is won by the next call, which runs under a fresh claim with its own expiry. */
  lemma FreeKeyIsWon(s: State, d: Caller, call: Call, ttl: Option<Time>)
    requires WellFormed(s.store) && d !in s.callers
    requires forall i :: i in s.store.rows ==> s.store.rows[i].call.scope != call.scope
    ensures var expiresAt := if ttl.Some? then Some(s.now + ttl.value) else None;
      var s' := Tries(s, d, call, ttl);
      && d in s'.callers && s'.callers[d] == Executing(call, s.store.nextId, expiresAt)
      && s'.store.rows == s.store.rows[s.store.nextId := Row(call, None, s.now, expiresAt)]
  {
  }

  /** A call that lost the insert to a row which is gone when it reads tries once more, and
      wins if the key is still free; a second loss of that kind is reported as in flight. */
  lemma VanishedHolderIsRetried(s: State, d: Caller)
    requires WellFormed(s.store) && d in s.callers && s.callers[d].Reading?
    requires forall i :: i in s.store.rows ==> s.store.rows[i].call.scope != s.callers[d].call.scope
    ensures var p, s' := s.callers[d], Apply(s, Read(d));
      if p.attempt == 1 then ExecutesOn(Apply(s', Insert(d)), d, p.call.scope)
      else d in s'.callers && s'.callers[d] == Done(p.call, Refused(KeyInFlight))
  {
  }

  /** A lookup of a key nobody holds misses; of one with a live answer, it gets what a call would. */
  lemma LookupTells(s: State, d: Caller, call: Call, a: Answer)
    requires WellFormed(s.store) && d !in s.callers
    ensures var s' := Apply(Apply(s, BeginLookup(d, call)), Read(d));
      && ((forall i :: i in s.store.rows ==> s.store.rows[i].call.scope != call.scope) ==>
            d in s'.callers && s'.callers[d] == Done(call, Missed) && s'.store == s.store)
      && (Settled(s, a) && Live(a.expiresAt, s.now) && call.scope == a.call.scope ==>
            && d in s'.callers && s'.callers[d].Done? && AnsweredBy(a, call, s'.callers[d].outcome)
            && s'.store == s.store)
  {
    if Settled(s, a) && call.scope == a.call.scope {
      assert Held(s.store.rows, a.call.scope) && HolderOf(s.store, a.call.scope) == Some(a.id);
    }
  }

  /** A released claim leaves its key free. */
  lemma ReleaseFreesTheKey(s: State, c: Caller)
    requires Executes(s, c) && Inv(s, s.callers[c].call.scope)
    ensures var s', scope := Apply(s, Release(c)), s.callers[c].call.scope;
      WellFormed(s'.store) && forall i :: i in s'.store.rows ==> s'.store.rows[i].call.scope != scope
  {
    assert Owns(s, c, s.callers[c].call.scope);
    ApplyKeepsWellFormed(s, Release(c));
  }

  /** While an answer lives, the same call gets its response, and any other call on the key is refused. */
  lemma LiveAnswerIsGiven(s: State, a: Answer, d: Caller, call: Call, ttl: Option<Time>)
    requires WellFormed(s.store) && Settled(s, a) && Live(a.expiresAt, s.now) && d !in s.callers
    requires call.scope == a.call.scope
    ensures var s' := Asks(s, d, call, ttl);
      && s'.store == s.store && d in s'.callers
      && s'.callers[d] == Done(call, if call.tool == a.call.tool && call.argumentsHash == a.call.argumentsHash
                                     then Replayed(a.response) else Refused(KeyReused))
  {
    assert Held(s.store.rows, a.call.scope) && HolderOf(s.store, a.call.scope) == Some(a.id);
  }

  /** Once it has expired, the next call evicts it and runs. */
  lemma ExpiredAnswerGivesWay(s: State, a: Answer, d: Caller, call: Call, ttl: Option<Time>)
    requires WellFormed(s.store) && Settled(s, a) && d !in s.callers && call.scope == a.call.scope
    requires a.expiresAt.Some? && a.expiresAt.value < s.now
    ensures var s' := Apply(Apply(Asks(s, d, call, ttl), Evict(d)), Insert(d));
      ExecutesOn(s', d, call.scope) && a.id !in s'.store.rows
  {
    assert Held(s.store.rows, a.call.scope) && HolderOf(s.store, a.call.scope) == Some(a.id);
    var asked := Asks(s, d, call, ttl);
    assert asked.store == s.store && asked.callers[d].Evicting? && asked.callers[d].holder == a.id;
    var evicted := Apply(asked, Evict(d));
    assert !Held(evicted.store.rows, call.scope);
  }

  /** Why one of the two shelters is needed: if claims become visible before their
      execution ends, then from any state in which an execution has outlasted its claim a
      fresh caller evicts that claim and runs the same call beside it. The envelope, which
      commits a claim only together with its answer, never gets there. */
  lemma OverrunBreaksExclusion(s: State, c: Caller, d: Caller)
    requires Executes(s, c) && Inv(s, s.callers[c].call.scope) && d !in s.callers
    requires s.callers[c].expiresAt.Some? && s.callers[c].expiresAt.value < s.now
    ensures var call := s.callers[c].call;
      var evicted := Apply(Apply(Apply(Apply(s, BeginAcquire(d, call, None)), Insert(d)), Read(d)), Evict(d));
      var s' := Apply(evicted, Insert(d));
      Executes(s', c) && Executes(s', d) && c != d && s'.callers[c].call == s'.callers[d].call
  {
    var p := s.callers[c];
    assert Owns(s, c, p.call.scope);
    var s2 := Apply(Apply(s, BeginAcquire(d, p.call, None)), Insert(d));
    assert s2 == s.(callers := s.callers[d := Reading(p.call, 1, None)]);
    assert HolderOf(s2.store, p.call.scope) == Some(p.claim);
    var s3 := Apply(s2, Read(d));
    assert s3 == s.(callers := s.callers[d := Evicting(p.call, None, p.claim)]);
    var s4 := Apply(s3, Evict(d));
    assert !Held(s4.store.rows, p.call.scope);
  }
}
