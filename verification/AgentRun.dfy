/** The agent-run ledger: one row per run, an append-only phase history, capped
    and de-duplicated steps with a drop counter, a write-once briefing. */
module AgentRun {
  import opened Options

  type RunId = nat
  type Time = int
  type Json = string

  datatype Phase = Triage | Investigating | Planning | AwaitingApproval | Remediating | Verifying
                 | ResolvedRun | Escalated | FailedRun

  predicate Terminal(p: Phase) { p == ResolvedRun || p == Escalated || p == FailedRun }

  datatype Entry = Entry(state: Phase, at: Time)

  /** One ledger step; `num` is its `seq`, absent only for callers below the wire model. */
  datatype Step = Step(num: Option<int>, body: Json)

  datatype Briefing = Briefing(body: Json, prose: Option<string>, recordedAt: Time)

  datatype Run = Run(account: nat, alert: Option<nat>, scenario: Option<string>, state: Phase, history: seq<Entry>,
                     currentHypothesis: Option<Json>, lastStep: Option<Json>, hypotheses: seq<Json>, plan: Option<Json>,
                     verification: Option<Json>, verifications: seq<Json>, steps: seq<Step>, dropped: nat,
                     budget: Option<Json>, finishedAt: Option<Time>, briefing: Option<Briefing>)

  datatype Report = Report(state: Phase, at: Time, alert: Option<nat>, scenario: Option<string>,
                           currentHypothesis: Option<Json>, lastStep: Option<Json>, hypotheses: Option<seq<Json>>,
                           plan: Option<Json>, verification: Option<Json>, step: Option<Step>, budget: Option<Json>)

  const STEPS_CAP: nat := 200
  const VERIFICATIONS_CAP: nat := 50

  function Capped<T>(entries: seq<T>, cap: nat): seq<T> {
    if |entries| > cap then entries[|entries| - cap..] else entries
  }

  predicate Repeats(steps: seq<Step>, step: Step) {
    step.num.Some? && exists i :: 0 <= i < |steps| && steps[i].num == step.num
  }

  function AppendStep(steps: seq<Step>, step: Step): (seq<Step>, nat) {
    if Repeats(steps, step) then (steps, 0)
    else (Capped(steps + [step], STEPS_CAP), if |steps| + 1 > STEPS_CAP then |steps| + 1 - STEPS_CAP else 0)
  }

  datatype Outcome = Stored(run: Run) | AlreadyFinished | NotFound | BriefingAlreadyRecorded

  function Or<T>(new_: Option<T>, old_: Option<T>): Option<T> { if new_.Some? then new_ else old_ }

  function Created(account: nat, r: Report): Run {
    Run(account, r.alert, r.scenario, r.state, [Entry(r.state, r.at)], r.currentHypothesis, r.lastStep,
        if r.hypotheses.Some? then r.hypotheses.value else [], r.plan, r.verification,
        if r.verification.Some? then [r.verification.value] else [],
        if r.step.Some? then [r.step.value] else [], 0, r.budget,
        if Terminal(r.state) then Some(r.at) else None, None)
  }

  function Updated(run: Run, r: Report): Run {
    var (steps, dropped) := if r.step.Some? then AppendStep(run.steps, r.step.value) else (run.steps, 0);
    run.(state := r.state,
         history := if run.state != r.state then run.history + [Entry(r.state, r.at)] else run.history,
         currentHypothesis := r.currentHypothesis, lastStep := r.lastStep,
         alert := Or(r.alert, run.alert), scenario := Or(r.scenario, run.scenario),
         hypotheses := if r.hypotheses.Some? then r.hypotheses.value else run.hypotheses,
         plan := Or(r.plan, run.plan), budget := Or(r.budget, run.budget),
         verification := Or(r.verification, run.verification),
         verifications := if r.verification.Some?
                          then Capped(run.verifications + [r.verification.value], VERIFICATIONS_CAP)
                          else run.verifications,
         steps := steps, dropped := run.dropped + dropped,
         finishedAt := if Terminal(r.state) then Some(r.at) else run.finishedAt)
  }

  function Reported(existing: Option<Run>, account: nat, r: Report): Outcome {
    if existing.None? then Stored(Created(account, r))
    else if existing.value.finishedAt.Some? then AlreadyFinished
    else Stored(Updated(existing.value, r))
  }

  function Briefed(existing: Option<Run>, body: Json, prose: Option<string>, at: Time): Outcome {
    if existing.None? then NotFound
    else if existing.value.briefing.Some? then BriefingAlreadyRecorded
    else Stored(existing.value.(briefing := Some(Briefing(body, prose, at)),
                                finishedAt := if existing.value.finishedAt.None? then Some(at)
                                              else existing.value.finishedAt))
  }

  class RunStore {
    var runs: map<RunId, Run>

    constructor ()
      ensures runs == map[]
    {
      runs := map[];
    }

    ghost function Find(id: RunId): Option<Run> reads this { if id in runs then Some(runs[id]) else None }

    method ReportRun(id: RunId, account: nat, r: Report) returns (out: Outcome)
      modifies this
      ensures out == Reported(old(Find(id)), account, r)
      ensures out.Stored? || out == AlreadyFinished
      ensures out == AlreadyFinished <==> id in old(runs) && old(runs)[id].finishedAt.Some?
      ensures runs == if out.Stored? then old(runs)[id := out.run] else old(runs)
    {
      if id !in runs {
        var run := Created(account, r);
        runs := runs[id := run];
        return Stored(run);
      }
      if runs[id].finishedAt.Some? {
        return AlreadyFinished;
      }
      var run := Update(runs[id], r);
      runs := runs[id := run];
      out := Stored(run);
    }

    /** Column by column, as an existing open row takes a report. */
    static method Update(run: Run, r: Report) returns (run': Run)
      ensures run' == Updated(run, r)
    {
      var history, state := run.history, run.state;
      if run.state != r.state {
        history, state := history + [Entry(r.state, r.at)], r.state;
      }
      var alert, scenario, hypotheses := run.alert, run.scenario, run.hypotheses;
      if r.alert.Some? { alert := r.alert; }
      if r.scenario.Some? { scenario := r.scenario; }
      if r.hypotheses.Some? { hypotheses := r.hypotheses.value; }
      var plan, budget := run.plan, run.budget;
      if r.plan.Some? { plan := r.plan; }
      if r.budget.Some? { budget := r.budget; }
      var verification, verifications := run.verification, run.verifications;
      if r.verification.Some? {
        verification := r.verification;
        verifications := Capped(verifications + [r.verification.value], VERIFICATIONS_CAP);
      }
      var steps, dropped := run.steps, run.dropped;
      if r.step.Some? {
        var (kept, gone) := AppendStep(steps, r.step.value);
        steps, dropped := kept, dropped + gone;
      }
      var finishedAt := run.finishedAt;
      if Terminal(r.state) { finishedAt := Some(r.at); }
      run' := Run(run.account, alert, scenario, state, history, r.currentHypothesis, r.lastStep, hypotheses, plan,
                  verification, verifications, steps, dropped, budget, finishedAt, run.briefing);
    }

    method ReportBriefing(id: RunId, body: Json, prose: Option<string>, at: Time) returns (out: Outcome)
      modifies this
      ensures out == Briefed(old(Find(id)), body, prose, at)
      ensures out == NotFound <==> id !in old(runs)
      ensures out == BriefingAlreadyRecorded <==> id in old(runs) && old(runs)[id].briefing.Some?
      ensures out.Stored? <==> id in old(runs) && old(runs)[id].briefing.None?
      ensures runs == if out.Stored? then old(runs)[id := out.run] else old(runs)
    {
      if id !in runs {
        return NotFound;
      }
      var run := runs[id];
      if run.briefing.Some? {
        return BriefingAlreadyRecorded;
      }
      run := run.(briefing := Some(Briefing(body, prose, at)));
      if run.finishedAt.None? { run := run.(finishedAt := Some(at)); }
      runs := runs[id := run];
      out := Stored(run);
    }
  }

  // ----- whole sequences of reports and briefings on one run -----

  datatype Op = Reporting(account: nat, report: Report) | Briefs(body: Json, prose: Option<string>, at: Time)

  ghost function Apply(run: Option<Run>, op: Op): Option<Run> {
    var out := match op
      case Reporting(account, report) => Reported(run, account, report)
      case Briefs(body, prose, at) => Briefed(run, body, prose, at);
    if out.Stored? then Some(out.run) else run
  }

  ghost function After(run: Option<Run>, ops: seq<Op>): Option<Run> {
    if ops == [] then run else Apply(After(run, ops[..|ops| - 1]), ops[|ops| - 1])
  }

  /** A well-kept row: a timeline without repeats that ends in the current state,
      and a terminal state only on a finished run. */
  ghost predicate WellKept(run: Run) {
    && run.history != [] && run.history[|run.history| - 1].state == run.state
    && (forall k :: 1 <= k < |run.history| ==> run.history[k - 1].state != run.history[k].state)
    && (Terminal(run.state) ==> run.finishedAt.Some?)
  }

  /** What a later row may never undo of an earlier one. */
  ghost predicate Extends(earlier: Run, later: Run) {
    && earlier.history <= later.history && earlier.account == later.account
    && (earlier.finishedAt.Some? ==> later.(briefing := earlier.briefing) == earlier)
    && (earlier.briefing.Some? ==> later == earlier)
    && earlier.dropped <= later.dropped
  }

  lemma StepExtends(run: Option<Run>, op: Op)
    requires run.Some? ==> WellKept(run.value) && (run.value.briefing.Some? ==> run.value.finishedAt.Some?)
    ensures var run' := Apply(run, op);
      && (run'.Some? ==> WellKept(run'.value) && (run'.value.briefing.Some? ==> run'.value.finishedAt.Some?))
      && (run.Some? ==> run'.Some? && Extends(run.value, run'.value))
      && (run.Some? && run.value.finishedAt.Some? && op.Reporting? ==> run' == run)
  {
  }

  lemma {:induction false} RowStaysWellKept(ops: seq<Op>)
    ensures var run := After(None, ops);
      run.Some? ==> WellKept(run.value) && (run.value.briefing.Some? ==> run.value.finishedAt.Some?)
  {
    if ops != [] {
      RowStaysWellKept(ops[..|ops| - 1]);
      StepExtends(After(None, ops[..|ops| - 1]), ops[|ops| - 1]);
    }
  }

  /** Over every sequence of reports and briefings: earlier histories are
      prefixes of later ones, neighbours differ, the last entry is the state, a
      terminal state has its finish time fixed, and a briefing freezes the row. */
  lemma {:induction false} LaterRowsExtendEarlierOnes(ops: seq<Op>, k: nat)
    requires k <= |ops| && After(None, ops[..k]).Some?
    ensures After(None, ops).Some? && WellKept(After(None, ops).value)
    ensures Extends(After(None, ops[..k]).value, After(None, ops).value)
    decreases |ops|
  {
    RowStaysWellKept(ops);
    if k == |ops| {
      assert ops[..k] == ops;
    } else {
      var before := ops[..|ops| - 1];
      assert before[..k] == ops[..k];
      LaterRowsExtendEarlierOnes(before, k);
      RowStaysWellKept(before);
      StepExtends(After(None, before), ops[|ops| - 1]);
    }
  }

  /** A retried report changes nothing, whatever its clock says, unless it is
      terminal, carries a verification, or carries a step without a seq. */
  lemma RepeatedReportChangesNothing(run: Option<Run>, account: nat, r: Report, account': nat, at': Time)
    requires !Terminal(r.state) && r.verification.None? && (r.step.Some? ==> r.step.value.num.Some?)
    requires Reported(run, account, r).Stored?
    ensures var once := Reported(run, account, r).run;
      Reported(Some(once), account', r.(at := at')) == Stored(once)
  {
    var once := Reported(run, account, r).run;
    if r.step.Some? {
      StepIsKept(if run.Some? then run.value.steps else [], r.step.value);
      assert run.None? ==> once.steps == [r.step.value] && once.steps[0].num == r.step.value.num;
    }
  }

  lemma StepIsKept(steps: seq<Step>, step: Step)
    requires step.num.Some?
    ensures Repeats(AppendStep(steps, step).0, step)
  {
    var kept := AppendStep(steps, step).0;
    if !Repeats(steps, step) {
      assert kept[|kept| - 1] == step;
    }
  }

  // ----- the step ledger against the full list of accepted steps -----

  /** The steps the ledger took, ever: those reported on an open run that were
      not repeats of a step it still held. */
  ghost function Accepted(ops: seq<Op>): seq<Step> {
    if ops == [] then []
    else
      var run, op := After(None, ops[..|ops| - 1]), ops[|ops| - 1];
      var held := if run.Some? then run.value.steps else [];
      Accepted(ops[..|ops| - 1])
      + if op.Reporting? && op.report.step.Some? && Reported(run, op.account, op.report).Stored?
           && !Repeats(held, op.report.step.value)
        then [op.report.step.value] else []
  }

  ghost predicate DistinctNums(steps: seq<Step>) {
    forall i, j :: 0 <= i < j < |steps| && steps[i].num.Some? ==> steps[i].num != steps[j].num
  }

  /** The ledger is exactly the newest 200 of the accepted steps, the drop counter
      is the number of the others, and no seq appears twice. */
  lemma {:induction false} LedgerIsTheNewestAccepted(ops: seq<Op>)
    ensures var run := After(None, ops);
      if run.None? then Accepted(ops) == []
      else && run.value.steps == Capped(Accepted(ops), 200)
           && |run.value.steps| + run.value.dropped == |Accepted(ops)|
           && DistinctNums(run.value.steps)
  {
    if ops != [] {
      var before, op := ops[..|ops| - 1], ops[|ops| - 1];
      LedgerIsTheNewestAccepted(before);
      var run := After(None, before);
      if op.Reporting? && op.report.step.Some? && run.Some? && run.value.finishedAt.None? {
        CappedAppend(Accepted(before), op.report.step.value, STEPS_CAP);
        DistinctAppend(run.value.steps, op.report.step.value);
      }
    }
  }

  lemma CappedAppend<T>(all: seq<T>, x: T, cap: nat)
    requires cap > 0
    ensures Capped(Capped(all, cap) + [x], cap) == Capped(all + [x], cap)
    ensures |Capped(all, cap)| + 1 - |Capped(all + [x], cap)| == if |Capped(all, cap)| + 1 > cap then 1 else 0
  {
  }

  lemma DistinctAppend(steps: seq<Step>, step: Step)
    requires DistinctNums(steps)
    ensures DistinctNums(AppendStep(steps, step).0)
  {
    if !Repeats(steps, step) {
      assert DistinctNums(steps + [step]);
    }
  }
}
