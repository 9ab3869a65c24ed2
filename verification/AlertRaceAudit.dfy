/** The audit rows that racing replicas write: one per raise, and one per resolve,
    which compares nothing before it writes. */
module AlertRaceAudit {
  import opened Options
  import opened AlertEpisodes
  import opened AlertRace

  datatype Entry = Raised(id: nat) | Resolved(id: nat)

  ghost predicate Inserts(s: State, step: Step) {
    && step.Insert? && step.r in s.replicas && s.replicas[step.r].Counted?
    && !KeyTaken(s.rows, s.replicas[step.r].series, s.replicas[step.r].ordinal)
  }

  ghost predicate Resolves(s: State, step: Step) {
    step.ResolvePicked? && step.r in s.replicas && s.replicas[step.r].Resolving?
  }

  /** The row a step writes in its own transaction. */
  ghost function Written(s: State, step: Step): Option<Entry> {
    if Inserts(s, step) then Some(Raised(|s.rows|))
    else if Resolves(s, step) then Some(Resolved(s.replicas[step.r].id))
    else None
  }

  /** How often a run has written the row. */
  ghost function Times(steps: seq<Step>, e: Entry): nat {
    if steps == [] then 0
    else
      var before := steps[..|steps| - 1];
      Times(before, e) + if Written(Run(before), steps[|steps| - 1]) == Some(e) then 1 else 0
  }

  ghost predicate Holds(s: State, r: Replica, id: nat) {
    r in s.replicas && s.replicas[r].Resolving? && s.replicas[r].id == id
  }

  // ----- one raised row per alert -----

  lemma StepInserts(s: State, step: Step)
    ensures |Apply(s, step).rows| == |s.rows| + if Inserts(s, step) then 1 else 0
    ensures forall i :: 0 <= i < |s.rows| ==>
      Apply(s, step).rows[i].resolved == (s.rows[i].resolved || (Resolves(s, step) && s.replicas[step.r].id == i))
    ensures Inserts(s, step) ==> !Apply(s, step).rows[|s.rows|].resolved
  {
  }

  /** On every run, each alert has exactly one raised row, and there is none without an alert. */
  lemma {:induction false} OneRaisedRowPerAlert(steps: seq<Step>, id: nat)
    ensures Times(steps, Raised(id)) == if id < |Run(steps).rows| then 1 else 0
  {
    if steps != [] {
      var before, step := steps[..|steps| - 1], steps[|steps| - 1];
      OneRaisedRowPerAlert(before, id);
      StepInserts(Run(before), step);
    }
  }

  // ----- resolved rows -----

  /** A pick of an alert that another replica still has picked. */
  ghost predicate PicksAgain(s: State, step: Step) {
    && step.PickOpen? && step.r !in s.replicas && step.id < |s.rows|
    && Matches(s.rows[step.id], step.series) && !s.rows[step.id].resolved
    && exists r :: Holds(s, r, step.id)
  }

  ghost predicate NeverPicksAgain(steps: seq<Step>) {
    if steps == [] then true
    else
      var before := steps[..|steps| - 1];
      NeverPicksAgain(before) && !PicksAgain(Run(before), steps[|steps| - 1])
  }

  /** Who holds an alert, and how often its end has been recorded. */
  ghost predicate Tidy(s: State, times: nat, id: nat) {
    && (forall r, q :: Holds(s, r, id) && Holds(s, q, id) ==> r == q)
    && (forall r :: Holds(s, r, id) ==> id < |s.rows| && !s.rows[id].resolved)
    && times == if id < |s.rows| && s.rows[id].resolved then 1 else 0
  }

  lemma StepKeepsTidy(s: State, step: Step, times: nat, id: nat)
    requires Tidy(s, times, id) && !PicksAgain(s, step)
    ensures Tidy(Apply(s, step), times + if Written(s, step) == Some(Resolved(id)) then 1 else 0, id)
  {
    StepInserts(s, step);
    if Resolves(s, step) { assert Holds(s, step.r, s.replicas[step.r].id); }
    assert forall r :: Holds(Apply(s, step), r, id) ==> Holds(s, r, id) || step == PickOpen(r, step.series, id);
  }

  lemma {:induction false} NeverPicksAgainBefore(steps: seq<Step>, k: nat)
    requires NeverPicksAgain(steps) && k <= |steps|
    ensures NeverPicksAgain(steps[..k])
    decreases |steps|
  {
    if k == |steps| {
      assert steps[..k] == steps;
    } else {
      NeverPicksAgainBefore(steps[..|steps| - 1], k);
      assert steps[..|steps| - 1][..k] == steps[..k];
    }
  }

  /** If no alert is picked while another replica has it picked, each alert has one resolved
      row once it is resolved, and none before. */
  lemma {:induction false} OneResolvedRowPerAlert(steps: seq<Step>, id: nat)
    requires NeverPicksAgain(steps)
    ensures Tidy(Run(steps), Times(steps, Resolved(id)), id)
  {
    if steps != [] {
      var before := steps[..|steps| - 1];
      OneResolvedRowPerAlert(before, id);
      StepKeepsTidy(Run(before), steps[|before|], Times(before, Resolved(id)), id);
    }
  }

  /** The run so far, with two of its replicas then going through with their resolves. */
  function Through(steps: seq<Step>, r: Replica, q: Replica): seq<Step> {
    steps + [ResolvePicked(r)] + [ResolvePicked(q)]
  }

  lemma OneMore(steps: seq<Step>, step: Step, e: Entry)
    ensures Times(steps + [step], e) == Times(steps, e) + if Written(Run(steps), step) == Some(e) then 1 else 0
    ensures Run(steps + [step]) == Apply(Run(steps), step)
  {
    assert (steps + [step])[..|steps|] == steps;
  }

  lemma ResolveIsWritten(s: State, r: Replica, q: Replica, id: nat)
    requires Holds(s, r, id)
    ensures Written(s, ResolvePicked(r)) == Some(Resolved(id))
    ensures q != r && Holds(s, q, id) ==> Holds(Apply(s, ResolvePicked(r)), q, id)
  {
  }

  /** Two replicas that have picked one alert write two resolved rows for it. */
  lemma TwoPicksResolveTwice(steps: seq<Step>, r: Replica, q: Replica, id: nat)
    requires r != q && Holds(Run(steps), r, id) && Holds(Run(steps), q, id)
    ensures Times(Through(steps, r, q), Resolved(id)) >= 2
  {
    OneMore(steps, ResolvePicked(r), Resolved(id));
    OneMore(steps + [ResolvePicked(r)], ResolvePicked(q), Resolved(id));
    ResolveIsWritten(Run(steps), r, q, id);
    ResolveIsWritten(Run(steps + [ResolvePicked(r)]), q, q, id);
  }

  /** However far the run is taken, letting any two replicas go through with what they have
      picked leaves at most one resolved row per alert. */
  ghost predicate AlwaysOneResolved(steps: seq<Step>) {
    forall k, r, q, id :: 0 <= k <= |steps| ==> AtMostOneResolved(steps[..k], r, q, id)
  }

  ghost predicate AtMostOneResolved(steps: seq<Step>, r: Replica, q: Replica, id: nat) {
    Times(Through(steps, r, q), Resolved(id)) <= 1
  }

  lemma ResolvingPicksNothing(steps: seq<Step>, step: Step)
    requires NeverPicksAgain(steps) && !step.PickOpen?
    ensures NeverPicksAgain(steps + [step])
  {
    assert (steps + [step])[..|steps|] == steps;
  }

  /** At most one resolved row per alert, however a run's picks are carried through, if and
      only if no alert is picked while another replica still has it picked. */
  lemma OneResolvedRowIff(steps: seq<Step>)
    ensures AlwaysOneResolved(steps) <==> NeverPicksAgain(steps)
  {
    if NeverPicksAgain(steps) {
      forall k, r, q, id | 0 <= k <= |steps| ensures AtMostOneResolved(steps[..k], r, q, id) {
        NeverPicksAgainBefore(steps, k);
        ResolvingPicksNothing(steps[..k], ResolvePicked(r));
        ResolvingPicksNothing(steps[..k] + [ResolvePicked(r)], ResolvePicked(q));
        OneResolvedRowPerAlert(Through(steps[..k], r, q), id);
      }
    } else {
      var k := FirstSecondPick(steps);
      var r := SecondPickIsHeld(steps, k);
    }
  }

  lemma {:induction false} FirstSecondPick(steps: seq<Step>) returns (k: nat)
    requires !NeverPicksAgain(steps)
    ensures k < |steps| && PicksAgain(Run(steps[..k]), steps[k])
  {
    var before := steps[..|steps| - 1];
    if NeverPicksAgain(before) {
      k := |before|;
    } else {
      k := FirstSecondPick(before);
      assert before[..k] == steps[..k];
    }
  }

  lemma SecondPickIsHeld(steps: seq<Step>, k: nat) returns (r: Replica)
    requires k < |steps| && PicksAgain(Run(steps[..k]), steps[k])
    ensures !AtMostOneResolved(steps[..k + 1], r, steps[k].r, steps[k].id)
  {
    var s, step := Run(steps[..k]), steps[k];
    r :| Holds(s, r, step.id);
    RunNext(steps, k);
    BothHold(s, step, r);
    TwoPicksResolveTwice(steps[..k + 1], r, step.r, step.id);
  }

  lemma RunNext(steps: seq<Step>, k: nat)
    requires k < |steps|
    ensures Run(steps[..k + 1]) == Apply(Run(steps[..k]), steps[k])
  {
    assert steps[..k + 1][..k] == steps[..k];
  }

  lemma BothHold(s: State, step: Step, r: Replica)
    requires PicksAgain(s, step) && Holds(s, r, step.id)
    ensures r != step.r && Holds(Apply(s, step), r, step.id) && Holds(Apply(s, step), step.r, step.id)
  {
  }
}
