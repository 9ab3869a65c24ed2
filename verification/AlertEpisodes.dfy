/** Alert-rule episodes: rows are never deleted, an episode's ordinal is counted
    rather than allocated, and a unique (tenant, dedup key) settles every race. */
module AlertEpisodes {
  import opened Options
  import opened DedupKeys

  datatype Series = Series(tenant: nat, fingerprint: string, subject: string)

  /** A row of the alerts table; its position is its id, and its age where a query sorts by fired_at. */
  datatype Alert = Alert(series: Series, ordinal: nat, resolved: bool)

  function KeyOf(a: Alert): string { DedupKey(a.series.fingerprint, a.series.subject, a.ordinal) }

  /** The WHERE clause of every episode query: this tenant, and a key with this prefix. */
  predicate Matches(a: Alert, s: Series) {
    a.series.tenant == s.tenant && DedupPrefix(s.fingerprint, s.subject) <= KeyOf(a)
  }

  /** The prefix of s does not reach into a: no subject extends the other's by a colon. */
  predicate Apart(a: Series, s: Series) {
    && NoColon(a.fingerprint) && NoColon(s.fingerprint)
    && (a.tenant == s.tenant && a.fingerprint == s.fingerprint ==> !(s.subject + ":" <= a.subject))
  }

  /** A family of series whose prefixes never mix. */
  ghost predicate Separate(u: iset<Series>) { forall a, s :: a in u && s in u ==> Apart(a, s) }

  ghost predicate AllIn(u: iset<Series>, rows: seq<Alert>) { forall i :: 0 <= i < |rows| ==> rows[i].series in u }

  /** Colon-free series, such as those of the two rules, are such a family. */
  lemma ColonFreeIsSeparate(u: iset<Series>)
    requires forall s :: s in u ==> NoColon(s.fingerprint) && NoColon(s.subject)
    ensures Separate(u)
  {
    forall a, s | a in u && s in u ensures Apart(a, s) {
      if s.subject + ":" <= a.subject { ExtendedSubjectHasColon(s.subject, a.subject); }
    }
  }

  /** How many episodes the series has had, resolved ones included. */
  function EpisodesSoFar(rows: seq<Alert>, s: Series): nat {
    if rows == [] then 0
    else EpisodesSoFar(rows[..|rows| - 1], s) + if Matches(rows[|rows| - 1], s) then 1 else 0
  }

  /** The newest unresolved alert of the series. */
  function OpenAlert(rows: seq<Alert>, s: Series): (id: Option<nat>)
    ensures id.Some? ==> id.value < |rows| && Matches(rows[id.value], s) && !rows[id.value].resolved
    ensures id.None? ==> forall i :: 0 <= i < |rows| && Matches(rows[i], s) ==> rows[i].resolved
  {
    if rows == [] then None
    else if Matches(rows[|rows| - 1], s) && !rows[|rows| - 1].resolved then Some(|rows| - 1)
    else OpenAlert(rows[..|rows| - 1], s)
  }

  predicate KeyTaken(rows: seq<Alert>, s: Series, ordinal: nat) {
    exists i :: 0 <= i < |rows| && rows[i].series.tenant == s.tenant
                && KeyOf(rows[i]) == DedupKey(s.fingerprint, s.subject, ordinal)
  }

  function Resolve(rows: seq<Alert>, id: nat): seq<Alert> {
    if id < |rows| then rows[id := rows[id].(resolved := true)] else rows
  }

  // ----- the series itself, by equality rather than by prefix -----

  ghost function OrdinalsOf(rows: seq<Alert>, s: Series): seq<nat> {
    if rows == [] then []
    else OrdinalsOf(rows[..|rows| - 1], s) + if rows[|rows| - 1].series == s then [rows[|rows| - 1].ordinal] else []
  }

  ghost function OpenOf(rows: seq<Alert>, s: Series): nat {
    if rows == [] then 0
    else OpenOf(rows[..|rows| - 1], s)
         + if rows[|rows| - 1].series == s && !rows[|rows| - 1].resolved then 1 else 0
  }

  lemma MatchIsSeries(a: Alert, s: Series)
    requires Apart(a.series, s)
    ensures Matches(a, s) <==> a.series == s
  {
    PrefixMatchIff(s.fingerprint, s.subject, a.series.fingerprint, a.series.subject, a.ordinal);
  }

  lemma {:induction false} EpisodesAreCounted(u: iset<Series>, rows: seq<Alert>, s: Series)
    requires Separate(u) && AllIn(u, rows) && s in u
    ensures EpisodesSoFar(rows, s) == |OrdinalsOf(rows, s)|
  {
    if rows != [] {
      EpisodesAreCounted(u, rows[..|rows| - 1], s);
      MatchIsSeries(rows[|rows| - 1], s);
    }
  }

  lemma {:induction false} OrdinalIsRecorded(rows: seq<Alert>, s: Series, k: nat)
    requires k < |OrdinalsOf(rows, s)|
    ensures exists i :: 0 <= i < |rows| && rows[i].series == s && rows[i].ordinal == OrdinalsOf(rows, s)[k]
  {
    var before := rows[..|rows| - 1];
    if k < |OrdinalsOf(before, s)| {
      OrdinalIsRecorded(before, s, k);
      var i :| 0 <= i < |before| && before[i].series == s && before[i].ordinal == OrdinalsOf(before, s)[k];
      assert rows[i] == before[i];
    } else {
      assert rows[|rows| - 1].series == s;
    }
  }

  lemma {:induction false} ResolveKeepsOrdinals(rows: seq<Alert>, id: nat, s: Series)
    ensures OrdinalsOf(Resolve(rows, id), s) == OrdinalsOf(rows, s)
  {
    if rows != [] {
      ResolveKeepsOrdinals(rows[..|rows| - 1], id, s);
      assert Resolve(rows, id)[..|rows| - 1] == Resolve(rows[..|rows| - 1], id);
    }
  }

  lemma {:induction false} ResolveClosesOne(rows: seq<Alert>, id: nat, s: Series)
    ensures OpenOf(Resolve(rows, id), s)
         == OpenOf(rows, s) - if id < |rows| && rows[id].series == s && !rows[id].resolved then 1 else 0
  {
    if rows != [] {
      ResolveClosesOne(rows[..|rows| - 1], id, s);
      assert Resolve(rows, id)[..|rows| - 1] == Resolve(rows[..|rows| - 1], id);
    }
  }

  lemma {:induction false} NoneOpenMeansAllResolved(rows: seq<Alert>, s: Series)
    ensures OpenOf(rows, s) == 0 <==> forall i :: 0 <= i < |rows| && rows[i].series == s ==> rows[i].resolved
  {
    if rows != [] {
      var before := rows[..|rows| - 1];
      NoneOpenMeansAllResolved(before, s);
      assert forall i :: 0 <= i < |before| ==> before[i] == rows[i];
    }
  }

  /** An alert is found open exactly when the series has one. */
  lemma OpenAlertIff(u: iset<Series>, rows: seq<Alert>, s: Series)
    requires Separate(u) && AllIn(u, rows) && s in u
    ensures OpenAlert(rows, s).Some? <==> OpenOf(rows, s) > 0
    ensures OpenAlert(rows, s).Some? ==> rows[OpenAlert(rows, s).value].series == s
  {
    NoneOpenMeansAllResolved(rows, s);
    forall i | 0 <= i < |rows| ensures Matches(rows[i], s) <==> rows[i].series == s { MatchIsSeries(rows[i], s); }
  }

  /** The ordinals of the series are 0, 1, ..., n-1 in the order its rows were inserted. */
  ghost predicate Contiguous(rows: seq<Alert>, s: Series) {
    forall k :: 0 <= k < |OrdinalsOf(rows, s)| ==> OrdinalsOf(rows, s)[k] == k
  }

  lemma KeyTakenIff(u: iset<Series>, rows: seq<Alert>, s: Series, k: nat)
    requires Separate(u) && AllIn(u, rows) && s in u && Contiguous(rows, s)
    ensures KeyTaken(rows, s, k) <==> k < |OrdinalsOf(rows, s)|
  {
    if KeyTaken(rows, s, k) {
      var i :| 0 <= i < |rows| && rows[i].series.tenant == s.tenant
               && KeyOf(rows[i]) == DedupKey(s.fingerprint, s.subject, k);
      DedupKeyInjective(rows[i].series.fingerprint, rows[i].series.subject, rows[i].ordinal,
                        s.fingerprint, s.subject, k);
      RowOrdinalIsListed(rows, s, i);
    }
    if k < |OrdinalsOf(rows, s)| { OrdinalIsRecorded(rows, s, k); }
  }

  lemma {:induction false} RowOrdinalIsListed(rows: seq<Alert>, s: Series, i: nat)
    requires i < |rows| && rows[i].series == s
    ensures rows[i].ordinal in OrdinalsOf(rows, s)
  {
    if i < |rows| - 1 { RowOrdinalIsListed(rows[..|rows| - 1], s, i); }
  }
}

/** Replicas evaluating the same rules against one table, statement by statement. */
module AlertRace {
  import opened Options
  import opened DedupKeys
  import opened AlertEpisodes

  type Replica = nat

  /** A raise that has passed its open check, one that has also counted its
      ordinal, and a resolve that has picked its alert. */
  datatype Phase = Checked(series: Series) | Counted(series: Series, ordinal: nat) | Resolving(id: nat)

  datatype State = State(rows: seq<Alert>, replicas: map<Replica, Phase>)

  datatype Step =
    | CheckOpen(r: Replica, series: Series)
    | Count(r: Replica)
    | CheckAndCount(r: Replica, series: Series)   // both reads on one snapshot
    | Insert(r: Replica)
    | PickOpen(r: Replica, series: Series, id: nat)   // whichever open alert sorts first by its fired_at
    | ResolvePicked(r: Replica)

  ghost function Leave(s: State, r: Replica): map<Replica, Phase> { map q | q in s.replicas && q != r :: s.replicas[q] }

  ghost function Apply(s: State, step: Step): State {
    match step
    case CheckOpen(r, series) =>
      if r in s.replicas || OpenAlert(s.rows, series).Some? then s
      else s.(replicas := s.replicas[r := Checked(series)])
    case Count(r) =>
      if r in s.replicas && s.replicas[r].Checked? then
        var series := s.replicas[r].series;
        s.(replicas := s.replicas[r := Counted(series, EpisodesSoFar(s.rows, series))])
      else s
    case CheckAndCount(r, series) =>
      if r in s.replicas || OpenAlert(s.rows, series).Some? then s
      else s.(replicas := s.replicas[r := Counted(series, EpisodesSoFar(s.rows, series))])
    case Insert(r) =>
      if r in s.replicas && s.replicas[r].Counted? then
        var p := s.replicas[r];
        State(if KeyTaken(s.rows, p.series, p.ordinal) then s.rows else s.rows + [Alert(p.series, p.ordinal, false)],
              Leave(s, r))
      else s
    case PickOpen(r, series, id) =>
      if r !in s.replicas && id < |s.rows| && Matches(s.rows[id], series) && !s.rows[id].resolved
      then s.(replicas := s.replicas[r := Resolving(id)]) else s
    case ResolvePicked(r) =>
      if r in s.replicas && s.replicas[r].Resolving? then State(Resolve(s.rows, s.replicas[r].id), Leave(s, r)) else s
  }

  ghost function Run(steps: seq<Step>): State {
    if steps == [] then State([], map[]) else Apply(Run(steps[..|steps| - 1]), steps[|steps| - 1])
  }

  /** The run names only series of the family. */
  ghost predicate Names(u: iset<Series>, steps: seq<Step>) {
    forall k :: 0 <= k < |steps| ==>
      (steps[k].CheckOpen? || steps[k].CheckAndCount? || steps[k].PickOpen? ==> steps[k].series in u)
  }

  ghost predicate RaiserSound(u: iset<Series>, s: State, r: Replica) {
    r in s.replicas && !s.replicas[r].Resolving? ==>
      s.replicas[r].series in u
      && (s.replicas[r].Counted? ==> s.replicas[r].ordinal <= |OrdinalsOf(s.rows, s.replicas[r].series)|)
  }

  ghost predicate Inv(u: iset<Series>, s: State) {
    && Separate(u) && AllIn(u, s.rows)
    && (forall series :: series in u ==> Contiguous(s.rows, series))
    && (forall r :: RaiserSound(u, s, r))
  }

  lemma AppendOrdinals(rows: seq<Alert>, a: Alert, series: Series)
    ensures OrdinalsOf(rows + [a], series) == OrdinalsOf(rows, series) + if a.series == series then [a.ordinal] else []
    ensures OpenOf(rows + [a], series) == OpenOf(rows, series) + if a.series == series && !a.resolved then 1 else 0
  {
    assert (rows + [a])[..|rows|] == rows;
  }

  /** What any step does to one series: it grows by its next ordinal or not at all. */
  lemma StepGrowsSeries(u: iset<Series>, s: State, step: Step, series: Series)
    requires Inv(u, s) && series in u
    ensures OrdinalsOf(s.rows, series) <= OrdinalsOf(Apply(s, step).rows, series)
    ensures Contiguous(Apply(s, step).rows, series)
  {
    if step.Insert? && step.r in s.replicas && s.replicas[step.r].Counted? {
      var p := s.replicas[step.r];
      assert RaiserSound(u, s, step.r);
      KeyTakenIff(u, s.rows, p.series, p.ordinal);
      AppendOrdinals(s.rows, Alert(p.series, p.ordinal, false), series);
    } else if step.ResolvePicked? && step.r in s.replicas && s.replicas[step.r].Resolving? {
      ResolveKeepsOrdinals(s.rows, s.replicas[step.r].id, series);
    }
  }

  lemma StepKeepsRaiser(u: iset<Series>, s: State, step: Step, r: Replica)
    requires Inv(u, s) && Names(u, [step])
    ensures RaiserSound(u, Apply(s, step), r)
  {
    assert RaiserSound(u, s, r) && [step][0] == step;
    var s' := Apply(s, step);
    if r in s'.replicas && s'.replicas[r].Counted? {
      var series := s'.replicas[r].series;
      EpisodesAreCounted(u, s.rows, series);
      StepGrowsSeries(u, s, step, series);
    }
  }

  lemma StepKeepsInv(u: iset<Series>, s: State, step: Step)
    requires Inv(u, s) && Names(u, [step])
    ensures Inv(u, Apply(s, step))
  {
    forall series | series in u ensures Contiguous(Apply(s, step).rows, series) { StepGrowsSeries(u, s, step, series); }
    forall r ensures RaiserSound(u, Apply(s, step), r) { StepKeepsRaiser(u, s, step, r); }
    if step.Insert? { assert RaiserSound(u, s, step.r); }
  }

  lemma {:induction false} RunKeepsInv(u: iset<Series>, steps: seq<Step>)
    requires Separate(u) && Names(u, steps)
    ensures Inv(u, Run(steps))
  {
    if steps != [] {
      RunKeepsInv(u, steps[..|steps| - 1]);
      StepKeepsInv(u, Run(steps[..|steps| - 1]), steps[|steps| - 1]);
    }
  }

  /** However replicas interleave, even between the open check and the count, the
      ordinals of a series are exactly 0..n-1. */
  lemma OrdinalsAreContiguous(u: iset<Series>, steps: seq<Step>, series: Series)
    requires Separate(u) && Names(u, steps) && series in u
    ensures Contiguous(Run(steps).rows, series)
    ensures EpisodesSoFar(Run(steps).rows, series) == |OrdinalsOf(Run(steps).rows, series)|
  {
    RunKeepsInv(u, steps);
    EpisodesAreCounted(u, Run(steps).rows, series);
  }

  // ----- one open episode, when every count runs while its series is closed -----

  /** The count of a raise that checked earlier finds its series with nothing open,
      as it does whenever it reads the open check's snapshot. */
  ghost predicate CountsClosed(s: State, step: Step) {
    step.Count? && step.r in s.replicas && s.replicas[step.r].Checked? ==>
      OpenAlert(s.rows, s.replicas[step.r].series).None?
  }

  ghost predicate CountsWhileClosed(steps: seq<Step>) {
    forall k :: 0 <= k < |steps| ==> CountsClosed(Run(steps[..k]), steps[k])
  }

  /** A raiser whose ordinal is still the next one saw the series closed, and it still is. */
  ghost predicate StillClosed(s: State, r: Replica) {
    r in s.replicas && s.replicas[r].Counted? && s.replicas[r].ordinal == |OrdinalsOf(s.rows, s.replicas[r].series)| ==>
      OpenOf(s.rows, s.replicas[r].series) == 0
  }

  ghost predicate SingleInv(u: iset<Series>, s: State) {
    && Inv(u, s)
    && (forall series :: series in u ==> OpenOf(s.rows, series) <= 1)
    && (forall r :: StillClosed(s, r))
  }

  lemma StepKeepsSingle(u: iset<Series>, s: State, step: Step, series: Series)
    requires SingleInv(u, s) && series in u
    ensures OpenOf(Apply(s, step).rows, series) <= 1
    ensures OrdinalsOf(Apply(s, step).rows, series) == OrdinalsOf(s.rows, series) ==>
      OpenOf(Apply(s, step).rows, series) <= OpenOf(s.rows, series)
  {
    assert OpenOf(s.rows, series) <= 1;
    if step.Insert? && step.r in s.replicas && s.replicas[step.r].Counted? {
      var p := s.replicas[step.r];
      assert RaiserSound(u, s, step.r) && StillClosed(s, step.r);
      KeyTakenIff(u, s.rows, p.series, p.ordinal);
      AppendOrdinals(s.rows, Alert(p.series, p.ordinal, false), series);
    } else if step.ResolvePicked? && step.r in s.replicas && s.replicas[step.r].Resolving? {
      ResolveClosesOne(s.rows, s.replicas[step.r].id, series);
    }
  }

  lemma StepKeepsStillClosed(u: iset<Series>, s: State, step: Step, r: Replica)
    requires SingleInv(u, s) && Names(u, [step]) && CountsClosed(s, step)
    ensures StillClosed(Apply(s, step), r)
  {
    assert StillClosed(s, r) && RaiserSound(u, s, r) && [step][0] == step;
    var s' := Apply(s, step);
    if r in s'.replicas && s'.replicas[r].Counted? {
      var series := s'.replicas[r].series;
      StepGrowsSeries(u, s, step, series);
      StepKeepsSingle(u, s, step, series);
      OpenAlertIff(u, s.rows, series);
    }
  }

  lemma {:induction false} RunKeepsSingle(u: iset<Series>, steps: seq<Step>)
    requires Separate(u) && Names(u, steps) && CountsWhileClosed(steps)
    ensures SingleInv(u, Run(steps))
  {
    if steps != [] {
      var before, step := steps[..|steps| - 1], steps[|steps| - 1];
      forall k | 0 <= k < |before| ensures CountsClosed(Run(before[..k]), before[k]) {
        assert before[..k] == steps[..k];
      }
      assert CountsClosed(Run(before), step);
      RunKeepsSingle(u, before);
      RunKeepsInv(u, steps);
      var s := Run(before);
      forall series | series in u ensures OpenOf(Run(steps).rows, series) <= 1 { StepKeepsSingle(u, s, step, series); }
      forall r ensures StillClosed(Run(steps), r) { StepKeepsStillClosed(u, s, step, r); }
    }
  }

  /** If every count runs while its series has nothing open, no reachable state has two
      open episodes in one series, however statements interleave otherwise. */
  lemma AtMostOneOpenEpisode(u: iset<Series>, steps: seq<Step>, series: Series)
    requires Separate(u) && Names(u, steps) && CountsWhileClosed(steps) && series in u
    ensures OpenOf(Run(steps).rows, series) <= 1
  {
    RunKeepsSingle(u, steps);
  }

  /** A count that runs while its series is open breaks it: the insert that follows
      opens a second episode. */
  lemma CountWhileOpenOpensTwo(u: iset<Series>, steps: seq<Step>, r: Replica)
    requires Separate(u) && Names(u, steps) && !CountsClosed(Run(steps), Count(r))
    ensures OpenOf(Apply(Apply(Run(steps), Count(r)), Insert(r)).rows, Run(steps).replicas[r].series) >= 2
  {
    RunKeepsInv(u, steps);
    var s := Run(steps);
    var series := s.replicas[r].series;
    assert RaiserSound(u, s, r);
    OpenAlertIff(u, s.rows, series);
    EpisodesAreCounted(u, s.rows, series);
    var n := EpisodesSoFar(s.rows, series);
    KeyTakenIff(u, s.rows, series, n);
    AppendOrdinals(s.rows, Alert(series, n, false), series);
  }

  /** So on two snapshots it can fail: a replica whose open check ran before another
      replica's raise, and whose count ran after it, opens a second episode. */
  lemma TwoSnapshotsCanOpenTwo(series: Series)
    requires NoColon(series.fingerprint)
    ensures var raced := Apply(Apply(Apply(Apply(Apply(State([], map[]), CheckOpen(1, series)),
                                     CheckAndCount(2, series)), Insert(2)), Count(1)), Insert(1));
      raced.rows == [Alert(series, 0, false), Alert(series, 1, false)] && OpenOf(raced.rows, series) == 2
  {
    var s2 := Apply(Apply(State([], map[]), CheckOpen(1, series)), CheckAndCount(2, series));
    var a := Alert(series, 0, false);
    var s3 := Apply(s2, Insert(2));
    assert s3.rows == [a] && s3.replicas == map[1 := Checked(series)];
    MatchIsSeries(a, series);
    assert [a][..0] == [];
    assert EpisodesSoFar([a], series) == 1;
    var s4 := Apply(s3, Count(1));
    assert !KeyTaken([a], series, 1) by {
      if KeyTaken([a], series, 1) {
        DedupKeyInjective(series.fingerprint, series.subject, 0, series.fingerprint, series.subject, 1);
      }
    }
    AppendOrdinals([a], Alert(series, 1, false), series);
    AppendOrdinals([], a, series);
  }

  // ----- exactly which families of series keep both promises -----

  /** A raise of s is overtaken by a whole episode of s', whose key s's prefix matches. */
  function Overtaken(s: Series, s': Series): seq<Step> {
    [] + [CheckAndCount(1, s)] + [CheckAndCount(2, s')] + [Insert(2)] + [PickOpen(2, s', 0)] + [ResolvePicked(2)]
    + [CheckAndCount(2, s)] + [Insert(2)] + [Insert(1)]
  }

  lemma RunMore(steps: seq<Step>, step: Step)
    ensures Run(steps + [step]) == Apply(Run(steps), step)
  {
    assert (steps + [step])[..|steps|] == steps;
  }

  lemma OneRow(a: Alert, s: Series)
    ensures EpisodesSoFar([a], s) == (if Matches(a, s) then 1 else 0)
    ensures OpenAlert([a], s) == (if Matches(a, s) && !a.resolved then Some(0) else None)
  {
    assert [a][..0] == [];
  }

  lemma EpisodeOpens(s: Series, s': Series)
    ensures Apply(Apply(State([], map[1 := Counted(s, 0)]), CheckAndCount(2, s')), Insert(2))
         == State([Alert(s', 0, false)], map[1 := Counted(s, 0)])
  {
    var t1 := Apply(State([], map[1 := Counted(s, 0)]), CheckAndCount(2, s'));
    assert t1 == State([], map[1 := Counted(s, 0), 2 := Counted(s', 0)]);
  }

  lemma EpisodeEnds(s: Series, s': Series)
    ensures Apply(Apply(State([Alert(s', 0, false)], map[1 := Counted(s, 0)]), PickOpen(2, s', 0)), ResolvePicked(2))
         == State([Alert(s', 0, true)], map[1 := Counted(s, 0)])
  {
    var a := Alert(s', 0, false);
    OneRow(a, s');
    assert Matches(a, s');
    var t3 := Apply(State([a], map[1 := Counted(s, 0)]), PickOpen(2, s', 0));
    assert t3 == State([a], map[1 := Counted(s, 0), 2 := Resolving(0)]);
  }

  lemma BothInsert(s: Series, s': Series)
    requires s != s' && NoColon(s.fingerprint) && NoColon(s'.fingerprint) && Matches(Alert(s', 0, true), s)
    ensures var t := State([Alert(s', 0, true)], map[1 := Counted(s, 0)]);
      Apply(Apply(Apply(t, CheckAndCount(2, s)), Insert(2)), Insert(1)).rows
      == [Alert(s', 0, true), Alert(s, 1, false), Alert(s, 0, false)]
  {
    var b := Alert(s', 0, true);
    OneRow(b, s);
    var t1 := Apply(State([b], map[1 := Counted(s, 0)]), CheckAndCount(2, s));
    assert t1 == State([b], map[1 := Counted(s, 0), 2 := Counted(s, 1)]);
    KeyIsFree([b], s, 1);
    var t2 := Apply(t1, Insert(2));
    assert t2 == State([b, Alert(s, 1, false)], map[1 := Counted(s, 0)]);
    KeyIsFree(t2.rows, s, 0);
  }

  lemma OvertakenRuns(s: Series, s': Series)
    requires s != s' && NoColon(s.fingerprint) && NoColon(s'.fingerprint) && Matches(Alert(s', 0, true), s)
    ensures Run(Overtaken(s, s')).rows == [Alert(s', 0, true), Alert(s, 1, false), Alert(s, 0, false)]
  {
    var p1 := [] + [CheckAndCount(1, s)];
    RunMore([], CheckAndCount(1, s));
    assert Run(p1) == State([], map[1 := Counted(s, 0)]);
    EpisodeOpens(s, s');
    EpisodeEnds(s, s');
    BothInsert(s, s');
    var p2 := p1 + [CheckAndCount(2, s')];
    var p3 := p2 + [Insert(2)];
    var p4 := p3 + [PickOpen(2, s', 0)];
    var p5 := p4 + [ResolvePicked(2)];
    var p6 := p5 + [CheckAndCount(2, s)];
    RunMore(p1, CheckAndCount(2, s'));
    RunMore(p2, Insert(2));
    RunMore(p3, PickOpen(2, s', 0));
    RunMore(p4, ResolvePicked(2));
    RunMore(p5, CheckAndCount(2, s));
    RunMore(p6, Insert(2));
    RunMore(p6 + [Insert(2)], Insert(1));
  }

  lemma KeyIsFree(rows: seq<Alert>, s: Series, k: nat)
    requires NoColon(s.fingerprint) && forall i :: 0 <= i < |rows| ==> NoColon(rows[i].series.fingerprint)
    requires forall i :: 0 <= i < |rows| ==> rows[i].series != s || rows[i].ordinal != k
    ensures !KeyTaken(rows, s, k)
  {
    forall i | 0 <= i < |rows| && rows[i].series.tenant == s.tenant
      ensures KeyOf(rows[i]) != DedupKey(s.fingerprint, s.subject, k)
    {
      if KeyOf(rows[i]) == DedupKey(s.fingerprint, s.subject, k) {
        DedupKeyInjective(rows[i].series.fingerprint, rows[i].series.subject, rows[i].ordinal,
                          s.fingerprint, s.subject, k);
      }
    }
  }

  /** A prefix that reaches into another series breaks both promises, on a run with no late count at all. */
  lemma MixingBreaksBoth(u: iset<Series>, s: Series, s': Series)
    requires s in u && s' in u && NoColon(s.fingerprint) && NoColon(s'.fingerprint) && !Apart(s', s)
    ensures var steps := Overtaken(s, s');
      Names(u, steps) && CountsWhileClosed(steps) && !Contiguous(Run(steps).rows, s) && OpenOf(Run(steps).rows, s) == 2
  {
    PrefixMatchIff(s.fingerprint, s.subject, s'.fingerprint, s'.subject, 0);
    OvertakenRuns(s, s');
    OvertakenRows(s, s');
    OvertakenNames(u, s, s');
  }

  lemma OvertakenNames(u: iset<Series>, s: Series, s': Series)
    requires s in u && s' in u
    ensures Names(u, Overtaken(s, s')) && CountsWhileClosed(Overtaken(s, s'))
  {
  }

  lemma OvertakenRows(s: Series, s': Series)
    requires s != s'
    ensures var rows := [Alert(s', 0, true), Alert(s, 1, false), Alert(s, 0, false)];
      !Contiguous(rows, s) && OpenOf(rows, s) == 2
  {
    var b, c, d := Alert(s', 0, true), Alert(s, 1, false), Alert(s, 0, false);
    AppendOrdinals([], b, s);
    AppendOrdinals([b], c, s);
    AppendOrdinals([b, c], d, s);
    assert [] + [b] == [b] && [b] + [c] == [b, c] && [b, c] + [d] == [b, c, d];
    assert OrdinalsOf([b, c, d], s)[0] == 1;
  }

  ghost predicate AlwaysContiguous(u: iset<Series>) {
    forall steps, s :: Names(u, steps) && s in u ==> Contiguous(Run(steps).rows, s)
  }

  ghost predicate AlwaysSingle(u: iset<Series>) {
    forall steps, s :: Names(u, steps) && CountsWhileClosed(steps) && s in u ==> OpenOf(Run(steps).rows, s) <= 1
  }

  /** Over a family of series, every run keeps ordinals contiguous, and every run whose
      counts find nothing open keeps at most one episode open, if and only if no subject in the family
      extends another of the same tenant and rule by a colon. */
  lemma PromisesHoldIffSeparate(u: iset<Series>)
    requires forall s :: s in u ==> NoColon(s.fingerprint)
    ensures AlwaysContiguous(u) <==> Separate(u)
    ensures AlwaysSingle(u) <==> Separate(u)
  {
    if Separate(u) {
      forall steps, s | Names(u, steps) && s in u ensures Contiguous(Run(steps).rows, s) {
        OrdinalsAreContiguous(u, steps, s);
      }
      forall steps, s | Names(u, steps) && CountsWhileClosed(steps) && s in u ensures OpenOf(Run(steps).rows, s) <= 1 {
        AtMostOneOpenEpisode(u, steps, s);
      }
    } else {
      var a, s :| a in u && s in u && !Apart(a, s);
      MixingBreaksBoth(u, s, a);
    }
  }
}
