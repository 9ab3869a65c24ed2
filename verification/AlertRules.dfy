/** The two alert rules as one evaluator runs them: raise on a breach, resolve
    on a recovery, leave a missing reading alone, one audit row per transition. */
module AlertRules {
  import opened Options
  import opened DedupKeys
  import opened AlertEpisodes

  datatype Action = Raised | Resolved
  datatype AuditRow = AuditRow(action: Action, alert: nat, series: Series)
  datatype Tables = Tables(rows: seq<Alert>, audit: seq<AuditRow>)

  const CONSUMER_STALLED := "consumer_stalled"
  const DLQ_DEPTH := "dlq_depth_warning"
  const DLQ_SUBJECT := "total"
  const PLATFORM_TENANT: nat := 0

  function RaiseIn(t: Tables, s: Series): Tables {
    var ordinal := EpisodesSoFar(t.rows, s);
    if OpenAlert(t.rows, s).Some? || KeyTaken(t.rows, s, ordinal) then t
    else Tables(t.rows + [Alert(s, ordinal, false)], t.audit + [AuditRow(Raised, |t.rows|, s)])
  }

  function ResolveIn(t: Tables, s: Series): Tables {
    var open := OpenAlert(t.rows, s);
    if open.None? then t
    else Tables(Resolve(t.rows, open.value), t.audit + [AuditRow(Resolved, open.value, s)])
  }

  /** One rule's judgement about one subject on one tick; None is no measurement. */
  datatype Reading = Reading(series: Series, measured: Option<int>)

  function Judge(t: Tables, threshold: int, r: Reading): Tables {
    if r.measured.None? then t
    else if r.measured.value >= threshold then RaiseIn(t, r.series) else ResolveIn(t, r.series)
  }

  function JudgeAll(t: Tables, threshold: int, readings: seq<Reading>): Tables {
    if readings == [] then t
    else Judge(JudgeAll(t, threshold, readings[..|readings| - 1]), threshold, readings[|readings| - 1])
  }

  // ----- what one evaluator keeps -----

  ghost function ActionsOf(audit: seq<AuditRow>, s: Series): seq<Action> {
    if audit == [] then []
    else ActionsOf(audit[..|audit| - 1], s) + if audit[|audit| - 1].series == s then [audit[|audit| - 1].action] else []
  }

  /** Raised, resolved, raised, ... starting with raised. */
  ghost predicate Alternates(actions: seq<Action>) {
    forall k :: 0 <= k < |actions| ==> actions[k] == if k % 2 == 0 then Raised else Resolved
  }

  ghost predicate Sound(u: iset<Series>, t: Tables) {
    && Separate(u) && AllIn(u, t.rows)
    && forall s :: s in u ==> Contiguous(t.rows, s) && OpenOf(t.rows, s) <= 1
  }

  /** The series' audit rows alternate, and the last one says whether it is open. */
  ghost predicate Timeline(t: Tables, s: Series) {
    Alternates(ActionsOf(t.audit, s)) && OpenOf(t.rows, s) == |ActionsOf(t.audit, s)| % 2
  }

  lemma RaiseEffect(u: iset<Series>, t: Tables, s: Series, other: Series)
    requires Sound(u, t) && s in u && other in u
    ensures var t' := RaiseIn(t, s);
      && Contiguous(t'.rows, other) && AllIn(u, t'.rows)
      && OpenOf(t'.rows, other) == (if other == s then 1 else OpenOf(t.rows, other))
      && (Timeline(t, other) ==> Timeline(t', other))
  {
    var k := EpisodesSoFar(t.rows, s);
    OpenAlertIff(u, t.rows, s);
    EpisodesAreCounted(u, t.rows, s);
    assert Contiguous(t.rows, s) && OpenOf(t.rows, s) <= 1 && Contiguous(t.rows, other);
    KeyTakenIff(u, t.rows, s, k);
    assert (t.rows + [Alert(s, k, false)])[..|t.rows|] == t.rows;
    TimelineMore(t.audit, AuditRow(Raised, |t.rows|, s), other);
  }

  lemma ResolveEffect(u: iset<Series>, t: Tables, s: Series, other: Series)
    requires Sound(u, t) && s in u && other in u
    ensures var t' := ResolveIn(t, s);
      && Contiguous(t'.rows, other) && AllIn(u, t'.rows)
      && OpenOf(t'.rows, other) == (if other == s then 0 else OpenOf(t.rows, other))
      && (Timeline(t, other) ==> Timeline(t', other))
  {
    assert OpenOf(t.rows, s) <= 1 && Contiguous(t.rows, other);
    ResolveRows(u, t.rows, s, other);
    var open := OpenAlert(t.rows, s);
    if open.Some? { TimelineMore(t.audit, AuditRow(Resolved, open.value, s), other); }
  }

  lemma ResolveRows(u: iset<Series>, rows: seq<Alert>, s: Series, other: Series)
    requires Separate(u) && AllIn(u, rows) && s in u && OpenOf(rows, s) <= 1 && Contiguous(rows, other)
    ensures var open := OpenAlert(rows, s);
      if open.None? then OpenOf(rows, s) == 0
      else && OpenOf(rows, s) == 1
           && Contiguous(Resolve(rows, open.value), other) && AllIn(u, Resolve(rows, open.value))
           && OpenOf(Resolve(rows, open.value), other) == (if other == s then 0 else OpenOf(rows, other))
  {
    OpenAlertIff(u, rows, s);
    var open := OpenAlert(rows, s);
    if open.Some? {
      ResolveClosesOne(rows, open.value, other);
      ResolveKeepsOrdinals(rows, open.value, other);
    }
  }

  /** An audit row that continues the alternation keeps it; one of another series does not touch it. */
  lemma TimelineMore(audit: seq<AuditRow>, row: AuditRow, s: Series)
    ensures row.series != s ==> ActionsOf(audit + [row], s) == ActionsOf(audit, s)
    ensures row.series == s ==> |ActionsOf(audit + [row], s)| == |ActionsOf(audit, s)| + 1
    ensures row.series == s && Alternates(ActionsOf(audit, s))
            && row.action == (if |ActionsOf(audit, s)| % 2 == 0 then Raised else Resolved)
            ==> Alternates(ActionsOf(audit + [row], s))
  {
    MoreActions(audit, row, s);
  }

  lemma MoreActions(audit: seq<AuditRow>, row: AuditRow, s: Series)
    ensures ActionsOf(audit + [row], s) == ActionsOf(audit, s) + if row.series == s then [row.action] else []
  {
    assert (audit + [row])[..|audit|] == audit;
  }

  lemma JudgeEffect(u: iset<Series>, t: Tables, threshold: int, r: Reading)
    requires Sound(u, t) && r.series in u
    ensures Sound(u, Judge(t, threshold, r))
    ensures forall s :: s in u && Timeline(t, s) ==> Timeline(Judge(t, threshold, r), s)
    ensures forall s :: s in u ==>
      OpenOf(Judge(t, threshold, r).rows, s)
      == (if s == r.series && r.measured.Some? then (if r.measured.value >= threshold then 1 else 0)
          else OpenOf(t.rows, s))
  {
    forall s | s in u
      ensures var t' := Judge(t, threshold, r);
        && Contiguous(t'.rows, s) && AllIn(u, t'.rows) && (Timeline(t, s) ==> Timeline(t', s))
        && OpenOf(t'.rows, s) == if s == r.series && r.measured.Some?
                                 then (if r.measured.value >= threshold then 1 else 0) else OpenOf(t.rows, s)
    {
      assert Contiguous(t.rows, s);
      if r.measured.Some? {
        RaiseEffect(u, t, r.series, s);
        ResolveEffect(u, t, r.series, s);
      }
    }
    assert r.series in u;
    forall s | s in u ensures OpenOf(Judge(t, threshold, r).rows, s) <= 1 { assert OpenOf(t.rows, s) <= 1; }
  }

  /** The latest value measured for the series, if any. */
  ghost function Latest(readings: seq<Reading>, s: Series): Option<int> {
    if readings == [] then None
    else var r := readings[|readings| - 1];
      if r.series == s && r.measured.Some? then r.measured else Latest(readings[..|readings| - 1], s)
  }

  /** For any stream of breach, recovery and missing readings over any series, a
      series is open exactly when its latest measured value is at or above the
      threshold, and its audit rows alternate raised, resolved. */
  lemma {:induction false} OpenFollowsTheLatestMeasurement(u: iset<Series>, t: Tables, threshold: int,
                                                           readings: seq<Reading>, s: Series)
    requires Sound(u, t) && s in u && Timeline(t, s)
    requires forall k :: 0 <= k < |readings| ==> readings[k].series in u
    ensures var t' := JudgeAll(t, threshold, readings);
      && Sound(u, t') && Timeline(t', s)
      && (OpenOf(t'.rows, s) == 1 <==>
           if Latest(readings, s).Some? then Latest(readings, s).value >= threshold else OpenOf(t.rows, s) == 1)
  {
    if readings != [] {
      OpenFollowsTheLatestMeasurement(u, t, threshold, readings[..|readings| - 1], s);
      JudgeEffect(u, JudgeAll(t, threshold, readings[..|readings| - 1]), threshold, readings[|readings| - 1]);
    }
  }

  // ----- the depth rule, tenant by tenant -----

  predicate DlqBreach(depths: map<nat, int>, threshold: int, tenant: nat) {
    tenant in depths && depths[tenant] >= threshold
  }

  function RaiseBreaching(t: Tables, f: string, subject: string, tenants: seq<nat>, depths: map<nat, int>,
                          threshold: int): Tables {
    if tenants == [] then t
    else
      var before := RaiseBreaching(t, f, subject, tenants[..|tenants| - 1], depths, threshold);
      var tenant := tenants[|tenants| - 1];
      if DlqBreach(depths, threshold, tenant) then RaiseIn(before, Series(tenant, f, subject)) else before
  }

  function ResolveRecovered(t: Tables, f: string, subject: string, open: seq<nat>, depths: map<nat, int>,
                            threshold: int): Tables {
    if open == [] then t
    else
      var before := ResolveRecovered(t, f, subject, open[..|open| - 1], depths, threshold);
      var tenant := open[|open| - 1];
      if DlqBreach(depths, threshold, tenant) then before else ResolveIn(before, Series(tenant, f, subject))
  }

  function JudgeDepths(t: Tables, f: string, subject: string, tenants: seq<nat>, depths: map<nat, int>,
                       threshold: int): Tables {
    var raised := RaiseBreaching(t, f, subject, tenants, depths, threshold);
    ResolveRecovered(raised, f, subject, OpenTenants(raised.rows, f, subject), depths, threshold)
  }

  /** The rule's series of every tenant belongs to the family. */
  ghost predicate Covers(u: iset<Series>, f: string, subject: string) { forall n: nat :: Series(n, f, subject) in u }

  predicate OfRule(x: Series, f: string, subject: string) { x.fingerprint == f && x.subject == subject }

  lemma {:induction false} RaiseBreachingEffect(u: iset<Series>, t: Tables, f: string, subject: string,
                                                tenants: seq<nat>,
                                               depths: map<nat, int>, threshold: int, x: Series)
    requires Sound(u, t) && Covers(u, f, subject) && x in u
    ensures var t' := RaiseBreaching(t, f, subject, tenants, depths, threshold);
      && Sound(u, t') && (Timeline(t, x) ==> Timeline(t', x))
      && (if OfRule(x, f, subject)
          then x.tenant in tenants && DlqBreach(depths, threshold, x.tenant) ==> OpenOf(t'.rows, x) == 1
          else OpenOf(t'.rows, x) == OpenOf(t.rows, x))
  {
    if tenants != [] {
      var before := tenants[..|tenants| - 1];
      RaiseBreachingEffect(u, t, f, subject, before, depths, threshold, x);
      var raised := RaiseBreaching(t, f, subject, before, depths, threshold);
      RaiseOneTenant(u, raised, f, subject, tenants[|tenants| - 1], x);
    }
  }

  lemma {:induction false} ResolveRecoveredEffect(u: iset<Series>, t: Tables, f: string, subject: string,
                                                  open: seq<nat>,
                                                 depths: map<nat, int>, threshold: int, x: Series)
    requires Sound(u, t) && Covers(u, f, subject) && x in u
    ensures var t' := ResolveRecovered(t, f, subject, open, depths, threshold);
      && Sound(u, t') && (Timeline(t, x) ==> Timeline(t', x))
      && OpenOf(t'.rows, x)
         == if OfRule(x, f, subject) && x.tenant in open && !DlqBreach(depths, threshold, x.tenant) then 0
            else OpenOf(t.rows, x)
  {
    if open != [] {
      var before := open[..|open| - 1];
      ResolveRecoveredEffect(u, t, f, subject, before, depths, threshold, x);
      ResolveOneTenant(u, ResolveRecovered(t, f, subject, before, depths, threshold), f, subject, open[|open| - 1], x);
    }
  }

  /** After a depth tick a tenant has an open episode exactly when its queue was counted at
      or above the threshold, emptied queues included; every other series is as it was;
      and audit rows that alternated still do. */
  lemma OpenExactlyWhenDeep(u: iset<Series>, t: Tables, f: string, subject: string, tenants: seq<nat>,
                            depths: map<nat, int>, threshold: int, x: Series)
    requires Sound(u, t) && Covers(u, f, subject) && x in u && (x.tenant in depths ==> x.tenant in tenants)
    ensures var t' := JudgeDepths(t, f, subject, tenants, depths, threshold);
      && Sound(u, t') && (Timeline(t, x) ==> Timeline(t', x))
      && OpenOf(t'.rows, x)
         == if x.fingerprint == f && x.subject == subject
            then (if x.tenant in depths && depths[x.tenant] >= threshold then 1 else 0)
            else OpenOf(t.rows, x)
  {
    var raised := RaiseBreaching(t, f, subject, tenants, depths, threshold);
    RaiseBreachingEffect(u, t, f, subject, tenants, depths, threshold, x);
    OpenTenantsComplete(u, raised.rows, f, subject, x.tenant);
    ResolveRecoveredEffect(u, raised, f, subject, OpenTenants(raised.rows, f, subject), depths, threshold, x);
  }

  lemma RaiseOneTenant(u: iset<Series>, t: Tables, f: string, subject: string, tenant: nat, x: Series)
    requires Sound(u, t) && Covers(u, f, subject) && x in u
    ensures var t' := RaiseIn(t, Series(tenant, f, subject));
      && Sound(u, t') && (Timeline(t, x) ==> Timeline(t', x))
      && OpenOf(t'.rows, x) == if x == Series(tenant, f, subject) then 1 else OpenOf(t.rows, x)
  {
    assert Series(tenant, f, subject) in u;
    JudgeEffect(u, t, 0, Reading(Series(tenant, f, subject), Some(0)));
  }

  lemma ResolveOneTenant(u: iset<Series>, t: Tables, f: string, subject: string, tenant: nat, x: Series)
    requires Sound(u, t) && Covers(u, f, subject) && x in u
    ensures var t' := ResolveIn(t, Series(tenant, f, subject));
      && Sound(u, t') && (Timeline(t, x) ==> Timeline(t', x))
      && OpenOf(t'.rows, x) == if x == Series(tenant, f, subject) then 0 else OpenOf(t.rows, x)
  {
    assert Series(tenant, f, subject) in u;
    JudgeEffect(u, t, 0, Reading(Series(tenant, f, subject), Some(-1)));
  }

  /** Tenants with an open alert under the rule's prefix. */
  function OpenTenants(rows: seq<Alert>, f: string, subject: string): seq<nat> {
    if rows == [] then []
    else
      var before, a := OpenTenants(rows[..|rows| - 1], f, subject), rows[|rows| - 1];
      if !a.resolved && DedupPrefix(f, subject) <= KeyOf(a) && a.series.tenant !in before
      then before + [a.series.tenant] else before
  }

  lemma {:induction false} OpenTenantsComplete(u: iset<Series>, rows: seq<Alert>, f: string, subject: string, n: nat)
    requires Separate(u) && AllIn(u, rows) && Covers(u, f, subject)
    ensures OpenOf(rows, Series(n, f, subject)) > 0 ==> n in OpenTenants(rows, f, subject)
  {
    if rows != [] {
      OpenTenantsComplete(u, rows[..|rows| - 1], f, subject, n);
      var a := rows[|rows| - 1];
      var s := Series(a.series.tenant, f, subject);
      assert a.series in u && s in u;
      MatchIsSeries(a, s);
    }
  }

  class AlertStore {
    var rows: seq<Alert>
    var audit: seq<AuditRow>

    ghost function View(): Tables reads this { Tables(rows, audit) }

    constructor ()
      ensures View() == Tables([], [])
    {
      rows, audit := [], [];
    }

    method RaiseEpisode(s: Series) returns (id: Option<nat>)
      modifies this
      ensures View() == RaiseIn(old(View()), s)
      ensures id.None? <==> OpenAlert(old(rows), s).Some? || KeyTaken(old(rows), s, EpisodesSoFar(old(rows), s))
      ensures id.None? ==> rows == old(rows) && audit == old(audit)
      ensures id.Some? ==>
        && id.value == |old(rows)| && rows == old(rows) + [Alert(s, EpisodesSoFar(old(rows), s), false)]
        && audit == old(audit) + [AuditRow(Raised, id.value, s)]
    {
      var open := OpenAlert(rows, s);
      if open.Some? {
        return None;
      }
      var ordinal := EpisodesSoFar(rows, s);
      if KeyTaken(rows, s, ordinal) {
        return None;
      }
      id := Some(|rows|);
      audit := audit + [AuditRow(Raised, |rows|, s)];
      rows := rows + [Alert(s, ordinal, false)];
    }

    method ResolveEpisode(s: Series) returns (id: Option<nat>)
      modifies this
      ensures View() == ResolveIn(old(View()), s) && id == OpenAlert(old(rows), s)
      ensures id.None? ==> rows == old(rows) && audit == old(audit)
      ensures id.Some? ==>
        && id.value < |old(rows)| && rows == old(rows)[id.value := old(rows)[id.value].(resolved := true)]
        && audit == old(audit) + [AuditRow(Resolved, id.value, s)]
    {
      id := OpenAlert(rows, s);
      if id.Some? {
        rows := rows[id.value := rows[id.value].(resolved := true)];
        audit := audit + [AuditRow(Resolved, id.value, s)];
      }
    }

    /** The lag rule over every paged group, as a stream of readings of the platform tenant. */
    method EvaluateConsumerLag(groups: seq<string>, samples: seq<Option<int>>, threshold: int)
      requires |groups| == |samples|
      modifies this
      ensures View() == JudgeAll(old(View()), threshold, LagReadings(CONSUMER_STALLED, groups, samples))
    {
      var i := 0;
      while i < |groups|
        invariant i <= |groups|
        invariant View() == JudgeAll(old(View()), threshold, LagReadings(CONSUMER_STALLED, groups, samples)[..i])
      {
        var s := Series(PLATFORM_TENANT, CONSUMER_STALLED, groups[i]);
        assert LagReadings(CONSUMER_STALLED, groups, samples)[..i + 1][..i]
            == LagReadings(CONSUMER_STALLED, groups, samples)[..i];
        if samples[i].Some? {
          if samples[i].value >= threshold {
            var raised := RaiseEpisode(s);
          } else {
            var resolved := ResolveEpisode(s);
          }
        }
        i := i + 1;
      }
      assert LagReadings(CONSUMER_STALLED, groups, samples)[..|groups|]
          == LagReadings(CONSUMER_STALLED, groups, samples);
    }

    method EvaluateDlqDepth(tenants: seq<nat>, depths: map<nat, int>, threshold: int)
      modifies this
      ensures View() == JudgeDepths(old(View()), DLQ_DEPTH, DLQ_SUBJECT, tenants, depths, threshold)
    {
      EvaluateDepths(DLQ_DEPTH, DLQ_SUBJECT, tenants, depths, threshold);
    }

    method EvaluateDepths(f: string, subject: string, tenants: seq<nat>, depths: map<nat, int>, threshold: int)
      modifies this
      ensures View() == JudgeDepths(old(View()), f, subject, tenants, depths, threshold)
    {
      for i := 0 to |tenants|
        invariant View() == RaiseBreaching(old(View()), f, subject, tenants[..i], depths, threshold)
      {
        assert tenants[..i + 1][..i] == tenants[..i];
        if DlqBreach(depths, threshold, tenants[i]) {
          var raised := RaiseEpisode(Series(tenants[i], f, subject));
        }
      }
      assert tenants[..|tenants|] == tenants;
      ghost var raisedAll := View();
      var open := OpenTenants(rows, f, subject);
      for j := 0 to |open|
        invariant View() == ResolveRecovered(raisedAll, f, subject, open[..j], depths, threshold)
      {
        assert open[..j + 1][..j] == open[..j];
        if !DlqBreach(depths, threshold, open[j]) {
          var resolved := ResolveEpisode(Series(open[j], f, subject));
        }
      }
      assert open[..|open|] == open;
    }
  }

  function LagReadings(f: string, groups: seq<string>, samples: seq<Option<int>>): (readings: seq<Reading>)
    requires |groups| == |samples|
    ensures |readings| == |groups|
  {
    seq(|groups|, i requires 0 <= i < |groups| => Reading(Series(PLATFORM_TENANT, f, groups[i]), samples[i]))
  }

  /** The names both rules use are colon-free, so their series never mix. */
  lemma RuleNamesAreColonFree()
    ensures NoColon(CONSUMER_STALLED) && NoColon(DLQ_DEPTH) && NoColon(DLQ_SUBJECT)
  {
  }
}
