/** The two rules together, tick after tick, over the series they actually name. */
module AlertRuleRuns {
  import opened Options
  import opened DedupKeys
  import opened AlertEpisodes
  import opened AlertRules

  datatype Tick =
    | LagTick(groups: seq<string>, samples: seq<Option<int>>, threshold: int)
    | DepthTick(tenants: seq<nat>, depths: map<nat, int>, threshold: int)

  /** Consumer groups are colon-free, each has a sample or its absence, and the tenants
      walked include every one with a count. */
  ghost predicate Proper(tick: Tick) {
    match tick
    case LagTick(groups, samples, _) => |groups| == |samples| && forall i :: 0 <= i < |groups| ==> NoColon(groups[i])
    case DepthTick(tenants, depths, _) => forall n :: n in depths ==> n in tenants
  }

  /** The lag rule's name, the depth rule's name and the depth rule's subject. */
  datatype RuleNames = RuleNames(lag: string, depth: string, total: string)

  const RULES := RuleNames(CONSUMER_STALLED, DLQ_DEPTH, DLQ_SUBJECT)

  ghost predicate ColonFree(r: RuleNames) { NoColon(r.lag) && NoColon(r.depth) && NoColon(r.total) }

  /** Every series the two rules can name. */
  ghost function Family(r: RuleNames): iset<Series> {
    iset s: Series | (s.fingerprint == r.lag || s.fingerprint == r.depth) && NoColon(s.subject)
  }

  ghost function Ticked(r: RuleNames, t: Tables, tick: Tick): Tables {
    match tick
    case LagTick(groups, samples, threshold) =>
      if |groups| == |samples| then JudgeAll(t, threshold, LagReadings(r.lag, groups, samples)) else t
    case DepthTick(tenants, depths, threshold) => JudgeDepths(t, r.depth, r.total, tenants, depths, threshold)
  }

  ghost function After(r: RuleNames, ticks: seq<Tick>): Tables {
    if ticks == [] then Tables([], []) else Ticked(r, After(r, ticks[..|ticks| - 1]), ticks[|ticks| - 1])
  }

  /** The last sample measured for the group: samples[i] is the one of groups[i]. */
  ghost function LatestSample(groups: seq<string>, samples: seq<Option<int>>, group: string): Option<int>
    requires |groups| == |samples|
  {
    if groups == [] then None
    else
      var n := |groups| - 1;
      if groups[n] == group && samples[n].Some? then samples[n] else LatestSample(groups[..n], samples[..n], group)
  }

  lemma {:induction false} LatestIsOfItsGroup(f: string, groups: seq<string>, samples: seq<Option<int>>, s: Series)
    requires |groups| == |samples|
    ensures Latest(LagReadings(f, groups, samples), s)
         == if s.tenant == PLATFORM_TENANT && s.fingerprint == f then LatestSample(groups, samples, s.subject) else None
  {
    if groups != [] {
      var n := |groups| - 1;
      LatestIsOfItsGroup(f, groups[..n], samples[..n], s);
      var readings := LagReadings(f, groups, samples);
      assert readings[..n] == LagReadings(f, groups[..n], samples[..n]);
    }
  }

  /** What a tick says about the series, or what was said before if it says nothing: the lag
      rule speaks of the platform's groups it has a sample of, the depth rule of every tenant. */
  ghost function Judged(r: RuleNames, tick: Tick, s: Series, before: bool): bool {
    match tick
    case LagTick(groups, samples, threshold) =>
      if |groups| != |samples| || s.tenant != PLATFORM_TENANT || s.fingerprint != r.lag then before
      else var latest := LatestSample(groups, samples, s.subject);
        if latest.Some? then latest.value >= threshold else before
    case DepthTick(_, depths, threshold) =>
      if s.fingerprint == r.depth && s.subject == r.total then s.tenant in depths && depths[s.tenant] >= threshold
      else before
  }

  /** What the last judgement about the series said: a breach or not. */
  ghost function Breaching(r: RuleNames, ticks: seq<Tick>, s: Series): bool {
    if ticks == [] then false else Judged(r, ticks[|ticks| - 1], s, Breaching(r, ticks[..|ticks| - 1], s))
  }

  lemma FamilyIsSeparate(r: RuleNames)
    requires ColonFree(r)
    ensures Separate(Family(r)) && Covers(Family(r), r.depth, r.total)
  {
    ColonFreeIsSeparate(Family(r));
  }

  lemma {:induction false} FamilyKeepsItsBooks(r: RuleNames, ticks: seq<Tick>, s: Series)
    requires ColonFree(r) && s in Family(r) && forall k :: 0 <= k < |ticks| ==> Proper(ticks[k])
    ensures var t := After(r, ticks);
      Sound(Family(r), t) && Timeline(t, s) && OpenOf(t.rows, s) == if Breaching(r, ticks, s) then 1 else 0
  {
    FamilyIsSeparate(r);
    if ticks != [] {
      var before, tick := ticks[..|ticks| - 1], ticks[|ticks| - 1];
      FamilyKeepsItsBooks(r, before, s);
      TickKeepsBooks(r, After(r, before), tick, s);
    }
  }

  lemma TickKeepsBooks(r: RuleNames, t: Tables, tick: Tick, s: Series)
    requires ColonFree(r) && s in Family(r) && Proper(tick) && Sound(Family(r), t) && Timeline(t, s)
    ensures var t' := Ticked(r, t, tick);
      && Sound(Family(r), t') && Timeline(t', s) && OpenOf(t'.rows, s) <= 1
      && (OpenOf(t'.rows, s) == 1 <==> Judged(r, tick, s, OpenOf(t.rows, s) == 1))
  {
    FamilyIsSeparate(r);
    match tick
    case LagTick(groups, samples, threshold) =>
      LatestIsOfItsGroup(r.lag, groups, samples, s);
      OpenFollowsTheLatestMeasurement(Family(r), t, threshold, LagReadings(r.lag, groups, samples), s);
    case DepthTick(tenants, depths, threshold) =>
      OpenExactlyWhenDeep(Family(r), t, r.depth, r.total, tenants, depths, threshold, s);
  }

  /** From an empty table, through any sequence of ticks of both rules: each series the
      rules name is open exactly when the last judgement about it was a breach, missing
      readings and the other rule's ticks change nothing, there is never more than one
      open episode of it, and its audit rows alternate raised, resolved. */
  lemma BothRulesKeepTheirBooks(ticks: seq<Tick>, s: Series)
    requires s in Family(RULES) && forall k :: 0 <= k < |ticks| ==> Proper(ticks[k])
    ensures var t := After(RULES, ticks);
      Timeline(t, s) && Contiguous(t.rows, s) && OpenOf(t.rows, s) == if Breaching(RULES, ticks, s) then 1 else 0
  {
    RuleNamesAreColonFree();
    FamilyKeepsItsBooks(RULES, ticks, s);
  }

  /** Both evaluator methods, on one tick each, do what the run above says. */
  method Evaluate(store: AlertStore, tick: Tick)
    requires tick.LagTick? ==> |tick.groups| == |tick.samples|
    modifies store
    ensures store.View() == Ticked(RULES, old(store.View()), tick)
  {
    match tick
    case LagTick(groups, samples, threshold) =>
      store.EvaluateConsumerLag(groups, samples, threshold);
    case DepthTick(tenants, depths, threshold) =>
      store.EvaluateDlqDepth(tenants, depths, threshold);
  }
}
