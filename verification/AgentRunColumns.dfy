/** What every column of an agent-run row says about the reports it took, over
    any sequence of reports and briefings. */
module AgentRunColumns {
  import opened Options
  import opened AgentRun

  /** The reports taken: all up to the one or the briefing that closes the run. */
  ghost function Taken(ops: seq<Op>): seq<Report> {
    if ops == [] then []
    else
      var before, op := ops[..|ops| - 1], ops[|ops| - 1];
      Taken(before) + if op.Reporting? && ClosedAt(before).None? then [op.report] else []
  }

  /** When the run was closed: by its first report of a final state, or by its first briefing. */
  ghost function ClosedAt(ops: seq<Op>): Option<Time> {
    if ops == [] then None
    else
      var before, op := ops[..|ops| - 1], ops[|ops| - 1];
      if ClosedAt(before).Some? then ClosedAt(before)
      else match op
        case Reporting(_, r) => if r.state in {ResolvedRun, Escalated, FailedRun} then Some(r.at) else None
        case Briefs(_, _, at) => if Taken(before) != [] then Some(at) else None
  }

  /** The first briefing of a run that exists. */
  ghost function FirstBriefing(ops: seq<Op>): Option<Briefing> {
    if ops == [] then None
    else
      var before, op := ops[..|ops| - 1], ops[|ops| - 1];
      if FirstBriefing(before).Some? || op.Reporting? || Taken(before) == [] then FirstBriefing(before)
      else Some(Briefing(op.body, op.prose, op.at))
  }

  ghost function FirstAccount(ops: seq<Op>): Option<nat> {
    if ops == [] then None
    else
      var before, op := ops[..|ops| - 1], ops[|ops| - 1];
      if FirstAccount(before).None? && op.Reporting? then Some(op.account) else FirstAccount(before)
  }

  /** The last value any of the reports gave. */
  ghost function LastGiven<T>(reports: seq<Report>, pick: Report -> Option<T>): Option<T> {
    if reports == [] then None
    else if pick(reports[|reports| - 1]).Some? then pick(reports[|reports| - 1])
    else LastGiven(reports[..|reports| - 1], pick)
  }

  ghost function AllGiven<T>(reports: seq<Report>, pick: Report -> Option<T>): seq<T> {
    if reports == [] then []
    else
      var last := pick(reports[|reports| - 1]);
      AllGiven(reports[..|reports| - 1], pick) + if last.Some? then [last.value] else []
  }

  /** The state each report that changed it moved to, and when. */
  ghost function Moves(reports: seq<Report>): seq<Entry> {
    if reports == [] then []
    else
      var before, r := reports[..|reports| - 1], reports[|reports| - 1];
      Moves(before) + if before == [] || before[|before| - 1].state != r.state then [Entry(r.state, r.at)] else []
  }

  function AlertOf(r: Report): Option<nat> { r.alert }
  function ScenarioOf(r: Report): Option<string> { r.scenario }
  function HypothesesOf(r: Report): Option<seq<Json>> { r.hypotheses }
  function PlanOf(r: Report): Option<Json> { r.plan }
  function BudgetOf(r: Report): Option<Json> { r.budget }
  function VerificationOf(r: Report): Option<Json> { r.verification }

  function Newest<T>(all: seq<T>, n: nat): seq<T> { if |all| > n then all[|all| - n..] else all }

  /** The columns that follow the last report, cleared or not, and the timeline. */
  ghost predicate Follows(run: Run, reports: seq<Report>)
    requires reports != []
  {
    var last := reports[|reports| - 1];
    && run.state == last.state && run.currentHypothesis == last.currentHypothesis && run.lastStep == last.lastStep
    && run.history == Moves(reports)
  }

  /** The columns that are filled in and never cleared. */
  ghost predicate Fills(run: Run, reports: seq<Report>) {
    && run.alert == LastGiven(reports, AlertOf) && run.scenario == LastGiven(reports, ScenarioOf)
    && Some(run.hypotheses) == Or(LastGiven(reports, HypothesesOf), Some([]))
    && run.plan == LastGiven(reports, PlanOf) && run.budget == LastGiven(reports, BudgetOf)
    && run.verification == LastGiven(reports, VerificationOf)
    && run.verifications == Newest(AllGiven(reports, VerificationOf), 50)
  }

  lemma FirstReport(account: nat, r: Report)
    ensures Follows(Created(account, r), [r]) && Fills(Created(account, r), [r])
  {
    assert [r][..0] == [];
  }

  lemma OneMoreGiven<T>(reports: seq<Report>, r: Report, pick: Report -> Option<T>)
    ensures LastGiven(reports + [r], pick) == Or(pick(r), LastGiven(reports, pick))
    ensures AllGiven(reports + [r], pick) == AllGiven(reports, pick) + if pick(r).Some? then [pick(r).value] else []
  {
    assert (reports + [r])[..|reports|] == reports;
  }

  lemma OneMoreMove(reports: seq<Report>, r: Report)
    requires reports != []
    ensures Moves(reports + [r])
         == Moves(reports) + if reports[|reports| - 1].state != r.state then [Entry(r.state, r.at)] else []
  {
    assert (reports + [r])[..|reports|] == reports;
  }

  lemma NextFollows(run: Run, r: Report, reports: seq<Report>)
    requires reports != [] && Follows(run, reports)
    ensures Follows(Updated(run, r), reports + [r])
  {
    OneMoreMove(reports, r);
  }

  lemma NextFills(run: Run, r: Report, reports: seq<Report>)
    requires Fills(run, reports)
    ensures Fills(Updated(run, r), reports + [r])
  {
    OneMoreGiven(reports, r, AlertOf);
    OneMoreGiven(reports, r, ScenarioOf);
    OneMoreGiven(reports, r, HypothesesOf);
    OneMoreGiven(reports, r, PlanOf);
    OneMoreGiven(reports, r, BudgetOf);
    OneMoreGiven(reports, r, VerificationOf);
    if r.verification.Some? { NewestAppend(AllGiven(reports, VerificationOf), r.verification.value, 50); }
  }

  lemma NewestAppend<T>(all: seq<T>, x: T, n: nat)
    requires n > 0
    ensures Capped(Newest(all, n) + [x], n) == Newest(all + [x], n)
  {
    CappedAppend(all, x, n);
  }

  /** What the row, if there is one, says of the operations so far. */
  ghost predicate Tells(run: Option<Run>, reports: seq<Report>, closed: Option<Time>, briefing: Option<Briefing>,
                        account: Option<nat>) {
    match run
    case None => reports == [] && closed == None && briefing == None && account == None
    case Some(row) =>
      && reports != [] && Follows(row, reports) && Fills(row, reports)
      && row.finishedAt == closed && row.briefing == briefing && Some(row.account) == account
  }

  lemma ReportTells(run: Option<Run>, account: nat, r: Report, reports: seq<Report>, closed: Option<Time>,
                    briefing: Option<Briefing>, first: Option<nat>)
    requires Tells(run, reports, closed, briefing, first)
    ensures var open := closed.None?;
      Tells(Apply(run, Reporting(account, r)), if open then reports + [r] else reports,
            if open && r.state in {ResolvedRun, Escalated, FailedRun} then Some(r.at) else closed, briefing,
            Or(first, Some(account)))
  {
    match run
    case None =>
      FirstReport(account, r);
      assert reports + [r] == [r];
    case Some(row) =>
      if row.finishedAt.None? {
        NextFollows(row, r, reports);
        NextFills(row, r, reports);
      }
  }

  lemma BriefingTells(run: Option<Run>, body: Json, prose: Option<string>, at: Time, reports: seq<Report>,
                      closed: Option<Time>, briefing: Option<Briefing>, first: Option<nat>)
    requires Tells(run, reports, closed, briefing, first)
    requires run.Some? && run.value.briefing.Some? ==> run.value.finishedAt.Some?
    ensures Tells(Apply(run, Briefs(body, prose, at)), reports,
                  if reports == [] || closed.Some? then closed else Some(at),
                  if reports == [] then briefing else Or(briefing, Some(Briefing(body, prose, at))), first)
  {
  }

  lemma AfterReport(before: seq<Op>, account: nat, r: Report)
    ensures var ops := before + [Reporting(account, r)];
      && Taken(ops) == (if ClosedAt(before).None? then Taken(before) + [r] else Taken(before))
      && ClosedAt(ops) == (if ClosedAt(before).None? && r.state in {ResolvedRun, Escalated, FailedRun} then Some(r.at)
                           else ClosedAt(before))
      && FirstBriefing(ops) == FirstBriefing(before) && FirstAccount(ops) == Or(FirstAccount(before), Some(account))
      && After(None, ops) == Apply(After(None, before), Reporting(account, r))
  {
    assert (before + [Reporting(account, r)])[..|before|] == before;
  }

  lemma AfterBriefing(before: seq<Op>, body: Json, prose: Option<string>, at: Time)
    ensures var ops := before + [Briefs(body, prose, at)];
      && Taken(ops) == Taken(before) && FirstAccount(ops) == FirstAccount(before)
      && ClosedAt(ops) == (if Taken(before) == [] || ClosedAt(before).Some? then ClosedAt(before) else Some(at))
      && FirstBriefing(ops) == (if Taken(before) == [] then FirstBriefing(before)
                                else Or(FirstBriefing(before), Some(Briefing(body, prose, at))))
      && After(None, ops) == Apply(After(None, before), Briefs(body, prose, at))
  {
    assert (before + [Briefs(body, prose, at)])[..|before|] == before;
  }

  /** Over every sequence of reports and briefings: the row exists once a report was taken; its
      state, hypothesis in hand and last step are the last report's, even when that gave none;
      alert, scenario, hypotheses, plan, budget and verification are the last ones any report
      gave; the verifications are the newest fifty given; the timeline is the changes of
      state; the account is the first reporter's; and the run was closed, and briefed, by the
      first that did so. */
  lemma {:induction false} ColumnsTellTheReports(ops: seq<Op>)
    ensures Tells(After(None, ops), Taken(ops), ClosedAt(ops), FirstBriefing(ops), FirstAccount(ops))
  {
    if ops != [] {
      var before, op := ops[..|ops| - 1], ops[|ops| - 1];
      assert ops == before + [op];
      ColumnsTellTheReports(before);
      NextOp(before, op);
    }
  }

  lemma NextOp(before: seq<Op>, op: Op)
    requires Tells(After(None, before), Taken(before), ClosedAt(before), FirstBriefing(before), FirstAccount(before))
    ensures var ops := before + [op];
      Tells(After(None, ops), Taken(ops), ClosedAt(ops), FirstBriefing(ops), FirstAccount(ops))
  {
    var run, reports := After(None, before), Taken(before);
    match op
    case Reporting(account, r) =>
      ReportTells(run, account, r, reports, ClosedAt(before), FirstBriefing(before), FirstAccount(before));
      AfterReport(before, account, r);
    case Briefs(body, prose, at) =>
      RowStaysWellKept(before);
      BriefingTells(run, body, prose, at, reports, ClosedAt(before), FirstBriefing(before), FirstAccount(before));
      AfterBriefing(before, body, prose, at);
  }
}
