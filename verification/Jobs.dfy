/** Job rows, their dependency edges and the outbox events their terminal
    writes add: reachability through blocked jobs, and the cascade over it. */
module Jobs {
  import opened Options

  type JobId = nat
  type Time = int

  datatype Status = Waiting | Pending | Running | Completed | Failed | DeadLetter | Cancelled

  datatype Message = Text(text: string) | StrandedBy(parent: JobId, status: Status)

  datatype Job = Job(tenant: nat, user: nat, status: Status, inSaga: bool,
                     startedAt: Option<Time>, completedAt: Option<Time>, errorMessage: Option<Message>)

  datatype Topic = DlqTopic | CompletedTopic | CancelledTopic

  /** An outbox row: its topic, the (tenant, user) partition key and the job it announces. */
  datatype Event = Event(topic: Topic, tenant: nat, user: nat, job: JobId)

  /** (child, parent): the child is blocked until the parent completes. */
  type Edges = set<(JobId, JobId)>
  type Rows = map<JobId, Job>

  const CASCADE_MAX_DEPTH: nat := 50

  predicate Terminal(s: Status) { s == DeadLetter || s == Completed || s == Cancelled }

  predicate StampsCompletion(s: Status) { Terminal(s) || s == Failed }

  predicate Strands(s: Status) { s == DeadLetter || s == Cancelled }

  function TopicOf(s: Status): Topic {
    if s == DeadLetter then DlqTopic else if s == Cancelled then CancelledTopic else CompletedTopic
  }

  function EventOf(id: JobId, job: Job): Event { Event(TopicOf(job.status), job.tenant, job.user, id) }

  // ----- which jobs a stranded parent blocks -----

  predicate Blocked(rows: Rows, j: JobId) { j in rows && rows[j].status == Waiting && !rows[j].inSaga }

  function BlockedChildren(rows: Rows, edges: Edges, parents: set<JobId>): set<JobId> {
    set e | e in edges && e.1 in parents && Blocked(rows, e.0) :: e.0
  }

  /** A chain of dependency hops from parent down to x, every job on it after the parent blocked. */
  ghost predicate Chain(rows: Rows, edges: Edges, parent: JobId, x: JobId, p: seq<JobId>) {
    && |p| >= 1 && p[0] == parent && p[|p| - 1] == x
    && forall k :: 1 <= k < |p| ==>
         (p[k], p[k - 1]) in edges && p[k] in rows && rows[p[k]].status == Waiting && !rows[p[k]].inSaga
  }

  /** x is reachable from parent in at most `hops` hops through blocked jobs. */
  ghost predicate Reaches(rows: Rows, edges: Edges, parent: JobId, x: JobId, hops: nat) {
    exists p :: Chain(rows, edges, parent, x, p) && |p| <= hops + 1
  }

  /** The jobs within n hops, as the breadth-first levels accumulate them. */
  ghost function Within(rows: Rows, edges: Edges, parent: JobId, n: nat): set<JobId> {
    if n == 0 then {parent}
    else var w := Within(rows, edges, parent, n - 1); w + BlockedChildren(rows, edges, w)
  }

  lemma {:induction false} WithinGrows(rows: Rows, edges: Edges, parent: JobId, m: nat, n: nat)
    requires m <= n
    ensures Within(rows, edges, parent, m) <= Within(rows, edges, parent, n)
    decreases n
  {
    if m < n { WithinGrows(rows, edges, parent, m, n - 1); }
  }

  lemma {:induction false} WithinIsBlocked(rows: Rows, edges: Edges, parent: JobId, n: nat)
    ensures parent in Within(rows, edges, parent, n)
    ensures forall x :: x in Within(rows, edges, parent, n) && x != parent ==> Blocked(rows, x)
  {
    if n > 0 { WithinIsBlocked(rows, edges, parent, n - 1); }
  }

  lemma {:induction false} WithinStops(rows: Rows, edges: Edges, parent: JobId, m: nat, n: nat)
    requires m <= n
    requires var w := Within(rows, edges, parent, m); BlockedChildren(rows, edges, w) <= w
    ensures Within(rows, edges, parent, n) == Within(rows, edges, parent, m)
    decreases n
  {
    if m < n { WithinStops(rows, edges, parent, m, n - 1); }
  }

  /** The levels compute reachability by chains, at every depth and on any graph. */
  lemma {:induction false} WithinIsReachability(rows: Rows, edges: Edges, parent: JobId, x: JobId, n: nat)
    ensures x in Within(rows, edges, parent, n) <==> Reaches(rows, edges, parent, x, n)
  {
    if x in Within(rows, edges, parent, n) {
      var p := ChainTo(rows, edges, parent, x, n);
    }
    if Reaches(rows, edges, parent, x, n) {
      var p :| Chain(rows, edges, parent, x, p) && |p| <= n + 1;
      ChainStaysWithin(rows, edges, parent, x, p);
      WithinGrows(rows, edges, parent, |p| - 1, n);
    }
  }

  lemma {:induction false} ChainTo(rows: Rows, edges: Edges, parent: JobId, x: JobId, n: nat) returns (p: seq<JobId>)
    requires x in Within(rows, edges, parent, n)
    ensures Chain(rows, edges, parent, x, p) && |p| <= n + 1
    decreases n
  {
    if n == 0 {
      p := [x];
    } else if x in Within(rows, edges, parent, n - 1) {
      p := ChainTo(rows, edges, parent, x, n - 1);
    } else {
      var e :| e in edges && e.1 in Within(rows, edges, parent, n - 1) && Blocked(rows, e.0) && e.0 == x;
      var q := ChainTo(rows, edges, parent, e.1, n - 1);
      assert e == (x, e.1);
      p := q + [x];
    }
  }

  lemma {:induction false} ChainStaysWithin(rows: Rows, edges: Edges, parent: JobId, x: JobId, p: seq<JobId>)
    requires Chain(rows, edges, parent, x, p)
    ensures x in Within(rows, edges, parent, |p| - 1)
    decreases |p|
  {
    if |p| > 1 {
      ChainStaysWithin(rows, edges, parent, p[|p| - 2], p[..|p| - 1]);
      assert (x, p[|p| - 2]) in edges;
    }
  }

  // ----- the cascade as a function of the rows -----

  function CancelledJob(job: Job, parent: JobId, status: Status, at: Time): Job {
    job.(status := Cancelled, errorMessage := Some(StrandedBy(parent, status)), completedAt := Some(at))
  }

  function CancelRows(rows: Rows, targets: set<JobId>, parent: JobId, status: Status, at: Time): Rows {
    map j | j in rows :: if j in targets && Blocked(rows, j) then CancelledJob(rows[j], parent, status, at) else rows[j]
  }

  function EventsOf(rows: Rows, ids: set<JobId>): set<Event> {
    set j | j in ids && j in rows :: EventOf(j, rows[j])
  }

  ghost function CascadeTargets(rows: Rows, edges: Edges, parent: JobId, hops: nat): set<JobId> {
    Within(rows, edges, parent, hops) - {parent}
  }

  datatype Tables = Tables(rows: Rows, outbox: multiset<Event>)

  ghost function Cascaded(t: Tables, edges: Edges, hops: nat, parent: JobId, status: Status, at: Time): Tables {
    var targets := CascadeTargets(t.rows, edges, parent, hops);
    var rows := CancelRows(t.rows, targets, parent, status, at);
    Tables(rows, t.outbox + multiset(EventsOf(rows, targets)))
  }

  // ----- status writes as functions of the tables -----

  /** The columns a caller may set beside the status; None leaves the column to update_status. */
  datatype Extra = Extra(startedAt: Option<Option<Time>>, completedAt: Option<Option<Time>>,
                         errorMessage: Option<Option<Message>>)

  function Written(job: Job, status: Status, extra: Extra, now: Time): Job {
    job.(status := status,
         startedAt := if extra.startedAt.Some? then extra.startedAt.value
                      else if status == Running then Some(now) else job.startedAt,
         completedAt := if extra.completedAt.Some? then extra.completedAt.value
                        else if StampsCompletion(status) then Some(now) else job.completedAt,
         errorMessage := if extra.errorMessage.Some? then extra.errorMessage.value else job.errorMessage)
  }

  predicate Lands(rows: Rows, id: JobId, guard: Option<Job -> bool>) {
    id in rows && (guard.Some? ==> guard.value(rows[id]))
  }

  ghost function StatusWritten(t: Tables, edges: Edges, hops: nat, id: JobId, status: Status, extra: Extra,
                               guard: Option<Job -> bool>, now: Time): Tables {
    if !Lands(t.rows, id, guard) then t
    else
      var job := Written(t.rows[id], status, extra, now);
      var announced := Tables(t.rows[id := job],
                              if Terminal(status) then t.outbox + multiset{EventOf(id, job)} else t.outbox);
      if Strands(status) then Cascaded(announced, edges, hops, id, status, now) else announced
  }

  function Moved(rows: Rows, id: JobId, from: Status, to: Job -> Job): Rows {
    if id in rows && rows[id].status == from then rows[id := to(rows[id])] else rows
  }

  function Claimed(rows: Rows, id: JobId, now: Time): Rows {
    Moved(rows, id, Pending, (j: Job) => j.(status := Running, startedAt := Some(now)))
  }

  function Promoted(rows: Rows, id: JobId): Rows {
    Moved(rows, id, Waiting, (j: Job) => j.(status := Pending, errorMessage := None))
  }

  lemma EventsAreDistinct(rows: Rows, ids: set<JobId>)
    requires ids <= rows.Keys
    ensures |EventsOf(rows, ids)| == |ids|
    decreases |ids|
  {
    if ids != {} {
      var j :| j in ids;
      EventsAreDistinct(rows, ids - {j});
      assert EventsOf(rows, ids) == EventsOf(rows, ids - {j}) + {EventOf(j, rows[j])};
      assert EventOf(j, rows[j]) !in EventsOf(rows, ids - {j});
    }
  }

  /** The cascade turns exactly the rows, other than the parent, that a chain of at most
      `hops` hops through WAITING non-saga jobs reaches into CANCELLED ones, stamped and with
      the reason, and leaves every other row alone; each of them is announced on the
      cancelled topic once more than before, and nothing else is. */
  lemma CascadeCancelsExactlyTheReachable(t: Tables, edges: Edges, hops: nat, parent: JobId, status: Status, at: Time)
    ensures var t' := Cascaded(t, edges, hops, parent, status, at);
      && t'.rows.Keys == t.rows.Keys
      && (forall j :: j in t.rows ==>
           t'.rows[j] == if j != parent && Reaches(t.rows, edges, parent, j, hops)
                         then t.rows[j].(status := Cancelled, completedAt := Some(at),
                                         errorMessage := Some(StrandedBy(parent, status)))
                         else t.rows[j])
      && CascadeTargets(t.rows, edges, parent, hops) == (set j | j in t.rows && t'.rows[j] != t.rows[j])
      && |t'.outbox| == |t.outbox| + |CascadeTargets(t.rows, edges, parent, hops)|
      && (forall j :: j in CascadeTargets(t.rows, edges, parent, hops) ==>
           && j in t.rows
           && var e := Event(CancelledTopic, t.rows[j].tenant, t.rows[j].user, j); t'.outbox[e] == t.outbox[e] + 1)
  {
    var rows, targets := t.rows, CascadeTargets(t.rows, edges, parent, hops);
    var after := CancelRows(rows, targets, parent, status, at);
    WithinIsBlocked(rows, edges, parent, hops);
    forall j | j in rows
      ensures j in targets <==> j != parent && Reaches(rows, edges, parent, j, hops)
    {
      WithinIsReachability(rows, edges, parent, j, hops);
    }
    EventsAreDistinct(after, targets);
    forall j | j in targets ensures EventOf(j, after[j]) in EventsOf(after, targets) {}
  }

  lemma TargetsAreTheReachable(rows: Rows, edges: Edges, parent: JobId, hops: nat)
    ensures CascadeTargets(rows, edges, parent, hops)
         == set j | j in rows && j != parent && Reaches(rows, edges, parent, j, hops)
  {
    WithinIsBlocked(rows, edges, parent, hops);
    forall j ensures j in Within(rows, edges, parent, hops) <==> Reaches(rows, edges, parent, j, hops) {
      WithinIsReachability(rows, edges, parent, j, hops);
    }
  }

  /** The topic each terminal status is announced on; no other status is announced. */
  function Announcement(id: JobId, job: Job, status: Status): multiset<Event> {
    match status
    case DeadLetter => multiset{Event(DlqTopic, job.tenant, job.user, id)}
    case Completed => multiset{Event(CompletedTopic, job.tenant, job.user, id)}
    case Cancelled => multiset{Event(CancelledTopic, job.tenant, job.user, id)}
    case _ => multiset{}
  }

  /** The row of a write that lands: the status as given; the start of a RUNNING job and the
      end of a COMPLETED, FAILED, DEAD_LETTER or CANCELLED one stamped unless the caller gave
      the time; owner and saga kept. */
  ghost predicate WrittenAs(job: Job, job': Job, status: Status, extra: Extra, now: Time) {
    && job'.status == status
    && (job'.tenant, job'.user, job'.inSaga) == (job.tenant, job.user, job.inSaga)
    && job'.startedAt == (match extra.startedAt
                          case Some(given) => given
                          case None => if status == Running then Some(now) else job.startedAt)
    && job'.completedAt == (match extra.completedAt
                            case Some(given) => given
                            case None => if status in {Completed, Failed, DeadLetter, Cancelled} then Some(now)
                                         else job.completedAt)
    && job'.errorMessage == (match extra.errorMessage case Some(given) => given case None => job.errorMessage)
  }

  lemma WrittenColumns(job: Job, status: Status, extra: Extra, now: Time)
    ensures WrittenAs(job, Written(job, status, extra, now), status, extra, now)
  {
  }

  /** A write that lands changes its row so and is announced on its own topic; only
      DEAD_LETTER and CANCELLED go on to other rows. One that does not land changes nothing. */
  lemma StatusWriteColumns(t: Tables, edges: Edges, hops: nat, id: JobId, status: Status, extra: Extra,
                           guard: Option<Job -> bool>, now: Time)
    ensures var t' := StatusWritten(t, edges, hops, id, status, extra, guard, now);
      if id !in t.rows || (guard.Some? && !guard.value(t.rows[id])) then t' == t
      else
        && id in t'.rows && WrittenAs(t.rows[id], t'.rows[id], status, extra, now)
        && t.outbox + Announcement(id, t.rows[id], status) <= t'.outbox
        && (status !in {DeadLetter, Cancelled} ==>
              && t'.rows == t.rows[id := t'.rows[id]]
              && t'.outbox == t.outbox + Announcement(id, t.rows[id], status))
  {
    if id in t.rows && (guard.Some? ==> guard.value(t.rows[id])) {
      WrittenColumns(t.rows[id], status, extra, now);
      var job := Written(t.rows[id], status, extra, now);
      if status in {DeadLetter, Cancelled} {
        var announced := Tables(t.rows[id := job], t.outbox + multiset{EventOf(id, job)});
        CascadeCancelsExactlyTheReachable(announced, edges, hops, id, status, now);
      }
    }
  }

  /** The breadth-first loop after `depth` levels: the jobs seen, the last level and the rows. */
  ghost predicate AtLevel(start: Rows, edges: Edges, parent: JobId, status: Status, at: Time,
                          depth: nat, frontier: set<JobId>, seen: set<JobId>, rows: Rows) {
    && seen == Within(start, edges, parent, depth)
    && frontier <= seen && BlockedChildren(start, edges, seen - frontier) <= seen
    && rows == CancelRows(start, seen - {parent}, parent, status, at)
  }

  /** The events added and the running count, for the jobs cancelled so far. */
  ghost predicate Tallied(before: multiset<Event>, rows: Rows, done: set<JobId>,
                          outbox: multiset<Event>, cancelled: nat) {
    outbox == before + multiset(EventsOf(rows, done)) && cancelled == |done|
  }

  lemma FirstLevel(start: Rows, edges: Edges, parent: JobId, status: Status, at: Time, outbox: multiset<Event>)
    ensures AtLevel(start, edges, parent, status, at, 0, {parent}, {parent}, start)
    ensures Tallied(outbox, start, {parent} - {parent}, outbox, 0)
  {
    assert {parent} - {parent} == {};
    assert CancelRows(start, {}, parent, status, at) == start;
    assert EventsOf(start, {}) == {};
  }

  lemma NextTargets(start: Rows, edges: Edges, parent: JobId, status: Status, at: Time,
                    depth: nat, frontier: set<JobId>, seen: set<JobId>, rows: Rows)
    requires AtLevel(start, edges, parent, status, at, depth, frontier, seen, rows)
    ensures parent in seen
    ensures BlockedChildren(rows, edges, frontier) - seen == BlockedChildren(start, edges, seen) - seen
    ensures forall j :: j in BlockedChildren(rows, edges, frontier) - seen ==> Blocked(rows, j)
  {
    WithinIsBlocked(start, edges, parent, depth);
    forall j | j in BlockedChildren(start, edges, seen) - seen
      ensures j in BlockedChildren(rows, edges, frontier)
    {
      var e :| e in edges && e.1 in seen && Blocked(start, e.0) && e.0 == j;
      assert e.1 in frontier;
    }
  }

  lemma NextLevel(start: Rows, edges: Edges, parent: JobId, status: Status, at: Time,
                  depth: nat, frontier: set<JobId>, seen: set<JobId>, rows: Rows, targets: set<JobId>)
    requires AtLevel(start, edges, parent, status, at, depth, frontier, seen, rows)
    requires targets == BlockedChildren(rows, edges, frontier) - seen
    ensures AtLevel(start, edges, parent, status, at, depth + 1, targets, seen + targets,
                    CancelRows(rows, targets, parent, status, at))
  {
    NextTargets(start, edges, parent, status, at, depth, frontier, seen, rows);
    assert (seen + targets) - targets == seen;
    assert (seen + targets) - {parent} == (seen - {parent}) + targets;
    CancelTwice(start, seen - {parent}, targets, parent, status, at);
  }

  lemma CancelTwice(rows: Rows, a: set<JobId>, b: set<JobId>, parent: JobId, status: Status, at: Time)
    ensures CancelRows(CancelRows(rows, a, parent, status, at), b, parent, status, at)
         == CancelRows(rows, a + b, parent, status, at)
  {
  }

  lemma NextTally(before: multiset<Event>, rows: Rows, seen: set<JobId>, targets: set<JobId>, outbox: multiset<Event>,
                  cancelled: nat, parent: JobId, status: Status, at: Time)
    requires Tallied(before, rows, seen - {parent}, outbox, cancelled) && seen !! targets && parent in seen
    ensures var after := CancelRows(rows, targets, parent, status, at);
      Tallied(before, after, (seen + targets) - {parent}, outbox + multiset(EventsOf(after, targets)),
              cancelled + |targets|)
  {
    var after := CancelRows(rows, targets, parent, status, at);
    var done := seen - {parent};
    assert (seen + targets) - {parent} == done + targets;
    assert EventsOf(rows, done) == EventsOf(after, done);
    EventsAddUp(after, done, targets);
    assert |done + targets| == |done| + |targets|;
  }

  lemma EventsAddUp(rows: Rows, a: set<JobId>, b: set<JobId>)
    requires a !! b
    ensures multiset(EventsOf(rows, a + b)) == multiset(EventsOf(rows, a)) + multiset(EventsOf(rows, b))
  {
    assert EventsOf(rows, a + b) == EventsOf(rows, a) + EventsOf(rows, b);
    assert EventsOf(rows, a) !! EventsOf(rows, b);
  }

  lemma LastLevel(start: Rows, edges: Edges, hops: nat, parent: JobId, status: Status, at: Time,
                  depth: nat, frontier: set<JobId>, seen: set<JobId>, rows: Rows)
    requires AtLevel(start, edges, parent, status, at, depth, frontier, seen, rows) && depth <= hops
    requires depth == hops || BlockedChildren(rows, edges, frontier) - seen == {}
    ensures seen - {parent} == CascadeTargets(start, edges, parent, hops)
    ensures rows == CancelRows(start, CascadeTargets(start, edges, parent, hops), parent, status, at)
  {
    if depth < hops {
      NextTargets(start, edges, parent, status, at, depth, frontier, seen, rows);
      forall j | j in BlockedChildren(start, edges, seen) ensures j in seen {
        assert j in seen || j in BlockedChildren(start, edges, seen) - seen;
      }
      WithinStops(start, edges, parent, depth, hops);
    }
  }

  /** The loop of the cascade, on the transaction's own view of the tables. */
  method CascadeLevels(start: Tables, edges: Edges, hops: nat, parent: JobId, status: Status, now: Time)
    returns (t: Tables, cancelled: nat)
    ensures t == Cascaded(start, edges, hops, parent, status, now)
    ensures cancelled == |CascadeTargets(start.rows, edges, parent, hops)|
  {
    t, cancelled := start, 0;
    var frontier, seen, depth := {parent}, {parent}, 0;
    FirstLevel(start.rows, edges, parent, status, now, start.outbox);
    while depth < hops && frontier != {}
      invariant depth <= hops && AtLevel(start.rows, edges, parent, status, now, depth, frontier, seen, t.rows)
      invariant Tallied(start.outbox, t.rows, seen - {parent}, t.outbox, cancelled)
    {
      t, frontier, cancelled := AdvanceLevel(start, edges, parent, status, now, depth, frontier, seen, t, cancelled);
      seen, depth := seen + frontier, depth + 1;
    }
    LastLevel(start.rows, edges, hops, parent, status, now, depth, frontier, seen, t.rows);
  }

  method AdvanceLevel(ghost start: Tables, edges: Edges, parent: JobId, status: Status, now: Time,
                      ghost depth: nat, frontier: set<JobId>, seen: set<JobId>, t: Tables, cancelled: nat)
    returns (t': Tables, targets: set<JobId>, cancelled': nat)
    requires AtLevel(start.rows, edges, parent, status, now, depth, frontier, seen, t.rows)
    requires Tallied(start.outbox, t.rows, seen - {parent}, t.outbox, cancelled)
    ensures targets == BlockedChildren(t.rows, edges, frontier) - seen
    ensures AtLevel(start.rows, edges, parent, status, now, depth + 1, targets, seen + targets, t'.rows)
    ensures Tallied(start.outbox, t'.rows, (seen + targets) - {parent}, t'.outbox, cancelled')
  {
    NextTargets(start.rows, edges, parent, status, now, depth, frontier, seen, t.rows);
    targets := BlockedChildren(t.rows, edges, frontier) - seen;
    NextLevel(start.rows, edges, parent, status, now, depth, frontier, seen, t.rows, targets);
    NextTally(start.outbox, t.rows, seen, targets, t.outbox, cancelled, parent, status, now);
    var changed;
    t', changed := CancelLevel(t, targets, parent, status, now);
    cancelled' := cancelled + changed;
  }

  /** One level: the guarded UPDATE, then an event for each row it is found to have changed. */
  method CancelLevel(t: Tables, targets: set<JobId>, parent: JobId, status: Status, now: Time)
    returns (t': Tables, changed: nat)
    requires forall j :: j in targets ==> Blocked(t.rows, j)
    ensures t'.rows == CancelRows(t.rows, targets, parent, status, now) && changed == |targets|
    ensures t'.outbox == t.outbox + multiset(EventsOf(t'.rows, targets))
  {
    var matched := set j | j in targets && Blocked(t.rows, j);
    changed := |matched|;
    var rows := CancelRows(t.rows, targets, parent, status, now);
    var newlyCancelled := set j | j in targets && j in rows && rows[j].completedAt == Some(now);
    assert matched == targets && newlyCancelled == targets;
    var outbox := AddEvents(t.outbox, rows, newlyCancelled);
    t' := Tables(rows, outbox);
  }

  method AddEvents(outbox: multiset<Event>, rows: Rows, ids: set<JobId>) returns (grown: multiset<Event>)
    requires ids <= rows.Keys
    ensures grown == outbox + multiset(EventsOf(rows, ids))
  {
    grown := outbox;
    var left := ids;
    while left != {}
      invariant left <= ids
      invariant grown == outbox + multiset(EventsOf(rows, ids - left))
    {
      var j :| j in left;
      grown := grown + multiset{EventOf(j, rows[j])};
      assert EventsOf(rows, ids - (left - {j})) == EventsOf(rows, ids - left) + {EventOf(j, rows[j])};
      assert EventOf(j, rows[j]) !in EventsOf(rows, ids - left);
      left := left - {j};
    }
    assert ids - left == ids;
  }

  class JobRepository {
    var rows: Rows
    var outbox: multiset<Event>
    const edges: Edges

    constructor (edges: Edges)
      ensures this.edges == edges && rows == map[] && outbox == multiset{}
    {
      this.edges := edges;
      rows := map[];
      outbox := multiset{};
    }

    ghost function View(): Tables reads this { Tables(rows, outbox) }

    /** A compare-and-set when guarded; a terminal write also announces itself,
        and a stranding one cascades, in the same transaction. */
    method UpdateStatus(id: JobId, status: Status, extra: Extra, guard: Option<Job -> bool>, now: Time)
      returns (job: Option<Job>)
      modifies this
      ensures View() == StatusWritten(old(View()), edges, CASCADE_MAX_DEPTH, id, status, extra, guard, now)
      ensures job == if Lands(old(rows), id, guard) then Some(Written(old(rows)[id], status, extra, now)) else None
    {
      if id !in rows || (guard.Some? && !guard.value(rows[id])) {
        return None;
      }
      var row := rows[id].(status := status);
      if status == Running { row := row.(startedAt := Some(now)); }
      if StampsCompletion(status) { row := row.(completedAt := Some(now)); }
      if extra.startedAt.Some? { row := row.(startedAt := extra.startedAt.value); }
      if extra.completedAt.Some? { row := row.(completedAt := extra.completedAt.value); }
      if extra.errorMessage.Some? { row := row.(errorMessage := extra.errorMessage.value); }
      assert row == Written(rows[id], status, extra, now);
      rows := rows[id := row];
      if Terminal(status) {
        outbox := outbox + multiset{EventOf(id, row)};
      }
      if Strands(status) {
        var cancelled := CascadeCancelBlockedChildren(id, status, now);
      }
      job := Some(row);
    }

    method ClaimForRunning(id: JobId, now: Time) returns (won: bool)
      modifies this
      ensures won <==> id in old(rows) && old(rows)[id].status == Pending
      ensures rows == if won then old(rows)[id := old(rows)[id].(status := Running, startedAt := Some(now))]
                      else old(rows)
      ensures rows == Claimed(old(rows), id, now) && outbox == old(outbox)
    {
      won := id in rows && rows[id].status == Pending;
      if won {
        rows := rows[id := rows[id].(status := Running, startedAt := Some(now))];
      }
    }

    method PromoteWaitingToPending(id: JobId) returns (won: bool)
      modifies this
      ensures won <==> id in old(rows) && old(rows)[id].status == Waiting
      ensures rows == if won then old(rows)[id := old(rows)[id].(status := Pending, errorMessage := None)]
                      else old(rows)
      ensures rows == Promoted(old(rows), id) && outbox == old(outbox)
    {
      won := id in rows && rows[id].status == Waiting;
      if won {
        rows := rows[id := rows[id].(status := Pending, errorMessage := None)];
      }
    }

    /** Fifty levels deep; the count is the number of rows cancelled. */
    method CascadeCancelBlockedChildren(parent: JobId, status: Status, now: Time) returns (cancelled: nat)
      modifies this
      ensures View() == Cascaded(old(View()), edges, CASCADE_MAX_DEPTH, parent, status, now)
      ensures cancelled == |set j | j in old(rows) && j != parent && Reaches(old(rows), edges, parent, j, 50)|
      ensures rows.Keys == old(rows).Keys && forall j :: j in rows ==>
        rows[j] == if j != parent && Reaches(old(rows), edges, parent, j, 50)
                   then old(rows)[j].(status := Cancelled, completedAt := Some(now),
                                      errorMessage := Some(StrandedBy(parent, status)))
                   else old(rows)[j]
    {
      CascadeCancelsExactlyTheReachable(View(), edges, CASCADE_MAX_DEPTH, parent, status, now);
      TargetsAreTheReachable(rows, edges, parent, CASCADE_MAX_DEPTH);
      var t;
      t, cancelled := CascadeLevels(Tables(rows, outbox), edges, CASCADE_MAX_DEPTH, parent, status, now);
      rows, outbox := t.rows, t.outbox;
    }
  }
}
