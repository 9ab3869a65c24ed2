/** The transactional outbox: the relay's window of fetchable rows, how each
    attempt ends, and the snapshot a reader takes of delivery. */
module Outbox {
  import opened Options

  type Id = nat    // position in the table
  type Time = int

  datatype Row = Row(tenant: nat, createdAt: Time, publishedAt: Option<Time>, failedAt: Option<Time>,
                     attempts: nat, error: Option<string>)

  const ERROR_MESSAGE_MAX_CHARS: nat := 900

  predicate Awaiting(r: Row) { r.publishedAt.None? }
  predicate Delivered(r: Row) { r.publishedAt.Some? && r.failedAt.None? }
  predicate Fetchable(r: Row, maxAttempts: nat) { Awaiting(r) && r.attempts < maxAttempts }
  predicate PastLimit(r: Row, maxAttempts: nat) { Awaiting(r) && r.attempts >= maxAttempts }

  function Truncated(s: string): string { if |s| > ERROR_MESSAGE_MAX_CHARS then s[..ERROR_MESSAGE_MAX_CHARS] else s }

  /** How one fetched row's publish attempt is recorded. */
  datatype Mark = MarkPublished(now: Time) | MarkFailed(now: Time, error: string) | IncrementAttempts

  function Marked(r: Row, m: Mark): Row {
    match m
    case MarkPublished(now) => r.(publishedAt := Some(now))
    case MarkFailed(now, error) => r.(publishedAt := Some(now), failedAt := Some(now), error := Some(Truncated(error)))
    case IncrementAttempts => r.(attempts := r.attempts + 1)
  }

  function MarkAll(rows: seq<Row>, ids: seq<Id>, m: Mark): seq<Row> {
    seq(|rows|, i requires 0 <= i < |rows| => if i in ids then Marked(rows[i], m) else rows[i])
  }

  /** An answer to the relay's query: fetchable rows, each once, oldest first, as
      many as the limit allows, and none left out that is older than one taken. */
  ghost predicate IsWindow(rows: seq<Row>, maxAttempts: nat, limit: nat, ids: seq<Id>) {
    && |ids| <= limit
    && (forall k :: 0 <= k < |ids| ==>
          ids[k] < |rows| && rows[ids[k]].publishedAt.None? && rows[ids[k]].attempts < maxAttempts)
    && (forall j, k :: 0 <= j < k < |ids| ==> ids[j] != ids[k] && rows[ids[j]].createdAt <= rows[ids[k]].createdAt)
    && (forall i :: 0 <= i < |rows| && rows[i].publishedAt.None? && rows[i].attempts < maxAttempts && i !in ids ==>
          |ids| == limit && forall k :: 0 <= k < |ids| ==> rows[ids[k]].createdAt <= rows[i].createdAt)
  }

  /** The oldest fetchable row among the first `n` that is not yet taken, if there is one. */
  ghost predicate OldestLeft(rows: seq<Row>, maxAttempts: nat, taken: seq<Id>, n: nat, id: Option<Id>)
    requires n <= |rows|
  {
    match id
    case None => forall i :: 0 <= i < n && Fetchable(rows[i], maxAttempts) ==> i in taken
    case Some(o) =>
      && o < n && o !in taken && Fetchable(rows[o], maxAttempts)
      && forall i :: 0 <= i < n && Fetchable(rows[i], maxAttempts) && i !in taken ==>
          rows[o].createdAt <= rows[i].createdAt
  }

  lemma WindowGrows(rows: seq<Row>, maxAttempts: nat, ids: seq<Id>, next: Option<Id>)
    requires IsWindow(rows, maxAttempts, |ids|, ids) && OldestLeft(rows, maxAttempts, ids, |rows|, next) && next.Some?
    ensures IsWindow(rows, maxAttempts, |ids| + 1, ids + [next.value])
  {
    var more := ids + [next.value];
    forall j, k | 0 <= j < k < |more|
      ensures more[j] != more[k] && rows[more[j]].createdAt <= rows[more[k]].createdAt {}
    forall i | 0 <= i < |rows| && Fetchable(rows[i], maxAttempts) && i !in more
      ensures forall k :: 0 <= k < |more| ==> rows[more[k]].createdAt <= rows[i].createdAt
    {
      assert next.value in more && i !in ids;
    }
  }

  lemma WindowIsFull(rows: seq<Row>, maxAttempts: nat, limit: nat, ids: seq<Id>, next: Option<Id>)
    requires IsWindow(rows, maxAttempts, |ids|, ids) && OldestLeft(rows, maxAttempts, ids, |rows|, next)
    requires |ids| <= limit && (|ids| == limit || next.None?)
    ensures IsWindow(rows, maxAttempts, limit, ids)
  {
  }

  datatype Snapshot = Snapshot(unpublished: nat, oldest: Option<Time>, newest: Option<Time>, pastLimit: nat,
                               lastPublish: Option<Time>)

  function CountOf(rows: seq<Row>, p: Row -> bool): nat {
    if rows == [] then 0 else CountOf(rows[..|rows| - 1], p) + if p(rows[|rows| - 1]) then 1 else 0
  }

  function MinOf(a: Option<Time>, b: Time): Option<Time> { if a.Some? && a.value <= b then a else Some(b) }
  function MaxOf(a: Option<Time>, b: Time): Option<Time> { if a.Some? && a.value >= b then a else Some(b) }

  /** The earliest creation time among a tenant's awaiting rows, if it has any. */
  ghost predicate IsLeastAwaiting(rows: seq<Row>, tenant: nat, t: Option<Time>) {
    && (t.Some? ==> exists r :: r in rows && r.tenant == tenant && r.publishedAt.None? && r.createdAt == t.value)
    && forall r :: r in rows && r.tenant == tenant && r.publishedAt.None? ==> t.Some? && t.value <= r.createdAt
  }

  ghost predicate IsGreatestAwaiting(rows: seq<Row>, tenant: nat, t: Option<Time>) {
    && (t.Some? ==> exists r :: r in rows && r.tenant == tenant && r.publishedAt.None? && r.createdAt == t.value)
    && forall r :: r in rows && r.tenant == tenant && r.publishedAt.None? ==> t.Some? && r.createdAt <= t.value
  }

  /** The latest publish time among a tenant's delivered rows, if it has any. */
  ghost predicate IsLastDelivery(rows: seq<Row>, tenant: nat, t: Option<Time>) {
    && (t.Some? ==>
          exists r :: r in rows && r.tenant == tenant && r.publishedAt.Some? && r.failedAt.None? && r.publishedAt == t)
    && forall r :: r in rows && r.tenant == tenant && r.publishedAt.Some? && r.failedAt.None? ==>
         t.Some? && r.publishedAt.value <= t.value
  }

  /** Reading one more row keeps each of the three extremes. */
  lemma ExtremesExtend(rows: seq<Row>, r: Row, tenant: nat, oldest: Option<Time>, newest: Option<Time>,
                       last: Option<Time>)
    requires IsLeastAwaiting(rows, tenant, oldest) && IsGreatestAwaiting(rows, tenant, newest)
    requires IsLastDelivery(rows, tenant, last)
    ensures var mine := r.tenant == tenant;
      && IsLeastAwaiting(rows + [r], tenant, if mine && Awaiting(r) then MinOf(oldest, r.createdAt) else oldest)
      && IsGreatestAwaiting(rows + [r], tenant, if mine && Awaiting(r) then MaxOf(newest, r.createdAt) else newest)
      && IsLastDelivery(rows + [r], tenant, if mine && Delivered(r) then MaxOf(last, r.publishedAt.value) else last)
  {
    assert r in rows + [r] && forall x :: x in rows + [r] <==> x in rows || x == r;
  }

  class OutboxRepository {
    var rows: seq<Row>
    const maxAttempts: nat

    constructor (maxAttempts: nat)
      ensures rows == [] && this.maxAttempts == maxAttempts
    {
      rows := [];
      this.maxAttempts := maxAttempts;
    }

    method Add(tenant: nat, now: Time)
      modifies this
      ensures rows == old(rows) + [Row(tenant, now, None, None, 0, None)]
    {
      rows := rows + [Row(tenant, now, None, None, 0, None)];
    }

    method FetchUnpublished(limit: nat) returns (ids: seq<Id>)
      ensures IsWindow(rows, maxAttempts, limit, ids)
    {
      ids := [];
      var next: Option<Id> := OldestNotIn(ids);
      while |ids| < limit && next.Some?
        invariant IsWindow(rows, maxAttempts, |ids|, ids) && |ids| <= limit
        invariant OldestLeft(rows, maxAttempts, ids, |rows|, next)
      {
        WindowGrows(rows, maxAttempts, ids, next);
        ids := ids + [next.value];
        next := OldestNotIn(ids);
      }
      WindowIsFull(rows, maxAttempts, limit, ids, next);
    }

    method OldestNotIn(taken: seq<Id>) returns (id: Option<Id>)
      ensures OldestLeft(rows, maxAttempts, taken, |rows|, id)
    {
      id := None;
      for n := 0 to |rows|
        invariant OldestLeft(rows, maxAttempts, taken, n, id)
      {
        if Fetchable(rows[n], maxAttempts) && n !in taken
            && (id.None? || rows[n].createdAt < rows[id.value].createdAt) {
          id := Some(n);
        }
      }
    }

    /** mark_published, mark_failed and increment_attempts: one UPDATE over a list of ids. */
    method Mark(ids: seq<Id>, m: Mark)
      modifies this
      ensures rows == MarkAll(old(rows), ids, m)
      ensures |rows| == |old(rows)| && forall i :: 0 <= i < |rows| ==>
        rows[i] == if i !in ids then old(rows)[i]
                   else match m
                     case MarkPublished(now) => old(rows)[i].(publishedAt := Some(now))
                     case MarkFailed(now, error) =>
                       old(rows)[i].(publishedAt := Some(now), failedAt := Some(now),
                                     error := Some(if |error| > 900 then error[..900] else error))
                     case IncrementAttempts => old(rows)[i].(attempts := old(rows)[i].attempts + 1)
    {
      var i := 0;
      while i < |rows|
        invariant 0 <= i <= |rows| == |old(rows)|
        invariant rows[..i] == MarkAll(old(rows), ids, m)[..i] && rows[i..] == old(rows)[i..]
      {
        if i in ids {
          rows := rows[i := Marked(rows[i], m)];
        }
        i := i + 1;
      }
    }

    /** One tenant's delivery state as one reading of the table. */
    method DeliverySnapshot(tenant: nat) returns (s: Snapshot)
      ensures s.unpublished == CountOf(rows, (r: Row) => r.tenant == tenant && r.publishedAt.None?)
      ensures s.pastLimit
           == CountOf(rows, (r: Row) => r.tenant == tenant && r.publishedAt.None? && r.attempts >= maxAttempts)
      ensures IsLeastAwaiting(rows, tenant, s.oldest) && IsGreatestAwaiting(rows, tenant, s.newest)
      ensures IsLastDelivery(rows, tenant, s.lastPublish)
    {
      var unpublished, past := 0, 0;
      var oldest, newest, last: Option<Time> := None, None, None;
      var n := 0;
      while n < |rows|
        invariant n <= |rows|
        invariant unpublished == CountOf(rows[..n], (r: Row) => r.tenant == tenant && r.publishedAt.None?)
        invariant past
               == CountOf(rows[..n], (r: Row) => r.tenant == tenant && r.publishedAt.None? && r.attempts >= maxAttempts)
        invariant IsLeastAwaiting(rows[..n], tenant, oldest) && IsGreatestAwaiting(rows[..n], tenant, newest)
        invariant IsLastDelivery(rows[..n], tenant, last)
      {
        var r := rows[n];
        assert rows[..n + 1][..n] == rows[..n] && rows[..n + 1] == rows[..n] + [r];
        ExtremesExtend(rows[..n], r, tenant, oldest, newest, last);
        if r.tenant == tenant {
          if Awaiting(r) {
            unpublished, oldest, newest := unpublished + 1, MinOf(oldest, r.createdAt), MaxOf(newest, r.createdAt);
            if PastLimit(r, maxAttempts) { past := past + 1; }
          }
          if Delivered(r) { last := MaxOf(last, r.publishedAt.value); }
        }
        n := n + 1;
      }
      assert rows[..|rows|] == rows;
      s := Snapshot(unpublished, oldest, newest, past, last);
    }
  }

  /** A count is the number of positions that satisfy it. */
  lemma {:induction false} CountIsCardinality(rows: seq<Row>, p: Row -> bool)
    ensures CountOf(rows, p) == |set i | 0 <= i < |rows| && p(rows[i])|
  {
    if rows != [] {
      var n := |rows| - 1;
      var before := rows[..n];
      CountIsCardinality(before, p);
      var older := set i | 0 <= i < |before| && p(before[i]);
      forall i ensures 0 <= i < |rows| && p(rows[i]) <==> i in older || (i == n && p(rows[n])) {}
      assert (set i | 0 <= i < |rows| && p(rows[i])) == older + if p(rows[n]) then {n} else {};
    }
  }

  /** The awaiting rows split exactly into those the relay can still fetch and those past the limit. */
  lemma {:induction false} AwaitingSplits(rows: seq<Row>, tenant: nat, maxAttempts: nat)
    ensures CountOf(rows, (r: Row) => r.tenant == tenant && r.publishedAt.None?)
         == CountOf(rows, (r: Row) => r.tenant == tenant && r.publishedAt.None? && r.attempts < maxAttempts)
          + CountOf(rows, (r: Row) => r.tenant == tenant && r.publishedAt.None? && r.attempts >= maxAttempts)
  {
    if rows != [] { AwaitingSplits(rows[..|rows| - 1], tenant, maxAttempts); }
  }

  /** However a row is marked afterwards, once marked failed it never counts as delivered. */
  lemma {:induction false} FailedIsNeverDelivered(r: Row, marks: seq<Mark>, k: nat)
    requires k < |marks| && marks[k].MarkFailed?
    ensures MarkedBy(r, marks).failedAt.Some? && MarkedBy(r, marks).publishedAt.Some?
    ensures !Delivered(MarkedBy(r, marks))
  {
    if k < |marks| - 1 { FailedIsNeverDelivered(r, marks[..|marks| - 1], k); }
  }

  ghost function MarkedBy(r: Row, marks: seq<Mark>): Row {
    if marks == [] then r else Marked(MarkedBy(r, marks[..|marks| - 1]), marks[|marks| - 1])
  }

  // ----- relay ticks -----

  /** Attempts an awaiting row still has, summed over the table. */
  ghost function Budget(r: Row, maxAttempts: nat): nat {
    if Fetchable(r, maxAttempts) then maxAttempts - r.attempts else 0
  }

  ghost function Remaining(rows: seq<Row>, maxAttempts: nat): nat {
    if rows == [] then 0 else Remaining(rows[..|rows| - 1], maxAttempts) + Budget(rows[|rows| - 1], maxAttempts)
  }

  datatype Update = Update(ids: seq<Id>, mark: Mark)

  /** One pass of the relay: the rows it fetched, and the updates that recorded how the attempts ended. */
  datatype Tick = Tick(ids: seq<Id>, updates: seq<Update>)

  ghost function Ticked(rows: seq<Row>, updates: seq<Update>): (r: seq<Row>)
    ensures |r| == |rows|
  {
    if updates == [] then rows
    else var u := updates[|updates| - 1]; MarkAll(Ticked(rows, updates[..|updates| - 1]), u.ids, u.mark)
  }

  /** Every fetched row is named by some update. */
  ghost predicate IsTick(rows: seq<Row>, maxAttempts: nat, limit: nat, t: Tick) {
    IsWindow(rows, maxAttempts, limit, t.ids) && forall k :: 0 <= k < |t.ids| ==> Named(t.updates, t.ids[k])
  }

  ghost predicate Named(updates: seq<Update>, i: Id) {
    exists k :: 0 <= k < |updates| && i in updates[k].ids
  }

  /** A row that moved on: still counted down, and further if an update named it. */
  ghost predicate Spent(r: Row, r': Row, maxAttempts: nat, named: bool) {
    && r.attempts <= r'.attempts && (Awaiting(r') ==> Awaiting(r)) && Budget(r', maxAttempts) <= Budget(r, maxAttempts)
    && (named && Fetchable(r, maxAttempts) ==>
          Budget(r', maxAttempts) < Budget(r, maxAttempts) && (Awaiting(r') ==> r.attempts < r'.attempts))
  }

  lemma {:induction false} UpdatesSpend(rows: seq<Row>, updates: seq<Update>, maxAttempts: nat, i: Id)
    requires i < |rows|
    ensures Spent(rows[i], Ticked(rows, updates)[i], maxAttempts, Named(updates, i))
  {
    if updates != [] {
      var before, u := updates[..|updates| - 1], updates[|updates| - 1];
      UpdatesSpend(rows, before, maxAttempts, i);
      assert Named(updates, i) ==> i in u.ids || Named(before, i);
    }
  }

  lemma {:induction false} RemainingFalls(rows: seq<Row>, rows': seq<Row>, maxAttempts: nat, i: nat)
    requires |rows| == |rows'|
    requires forall j :: 0 <= j < |rows| ==> Budget(rows'[j], maxAttempts) <= Budget(rows[j], maxAttempts)
    ensures Remaining(rows', maxAttempts) <= Remaining(rows, maxAttempts)
    ensures i < |rows| && Budget(rows'[i], maxAttempts) < Budget(rows[i], maxAttempts) ==>
      Remaining(rows', maxAttempts) < Remaining(rows, maxAttempts)
  {
    if rows != [] { RemainingFalls(rows[..|rows| - 1], rows'[..|rows| - 1], maxAttempts, i); }
  }

  /** A tick never adds to the remaining attempts, and a non-empty one takes some away. */
  lemma TickSpendsAttempts(rows: seq<Row>, maxAttempts: nat, limit: nat, t: Tick)
    requires IsTick(rows, maxAttempts, limit, t)
    ensures Remaining(Ticked(rows, t.updates), maxAttempts) <= Remaining(rows, maxAttempts)
    ensures t.ids != [] ==> Remaining(Ticked(rows, t.updates), maxAttempts) < Remaining(rows, maxAttempts)
  {
    var rows' := Ticked(rows, t.updates);
    forall j | 0 <= j < |rows| ensures Spent(rows[j], rows'[j], maxAttempts, Named(t.updates, j)) {
      UpdatesSpend(rows, t.updates, maxAttempts, j);
    }
    RemainingFalls(rows, rows', maxAttempts, if t.ids != [] then t.ids[0] else |rows|);
  }

  lemma {:induction false} SomeBudget(rows: seq<Row>, maxAttempts: nat)
    ensures Remaining(rows, maxAttempts) == 0 <==> forall i :: 0 <= i < |rows| ==> !Fetchable(rows[i], maxAttempts)
  {
    if rows != [] {
      var before := rows[..|rows| - 1];
      SomeBudget(before, maxAttempts);
      assert forall i :: 0 <= i < |before| ==> before[i] == rows[i];
    }
  }

  /** The window is empty exactly when no attempts remain anywhere in the table. */
  lemma WindowEmptyIff(rows: seq<Row>, maxAttempts: nat, limit: nat, ids: seq<Id>)
    requires IsWindow(rows, maxAttempts, limit, ids) && limit > 0
    ensures ids == [] <==> Remaining(rows, maxAttempts) == 0
  {
    SomeBudget(rows, maxAttempts);
    if ids != [] { assert Fetchable(rows[ids[0]], maxAttempts); }
  }

  // ----- runs of ticks and inserts -----

  datatype Event = Adds(row: Row) | Ticks(tick: Tick)

  ghost function After(rows: seq<Row>, events: seq<Event>): seq<Row> {
    if events == [] then rows
    else var before := After(rows, events[..|events| - 1]);
      match events[|events| - 1]
      case Adds(row) => before + [row]
      case Ticks(t) => Ticked(before, t.updates)
  }

  /** Every tick fetched a window of the table it met; every insert is a fresh row. */
  ghost predicate RelayRun(rows: seq<Row>, maxAttempts: nat, limit: nat, events: seq<Event>) {
    if events == [] then true
    else
      var before := events[..|events| - 1];
      && RelayRun(rows, maxAttempts, limit, before)
      && match events[|events| - 1]
         case Adds(row) => row.attempts == 0 && Awaiting(row)
         case Ticks(t) => IsTick(After(rows, before), maxAttempts, limit, t)
  }

  ghost function Busy(events: seq<Event>): nat {
    if events == [] then 0
    else Busy(events[..|events| - 1])
         + if events[|events| - 1].Ticks? && events[|events| - 1].tick.ids != [] then 1 else 0
  }

  ghost function Added(events: seq<Event>): nat {
    if events == [] then 0 else Added(events[..|events| - 1]) + if events[|events| - 1].Adds? then 1 else 0
  }

  /** The attempts that the inserted rows bring with them. */
  ghost function Allowance(events: seq<Event>, maxAttempts: nat): nat {
    if events == [] then 0
    else Allowance(events[..|events| - 1], maxAttempts) + if events[|events| - 1].Adds? then maxAttempts else 0
  }

  lemma {:induction false} AllowancePerRow(events: seq<Event>, maxAttempts: nat)
    ensures Allowance(events, maxAttempts) == Added(events) * maxAttempts
  {
    if events != [] {
      AllowancePerRow(events[..|events| - 1], maxAttempts);
      Times(Added(events[..|events| - 1]), maxAttempts);
    }
  }

  lemma Times(n: nat, maxAttempts: nat)
    ensures (n + 1) * maxAttempts == n * maxAttempts + maxAttempts
  {
  }

  lemma {:induction false} Drains(rows: seq<Row>, maxAttempts: nat, limit: nat, events: seq<Event>)
    requires RelayRun(rows, maxAttempts, limit, events)
    ensures Busy(events) + Remaining(After(rows, events), maxAttempts)
         <= Remaining(rows, maxAttempts) + Allowance(events, maxAttempts)
  {
    if events != [] {
      var before := events[..|events| - 1];
      Drains(rows, maxAttempts, limit, before);
      EventDrains(After(rows, before), maxAttempts, limit, events[|before|]);
    }
  }

  /** The window drains: over any run of inserts and ticks, the non-empty ticks
      and the attempts still left never exceed the attempts there were to spend. */
  lemma WindowDrains(rows: seq<Row>, maxAttempts: nat, limit: nat, events: seq<Event>)
    requires RelayRun(rows, maxAttempts, limit, events)
    ensures Busy(events) + Remaining(After(rows, events), maxAttempts)
         <= Remaining(rows, maxAttempts) + Added(events) * maxAttempts
  {
    Drains(rows, maxAttempts, limit, events);
    AllowancePerRow(events, maxAttempts);
  }

  lemma EventDrains(rows: seq<Row>, maxAttempts: nat, limit: nat, e: Event)
    requires e.Ticks? ==> IsTick(rows, maxAttempts, limit, e.tick)
    ensures e.Adds? ==> Remaining(rows + [e.row], maxAttempts) <= Remaining(rows, maxAttempts) + maxAttempts
    ensures e.Ticks? ==>
      Remaining(Ticked(rows, e.tick.updates), maxAttempts) + (if e.tick.ids != [] then 1 else 0)
      <= Remaining(rows, maxAttempts)
  {
    match e
    case Adds(row) => assert (rows + [row])[..|rows|] == rows;
    case Ticks(t) => TickSpendsAttempts(rows, maxAttempts, limit, t);
  }

  /** How many ticks fetched the row. */
  ghost function Fetches(events: seq<Event>, i: Id): nat {
    if events == [] then 0
    else Fetches(events[..|events| - 1], i)
         + if events[|events| - 1].Ticks? && i in events[|events| - 1].tick.ids then 1 else 0
  }

  /** No row is ever fetched more often than the attempt cap. */
  lemma {:induction false} NoRowIsFetchedPastTheCap(rows: seq<Row>, maxAttempts: nat, limit: nat, events: seq<Event>,
                                                    i: Id)
    requires RelayRun(rows, maxAttempts, limit, events)
    ensures Fetches(events, i) <= maxAttempts
    ensures i < |After(rows, events)| ==>
      var r := After(rows, events)[i];
      Fetches(events, i) <= r.attempts + (if Awaiting(r) then 0 else 1)
    ensures i >= |After(rows, events)| ==> Fetches(events, i) == 0
    ensures |rows| <= |After(rows, events)|
  {
    if events != [] {
      NoRowIsFetchedPastTheCap(rows, maxAttempts, limit, events[..|events| - 1], i);
      var before := After(rows, events[..|events| - 1]);
      if events[|events| - 1].Ticks? && i < |before| {
        UpdatesSpend(before, events[|events| - 1].tick.updates, maxAttempts, i);
      }
    }
  }
}
