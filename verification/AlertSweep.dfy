/** Closing every open rule episode, in whatever order the query lists them, each
    through the series its own key splits into. */
module AlertSweep {
  import opened Options
  import opened Sequences
  import opened DedupKeys
  import opened AlertEpisodes
  import opened AlertRules

  /** What the query returns for one open alert. */
  datatype Listed = Listed(tenant: nat, key: string)

  /** The open rows, oldest first. */
  function OpenRows(rows: seq<Alert>): seq<nat> {
    if rows == [] then []
    else OpenRows(rows[..|rows| - 1]) + if rows[|rows| - 1].resolved then [] else [|rows| - 1]
  }

  function ListingOf(rows: seq<Alert>, ids: seq<nat>): (listing: seq<Listed>)
    requires InRange(ids, |rows|)
    ensures |listing| == |ids|
  {
    seq(|ids|, k requires 0 <= k < |ids| => Listed(rows[ids[k]].series.tenant, KeyOf(rows[ids[k]])))
  }

  predicate InRange(ids: seq<nat>, n: nat) { forall k :: 0 <= k < |ids| ==> ids[k] < n }

  /** The tables and the alerts closed, after visiting a listing; a key of fewer than four parts is skipped. */
  function Swept(t: Tables, closed: seq<nat>, listing: seq<Listed>): (Tables, seq<nat>)
    decreases |listing|
  {
    if listing == [] then (t, closed)
    else
      var parsed := SeriesOf(listing[0].key);
      if parsed.None? then Swept(t, closed, listing[1..])
      else
        var s := Series(listing[0].tenant, parsed.value.0, parsed.value.1);
        var id := OpenAlert(t.rows, s);
        Swept(ResolveIn(t, s), if id.Some? then closed + [id.value] else closed, listing[1..])
  }

  method ResolveOpenEpisodes(store: AlertStore, listing: seq<Listed>) returns (closed: seq<nat>)
    modifies store
    ensures (store.View(), closed) == Swept(old(store.View()), [], listing)
  {
    closed := [];
    var i := 0;
    while i < |listing|
      invariant i <= |listing| && Swept(store.View(), closed, listing[i..]) == Swept(old(store.View()), [], listing)
    {
      var parsed := SeriesOf(listing[i].key);
      assert listing[i..][1..] == listing[i + 1..];
      if parsed.Some? {
        var id := store.ResolveEpisode(Series(listing[i].tenant, parsed.value.0, parsed.value.1));
        if id.Some? { closed := closed + [id.value]; }
      }
      i := i + 1;
    }
  }

  // ----- what a listing counts -----

  lemma {:induction false} OpenRowsInRange(rows: seq<Alert>)
    ensures InRange(OpenRows(rows), |rows|)
  {
    if rows != [] { OpenRowsInRange(rows[..|rows| - 1]); }
  }

  lemma {:induction false} OpenRowsAreOpen(rows: seq<Alert>)
    ensures forall i :: i in OpenRows(rows) <==> 0 <= i < |rows| && !rows[i].resolved
  {
    if rows != [] { OpenRowsAreOpen(rows[..|rows| - 1]); }
  }

  /** x lies beneath s: same tenant and rule, a subject that extends s's by a colon. */
  predicate Under(x: Series, s: Series) {
    x.tenant == s.tenant && x.fingerprint == s.fingerprint && s.subject + ":" <= x.subject
  }

  /** Which alerts to count: those of one series, those beneath it, or all. */
  datatype Pick = Just(s: Series) | Beneath(s: Series) | Any

  predicate Picks(p: Pick, x: Series) {
    match p case Just(s) => x == s case Beneath(s) => Under(x, s) case Any => true
  }

  ghost function OpenBy(rows: seq<Alert>, p: Pick): nat {
    if rows == [] then 0
    else OpenBy(rows[..|rows| - 1], p)
         + if Picks(p, rows[|rows| - 1].series) && !rows[|rows| - 1].resolved then 1 else 0
  }

  lemma {:induction false} ClosingLowers(rows: seq<Alert>, id: nat, p: Pick)
    ensures OpenBy(Resolve(rows, id), p)
         == OpenBy(rows, p) - if id < |rows| && Picks(p, rows[id].series) && !rows[id].resolved then 1 else 0
  {
    if rows != [] {
      ClosingLowers(rows[..|rows| - 1], id, p);
      assert Resolve(rows, id)[..|rows| - 1] == Resolve(rows[..|rows| - 1], id);
    }
  }

  lemma {:induction false} SomeOpen(rows: seq<Alert>, p: Pick)
    ensures OpenBy(rows, p) > 0 <==> exists i :: 0 <= i < |rows| && Picks(p, rows[i].series) && !rows[i].resolved
  {
    if rows != [] {
      var before := rows[..|rows| - 1];
      SomeOpen(before, p);
      assert forall i :: 0 <= i < |before| ==> before[i] == rows[i];
    }
  }

  ghost function One(rows: seq<Alert>, id: nat, p: Pick): nat {
    if id < |rows| && Picks(p, rows[id].series) then 1 else 0
  }

  ghost function CountFor(rows: seq<Alert>, ids: seq<nat>, p: Pick): nat {
    if ids == [] then 0 else One(rows, ids[0], p) + CountFor(rows, ids[1..], p)
  }

  lemma {:induction false} CountForAppend(rows: seq<Alert>, a: seq<nat>, b: seq<nat>, p: Pick)
    ensures CountFor(rows, a + b, p) == CountFor(rows, a, p) + CountFor(rows, b, p)
  {
    if a == [] {
      assert a + b == b;
    } else {
      CountForAppend(rows, a[1..], b, p);
      assert (a + b)[1..] == a[1..] + b;
    }
  }

  lemma {:induction false} CountForOlder(rows: seq<Alert>, ids: seq<nat>, p: Pick)
    requires rows != [] && InRange(ids, |rows| - 1)
    ensures CountFor(rows, ids, p) == CountFor(rows[..|rows| - 1], ids, p)
  {
    if ids != [] { CountForOlder(rows, ids[1..], p); }
  }

  lemma {:induction false} OpenRowsCount(rows: seq<Alert>, p: Pick)
    ensures CountFor(rows, OpenRows(rows), p) == OpenBy(rows, p)
  {
    if rows != [] {
      var before, n := rows[..|rows| - 1], |rows| - 1;
      OpenRowsCount(before, p);
      OpenRowsInRange(before);
      CountForOlder(rows, OpenRows(before), p);
      if !rows[n].resolved {
        assert OpenRows(rows) == OpenRows(before) + [n];
        CountForAppend(rows, OpenRows(before), [n], p);
        assert [n][1..] == [] && CountFor(rows, [n], p) == One(rows, n, p);
      } else {
        assert OpenRows(rows) == OpenRows(before);
      }
    }
  }

  lemma {:induction false} CountForIgnoresOrder(rows: seq<Alert>, a: seq<nat>, b: seq<nat>, p: Pick)
    requires multiset(a) == multiset(b)
    ensures CountFor(rows, a, p) == CountFor(rows, b, p)
  {
    if a == [] {
      assert |multiset(b)| == 0;
    } else {
      assert a == [a[0]] + a[1..];
      var i := Located(a[0], a[1..], b);
      CountForIgnoresOrder(rows, a[1..], b[..i] + b[i + 1..], p);
      CountForAppend(rows, b[..i], b[i + 1..], p);
      CountForAppend(rows, b[..i], [a[0]] + b[i + 1..], p);
      assert ([a[0]] + b[i + 1..])[1..] == b[i + 1..];
    }
  }

  lemma SameMembers(a: seq<nat>, b: seq<nat>, n: nat)
    requires multiset(a) == multiset(b) && InRange(b, n)
    ensures InRange(a, n) && |a| == |b|
  {
    assert |multiset(a)| == |a| && |multiset(b)| == |b|;
    forall k | 0 <= k < |a| ensures a[k] < n {
      assert a[k] in multiset(a) && a[k] in b;
    }
  }

  // ----- the sweep as a whole -----

  /** No open alert's prefix reaches a newer open alert of another series. */
  ghost predicate NoneMixed(rows: seq<Alert>) {
    forall i, j :: 0 <= i < j < |rows| && !rows[i].resolved && !rows[j].resolved && Matches(rows[j], rows[i].series) ==>
      rows[i].series == rows[j].series
  }

  ghost predicate PlainRules(rows: seq<Alert>) {
    forall i :: 0 <= i < |rows| ==> NoColon(rows[i].series.fingerprint)
  }

  /** The rows now differ from the start exactly in the alerts closed, each closed once. */
  ghost predicate Closing(start: seq<Alert>, rows: seq<Alert>, closed: seq<nat>) {
    && |rows| == |start|
    && (forall i :: 0 <= i < |rows| ==> rows[i] == start[i].(resolved := start[i].resolved || i in closed))
    && (forall k :: 0 <= k < |closed| ==> closed[k] < |start| && !start[closed[k]].resolved)
    && (forall j, k :: 0 <= j < k < |closed| ==> closed[j] != closed[k])
  }

  /** Every series still has as many open alerts as the entries left to visit say. */
  ghost predicate Outstanding(start: seq<Alert>, rows: seq<Alert>, left: seq<nat>) {
    forall p :: OpenBy(rows, p) == CountFor(start, left, p)
  }

  lemma {:induction false} OpenAlertIsNewest(rows: seq<Alert>, s: Series, i: nat)
    requires i < |rows| && Matches(rows[i], s) && !rows[i].resolved
    ensures OpenAlert(rows, s).Some? && i <= OpenAlert(rows, s).value
  {
    if i < |rows| - 1 { OpenAlertIsNewest(rows[..|rows| - 1], s, i); }
  }

  lemma OwnPrefixMatches(a: Alert)
    ensures Matches(a, a.series)
  {
  }

  /** A visit to a series that still has an open alert closes one of its own. */
  lemma VisitFindsOwn(start: seq<Alert>, rows: seq<Alert>, closed: seq<nat>, left: seq<nat>, s: Series)
    requires NoneMixed(start) && Closing(start, rows, closed) && Outstanding(start, rows, left)
    requires left != [] && left[0] < |start| && start[left[0]].series == s
    ensures var id := OpenAlert(rows, s); id.Some? && rows[id.value].series == s
  {
    assert OpenBy(rows, Just(s)) == CountFor(start, left, Just(s)) >= 1;
    SomeOpen(rows, Just(s));
    var i :| 0 <= i < |rows| && Picks(Just(s), rows[i].series) && !rows[i].resolved;
    OwnPrefixMatches(rows[i]);
    OpenAlertIsNewest(rows, s, i);
    var id := OpenAlert(rows, s).value;
    OpenInStart(start, rows, closed, i, id);
  }

  lemma OpenInStart(start: seq<Alert>, rows: seq<Alert>, closed: seq<nat>, i: nat, id: nat)
    requires NoneMixed(start) && Closing(start, rows, closed) && i <= id < |rows|
    requires !rows[i].resolved && !rows[id].resolved && Matches(rows[id], rows[i].series)
    ensures rows[id].series == rows[i].series
  {
    assert rows[i] == start[i] && rows[id] == start[id];
  }

  lemma VisitClosesIt(start: seq<Alert>, rows: seq<Alert>, closed: seq<nat>, left: seq<nat>, id: nat)
    requires Closing(start, rows, closed) && Outstanding(start, rows, left)
    requires left != [] && left[0] < |start| && id < |rows|
    requires !rows[id].resolved && rows[id].series == start[left[0]].series
    ensures Closing(start, Resolve(rows, id), closed + [id]) && Outstanding(start, Resolve(rows, id), left[1..])
  {
    forall p ensures OpenBy(Resolve(rows, id), p) == CountFor(start, left[1..], p) {
      assert OpenBy(rows, p) == CountFor(start, left, p);
      ClosingLowers(rows, id, p);
    }
    assert id !in closed;
  }

  /** The audit rows written for the alerts closed, in order. */
  ghost function ResolvedRows(rows: seq<Alert>, ids: seq<nat>): seq<AuditRow> {
    if ids == [] then []
    else ResolvedRows(rows, ids[..|ids| - 1])
         + if ids[|ids| - 1] < |rows| then [AuditRow(Resolved, ids[|ids| - 1], rows[ids[|ids| - 1]].series)] else []
  }

  lemma OneMoreResolved(rows: seq<Alert>, closed: seq<nat>, id: nat)
    requires id < |rows|
    ensures ResolvedRows(rows, closed + [id]) == ResolvedRows(rows, closed) + [AuditRow(Resolved, id, rows[id].series)]
  {
    assert (closed + [id])[..|closed|] == closed;
  }

  /** The sweep part-way: alerts closed so far, their audit rows, and the entries left to visit. */
  ghost predicate Sweeping(start: Tables, now: Tables, closed: seq<nat>, left: seq<nat>, n: nat) {
    && |closed| + |left| == n && InRange(left, |start.rows|)
    && Closing(start.rows, now.rows, closed) && Outstanding(start.rows, now.rows, left)
    && now.audit == start.audit + ResolvedRows(start.rows, closed)
  }

  lemma SweepGoesOn(start: Tables, now: Tables, closed: seq<nat>, left: seq<nat>, n: nat, s: Series)
    requires NoneMixed(start.rows) && Sweeping(start, now, closed, left, n)
    requires left != [] && start.rows[left[0]].series == s
    ensures var id := OpenAlert(now.rows, s);
      id.Some? && Sweeping(start, ResolveIn(now, s), closed + [id.value], left[1..], n)
  {
    VisitFindsOwn(start.rows, now.rows, closed, left, s);
    var id := OpenAlert(now.rows, s).value;
    VisitClosesIt(start.rows, now.rows, closed, left, id);
    OneMoreResolved(start.rows, closed, id);
  }

  lemma {:induction false} SweepFrom(start: Tables, now: Tables, closed: seq<nat>, left: seq<nat>, n: nat)
    requires NoneMixed(start.rows) && PlainRules(start.rows) && Sweeping(start, now, closed, left, n)
    ensures var (t, c) := Swept(now, closed, ListingOf(start.rows, left)); Sweeping(start, t, c, [], n)
    decreases |left|
  {
    if left != [] {
      var a := start.rows[left[0]];
      SeriesRoundTrip(a.series.fingerprint, a.series.subject, a.ordinal);
      SweepGoesOn(start, now, closed, left, n, a.series);
      var id := OpenAlert(now.rows, a.series).value;
      SweepFrom(start, ResolveIn(now, a.series), closed + [id], left[1..], n);
      assert ListingOf(start.rows, left)[1..] == ListingOf(start.rows, left[1..]);
    }
  }

  lemma NothingOutstanding(start: seq<Alert>, rows: seq<Alert>)
    requires Outstanding(start, rows, [])
    ensures forall i :: 0 <= i < |rows| ==> rows[i].resolved
  {
    forall i | 0 <= i < |rows| ensures rows[i].resolved {
      SomeOpen(rows, Just(rows[i].series));
      assert OpenBy(rows, Just(rows[i].series)) == CountFor(start, [], Just(rows[i].series));
    }
  }

  /** In whatever order the open alerts are listed, and with nothing raised in between,
      none stays open, each is closed exactly once, and exactly one resolved row is
      written for each, provided no open alert's prefix reaches a newer one of another series. */
  lemma SweepClosesEverything(t: Tables, ids: seq<nat>)
    requires NoneMixed(t.rows) && PlainRules(t.rows) && multiset(ids) == multiset(OpenRows(t.rows))
    ensures InRange(ids, |t.rows|)
    ensures var (t', closed) := Swept(t, [], ListingOf(t.rows, ids));
      && Closing(t.rows, t'.rows, closed) && |closed| == |ids|
      && (forall i :: 0 <= i < |t'.rows| ==> t'.rows[i].resolved)
      && t'.audit == t.audit + ResolvedRows(t.rows, closed)
  {
    OpenRowsInRange(t.rows);
    SameMembers(ids, OpenRows(t.rows), |t.rows|);
    forall p ensures OpenBy(t.rows, p) == CountFor(t.rows, ids, p) {
      OpenRowsCount(t.rows, p);
      CountForIgnoresOrder(t.rows, ids, OpenRows(t.rows), p);
    }
    assert Sweeping(t, t, [], ids, |ids|);
    SweepFrom(t, t, [], ids, |ids|);
    NothingOutstanding(t.rows, Swept(t, [], ListingOf(t.rows, ids)).0.rows);
  }

  lemma SweptOnce(t: Tables, closed: seq<nat>, listing: seq<Listed>, s: Series)
    requires listing != [] && listing[0].tenant == s.tenant
    requires SeriesOf(listing[0].key) == Some((s.fingerprint, s.subject))
    ensures var id := OpenAlert(t.rows, s);
      Swept(t, closed, listing)
      == Swept(ResolveIn(t, s), if id.Some? then closed + [id.value] else closed, listing[1..])
  {
  }
}

/** When the sweep closes everything in every order: exactly when no open alert's
    prefix reaches a newer open alert of another series. */
module AlertSweepOrder {
  import opened DedupKeys
  import opened AlertEpisodes
  import opened AlertRules
  import opened AlertSweep

  lemma MatchIff(a: Alert, s: Series)
    requires NoColon(a.series.fingerprint) && NoColon(s.fingerprint)
    ensures Matches(a, s) <==> a.series == s || Under(a.series, s)
  {
    PrefixMatchIff(s.fingerprint, s.subject, a.series.fingerprint, a.series.subject, a.ordinal);
  }

  lemma UnderTransitive(x: Series, y: Series, s: Series)
    requires Under(y, s) && (x == y || Under(x, y))
    ensures Under(x, s) && x != s
  {
    assert |s.subject| < |y.subject| <= |x.subject|;
    assert y.subject <= x.subject;
  }

  /** The rows after one visit to a series, and after a list of them. */
  ghost function Visit(rows: seq<Alert>, s: Series): seq<Alert> {
    var id := OpenAlert(rows, s); if id.Some? then Resolve(rows, id.value) else rows
  }

  ghost function Visits(rows: seq<Alert>, start: seq<Alert>, ids: seq<nat>): seq<Alert>
    requires InRange(ids, |start|)
    decreases |ids|
  {
    if ids == [] then rows else Visits(Visit(rows, start[ids[0]].series), start, ids[1..])
  }

  lemma {:induction false} SweptVisits(t: Tables, closed: seq<nat>, start: seq<Alert>, ids: seq<nat>)
    requires PlainRules(start) && InRange(ids, |start|)
    ensures Swept(t, closed, ListingOf(start, ids)).0.rows == Visits(t.rows, start, ids)
    decreases |ids|
  {
    if ids != [] {
      var a, listing := start[ids[0]], ListingOf(start, ids);
      SeriesRoundTrip(a.series.fingerprint, a.series.subject, a.ordinal);
      SweptOnce(t, closed, listing, a.series);
      var id := OpenAlert(t.rows, a.series);
      assert listing[1..] == ListingOf(start, ids[1..]);
      SweptVisits(ResolveIn(t, a.series), if id.Some? then closed + [id.value] else closed, start, ids[1..]);
    }
  }

  ghost predicate SameSeries(start: seq<Alert>, rows: seq<Alert>) {
    |rows| == |start| && forall i :: 0 <= i < |rows| ==> rows[i].series == start[i].series
  }

  /** What one visit to s can do to the open alerts counted by p. */
  lemma VisitLowers(rows: seq<Alert>, s: Series, p: Pick)
    ensures SameSeries(rows, Visit(rows, s)) && OpenBy(Visit(rows, s), p) <= OpenBy(rows, p)
    ensures var id := OpenAlert(rows, s);
      OpenBy(Visit(rows, s), p) == OpenBy(rows, p) - if id.Some? && Picks(p, rows[id.value].series) then 1 else 0
  {
    var id := OpenAlert(rows, s);
    if id.Some? { ClosingLowers(rows, id.value, p); }
  }

  lemma {:induction false} VisitsLower(rows: seq<Alert>, start: seq<Alert>, ids: seq<nat>, p: Pick)
    requires InRange(ids, |start|)
    ensures SameSeries(rows, Visits(rows, start, ids))
    ensures OpenBy(rows, p) - |ids| <= OpenBy(Visits(rows, start, ids), p) <= OpenBy(rows, p)
    decreases |ids|
  {
    if ids != [] {
      VisitLowers(rows, start[ids[0]].series, p);
      VisitsLower(Visit(rows, start[ids[0]].series), start, ids[1..], p);
    }
  }

  lemma {:induction false} VisitsAppend(rows: seq<Alert>, start: seq<Alert>, a: seq<nat>, b: seq<nat>)
    requires InRange(a, |start|) && InRange(b, |start|)
    ensures InRange(a + b, |start|) && Visits(rows, start, a + b) == Visits(Visits(rows, start, a), start, b)
    decreases |a|
  {
    if a == [] {
      assert a + b == b;
    } else {
      VisitsAppend(Visit(rows, start[a[0]].series), start, a[1..], b);
      assert (a + b)[1..] == a[1..] + b;
    }
  }

  /** If more visits are due beneath s than alerts are open there, some visit finds
      nothing to close, and so some alert stays open. */
  lemma {:induction false} Shortage(rows: seq<Alert>, start: seq<Alert>, ids: seq<nat>, s: Series)
    requires PlainRules(start) && SameSeries(start, rows) && InRange(ids, |start|)
    requires CountFor(start, ids, Beneath(s)) > OpenBy(rows, Beneath(s)) && OpenBy(rows, Any) >= |ids|
    ensures OpenBy(Visits(rows, start, ids), Any) > 0
    decreases |ids|
  {
    var x := start[ids[0]].series;
    var id := OpenAlert(rows, x);
    VisitLowers(rows, x, Any);
    VisitLowers(rows, x, Beneath(s));
    if id.None? {
      VisitsLower(rows, start, ids[1..], Any);
    } else {
      if Under(x, s) {
        MatchIff(rows[id.value], x);
        UnderTransitive(rows[id.value].series, x, s);
      }
      Shortage(Visit(rows, x), start, ids[1..], s);
    }
  }

  /** Visiting s as often as it has open alerts closes one beneath it, if one
      beneath it is open and newer than one of its own. */
  lemma {:induction false} OwnVisitsReachBeneath(rows: seq<Alert>, start: seq<Alert>, own: seq<nat>, s: Series,
                                                 i: nat, j: nat)
    requires PlainRules(start) && SameSeries(start, rows) && InRange(own, |start|)
    requires forall k :: 0 <= k < |own| ==> start[own[k]].series == s
    requires |own| == OpenBy(rows, Just(s)) && i < j < |rows| && !rows[i].resolved && !rows[j].resolved
    requires rows[i].series == s && rows[j].series != s && Matches(rows[j], s)
    ensures OpenBy(Visits(rows, start, own), Beneath(s)) < OpenBy(rows, Beneath(s))
    decreases |own|
  {
    SomeOpen(rows, Just(s));
    assert Picks(Just(s), rows[i].series);
    OpenAlertIsNewest(rows, s, j);
    var id := OpenAlert(rows, s).value;
    VisitLowers(rows, s, Just(s));
    VisitLowers(rows, s, Beneath(s));
    if rows[id].series == s {
      OwnVisitsReachBeneath(Visit(rows, s), start, own[1..], s, i, j);
    } else {
      MatchIff(rows[id], s);
      VisitsLower(Visit(rows, s), start, own[1..], Beneath(s));
    }
  }

  /** The listed alerts of the series, or the others. */
  ghost function Part(rows: seq<Alert>, ids: seq<nat>, s: Series, own: bool): seq<nat> {
    if ids == [] then []
    else (if (ids[0] < |rows| && rows[ids[0]].series == s) == own then [ids[0]] else []) + Part(rows, ids[1..], s, own)
  }

  lemma {:induction false} PartsMakeTheWhole(rows: seq<Alert>, ids: seq<nat>, s: Series)
    ensures multiset(Part(rows, ids, s, true)) + multiset(Part(rows, ids, s, false)) == multiset(ids)
  {
    if ids != [] {
      PartsMakeTheWhole(rows, ids[1..], s);
      assert ids == [ids[0]] + ids[1..];
    }
  }

  lemma {:induction false} OwnPart(rows: seq<Alert>, ids: seq<nat>, s: Series)
    requires InRange(ids, |rows|)
    ensures |Part(rows, ids, s, true)| == CountFor(rows, ids, Just(s))
    ensures InRange(Part(rows, ids, s, true), |rows|)
    ensures forall k :: 0 <= k < |Part(rows, ids, s, true)| ==> rows[Part(rows, ids, s, true)[k]].series == s
  {
    if ids != [] { OwnPart(rows, ids[1..], s); }
  }

  lemma {:induction false} OthersBeneath(rows: seq<Alert>, ids: seq<nat>, s: Series)
    requires InRange(ids, |rows|)
    ensures CountFor(rows, Part(rows, ids, s, false), Beneath(s)) == CountFor(rows, ids, Beneath(s))
  {
    if ids != [] {
      OthersBeneath(rows, ids[1..], s);
      var rest := Part(rows, ids[1..], s, false);
      if rows[ids[0]].series == s {
        assert !Under(s, s);
        assert Part(rows, ids, s, false) == rest;
      } else {
        assert Part(rows, ids, s, false) == [ids[0]] + rest && ([ids[0]] + rest)[1..] == rest;
      }
    }
  }

  lemma {:induction false} CountAny(rows: seq<Alert>, ids: seq<nat>)
    requires InRange(ids, |rows|)
    ensures CountFor(rows, ids, Any) == |ids|
  {
    if ids != [] { CountAny(rows, ids[1..]); }
  }

  /** The order that leaves an alert open when a prefix reaches a newer one: the reaching series first. */
  lemma MixedOrder(rows: seq<Alert>, i: nat, j: nat) returns (ids: seq<nat>)
    requires PlainRules(rows) && i < j < |rows| && !rows[i].resolved && !rows[j].resolved
    requires rows[i].series != rows[j].series && Matches(rows[j], rows[i].series)
    ensures multiset(ids) == multiset(OpenRows(rows)) && InRange(ids, |rows|)
    ensures OpenBy(Visits(rows, rows, ids), Any) > 0
  {
    var s, open := rows[i].series, OpenRows(rows);
    OpenRowsInRange(rows);
    OwnPart(rows, open, s);
    PartsMakeTheWhole(rows, open, s);
    var own, others := Part(rows, open, s, true), Part(rows, open, s, false);
    ids := own + others;
    SameMembers(ids, open, |rows|);
    assert InRange(others, |rows|) by {
      forall k | 0 <= k < |others| ensures others[k] < |rows| { assert others[k] == ids[|own| + k]; }
    }
    VisitsAppend(rows, rows, own, others);
    OpenRowsCount(rows, Just(s));
    OwnVisitsReachBeneath(rows, rows, own, s, i, j);
    OpenRowsCount(rows, Beneath(s));
    OthersBeneath(rows, open, s);
    OpenRowsCount(rows, Any);
    CountAny(rows, open);
    VisitsLower(rows, rows, own, Any);
    Shortage(Visits(rows, rows, own), rows, others, s);
  }

  ghost predicate ClosesAll(t: Tables, ids: seq<nat>) {
    InRange(ids, |t.rows|)
    && var after := Swept(t, [], ListingOf(t.rows, ids)).0.rows; forall i :: 0 <= i < |after| ==> after[i].resolved
  }

  /** The sweep closes every open alert whatever order the query lists them in, if and only
      if no open alert's prefix reaches a newer open alert of another series. */
  lemma EveryOrderClosesAllIff(t: Tables)
    requires PlainRules(t.rows)
    ensures (forall ids: seq<nat> :: multiset(ids) == multiset(OpenRows(t.rows)) ==> ClosesAll(t, ids))
            <==> NoneMixed(t.rows)
  {
    if NoneMixed(t.rows) {
      forall ids: seq<nat> | multiset(ids) == multiset(OpenRows(t.rows)) ensures ClosesAll(t, ids) {
        SweepClosesEverything(t, ids);
      }
    } else {
      var i, j :| 0 <= i < j < |t.rows| && !t.rows[i].resolved && !t.rows[j].resolved
                  && Matches(t.rows[j], t.rows[i].series) && t.rows[i].series != t.rows[j].series;
      var ids := MixedOrder(t.rows, i, j);
      SweptVisits(t, [], t.rows, ids);
      SomeOpen(Visits(t.rows, t.rows, ids), Any);
      assert !ClosesAll(t, ids);
    }
  }
}
