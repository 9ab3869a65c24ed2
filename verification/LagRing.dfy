/** The stored window of consumer-lag samples: a capped, time-pruned list that
    each metrics pass rewrites, against the full history of measurements. */
module LagRing {
  import opened Options
  import opened Sequences

  type Time = int  // microseconds, the resolution of the platform's timestamps

  const WINDOW: Time := 900_000_000
  const KEY_TTL: Time := 1_080_000_000
  const MAX_ENTRIES: nat := 240
  const CAP_SPACING: Time := 3_750_000
  const MIN_INTERVAL: Time := 1_000_000

  /** A decoded JSON list element; each half may be missing or unreadable. */
  datatype Entry = Sample(lag: Option<int>, at: Option<Time>) | NotADict

  datatype Raw = Absent | NotAList | Entries(entries: seq<Entry>)

  datatype Reading = Reading(lag: int, at: Time)

  function EntryOf(r: Reading): Entry { Sample(Some(r.lag), Some(r.at)) }

  function Take<T>(s: seq<T>, n: nat): seq<T> { if |s| > n then s[..n] else s }

  /** The entries whose time can be read and is after the cutoff. */
  function Kept(entries: seq<Entry>, cutoff: Time): seq<Entry> {
    if entries == [] then []
    else var e := entries[0];
      (if e.Sample? && e.at.Some? && e.at.value > cutoff then [e] else []) + Kept(entries[1..], cutoff)
  }

  function Recorded(raw: Raw, lag: int, now: Time): Raw {
    var kept := if raw.Entries? then Kept(raw.entries, now - WINDOW) else [];
    Entries(Take([Sample(Some(lag), Some(now))] + kept, MAX_ENTRIES))
  }

  function Readable(entries: seq<Entry>): seq<Reading> {
    if entries == [] then []
    else var e := entries[0];
      (if e.Sample? && e.lag.Some? && e.at.Some? then [Reading(e.lag.value, e.at.value)] else [])
      + Readable(entries[1..])
  }

  function Age(r: Reading): int { -r.at }

  /** Stable sort, newest first. */
  function SortNewestFirst(readings: seq<Reading>): seq<Reading> { SortBy(readings, Age) }

  function Parsed(raw: Raw): seq<Reading> {
    if raw.Entries? then Take(SortNewestFirst(Readable(raw.entries)), MAX_ENTRIES) else []
  }

  /** The samples key of one group. */
  class SampleWindow {
    var raw: Raw

    constructor ()
      ensures raw == Absent
    {
      raw := Absent;
    }

    method RecordLagSample(lag: int, now: Time)
      modifies this
      ensures raw == Recorded(old(raw), lag, now)
    {
      var cutoff := now - WINDOW;
      var samples: seq<Entry> := [];
      if raw.Entries? {
        var i := |raw.entries|;
        while i > 0
          invariant 0 <= i <= |raw.entries| && raw == old(raw)
          invariant samples == Kept(raw.entries[i..], cutoff)
        {
          i := i - 1;
          var e := raw.entries[i];
          assert raw.entries[i..][1..] == raw.entries[i + 1..];
          if e.Sample? && e.at.Some? && e.at.value > cutoff {
            samples := [e] + samples;
          }
        }
        assert raw.entries[0..] == raw.entries;
      }
      samples := [Sample(Some(lag), Some(now))] + samples;
      if |samples| > MAX_ENTRIES {
        samples := samples[..MAX_ENTRIES];
      }
      raw := Entries(samples);
    }

    method ParseSamples() returns (readings: seq<Reading>)
      ensures readings == Parsed(raw)
    {
      if !raw.Entries? {
        return [];
      }
      readings := [];
      var i := |raw.entries|;
      while i > 0
        invariant 0 <= i <= |raw.entries|
        invariant readings == Readable(raw.entries[i..])
      {
        i := i - 1;
        var e := raw.entries[i];
        assert raw.entries[i..][1..] == raw.entries[i + 1..];
        if e.Sample? && e.lag.Some? && e.at.Some? {
          readings := [Reading(e.lag.value, e.at.value)] + readings;
        }
      }
      assert raw.entries[0..] == raw.entries;
      readings := Take(SortNewestFirst(readings), MAX_ENTRIES);
    }
  }

  // ----- runs of writes, with the store free to expire the key -----

  /** The key as the next pass finds it: gone once its TTL has run out. */
  ghost function Found(raw: Raw, writtenAt: Time, now: Time): Raw {
    if now - writtenAt >= KEY_TTL then Absent else raw
  }

  ghost function Stored(writes: seq<Reading>): Raw {
    if writes == [] then Absent
    else
      var before, w := writes[..|writes| - 1], writes[|writes| - 1];
      Recorded(if before == [] then Absent else Found(Stored(before), before[|before| - 1].at, w.at), w.lag, w.at)
  }

  /** Every measurement ever taken after the cutoff, newest first. */
  ghost function Recent(writes: seq<Reading>, cutoff: Time): seq<Reading> {
    if writes == [] then []
    else (if writes[|writes| - 1].at > cutoff then [writes[|writes| - 1]] else [])
         + Recent(writes[..|writes| - 1], cutoff)
  }

  ghost predicate Nondecreasing(writes: seq<Reading>) {
    forall i, j :: 0 <= i < j < |writes| ==> writes[i].at <= writes[j].at
  }

  ghost predicate NewestFirst(readings: seq<Reading>) {
    forall i, j :: 0 <= i < j < |readings| ==> readings[i].at >= readings[j].at
  }

  function EntriesOf(readings: seq<Reading>): (entries: seq<Entry>)
    ensures |entries| == |readings|
  {
    if readings == [] then [] else [EntryOf(readings[0])] + EntriesOf(readings[1..])
  }

  lemma {:induction false} RecentIsNewestFirst(writes: seq<Reading>, cutoff: Time)
    requires Nondecreasing(writes)
    ensures NewestFirst(Recent(writes, cutoff))
    ensures forall k :: 0 <= k < |Recent(writes, cutoff)| ==>
      cutoff < Recent(writes, cutoff)[k].at && Recent(writes, cutoff)[k].at <= writes[|writes| - 1].at
  {
    if writes != [] { RecentIsNewestFirst(writes[..|writes| - 1], cutoff); }
  }

  lemma {:induction false} RecentOfStale(writes: seq<Reading>, cutoff: Time)
    requires forall i :: 0 <= i < |writes| ==> writes[i].at <= cutoff
    ensures Recent(writes, cutoff) == []
  {
    if writes != [] { RecentOfStale(writes[..|writes| - 1], cutoff); }
  }

  ghost function Pruned(readings: seq<Reading>, cutoff: Time): seq<Reading> {
    if readings == [] then []
    else (if readings[0].at > cutoff then [readings[0]] else []) + Pruned(readings[1..], cutoff)
  }

  lemma {:induction false} KeptOfEntries(readings: seq<Reading>, cutoff: Time)
    ensures Kept(EntriesOf(readings), cutoff) == EntriesOf(Pruned(readings, cutoff))
  {
    if readings != [] {
      KeptOfEntries(readings[1..], cutoff);
      assert EntriesOf(readings)[1..] == EntriesOf(readings[1..]);
      var rest := Pruned(readings[1..], cutoff);
      if readings[0].at > cutoff {
        assert ([readings[0]] + rest)[1..] == rest;
      } else {
        assert Pruned(readings, cutoff) == rest;
      }
    }
  }

  /** Pruning again with a later cutoff gives what that cutoff selects from the full history. */
  lemma {:induction false} PruneOfRecent(writes: seq<Reading>, c: Time, c': Time)
    requires c <= c'
    ensures Pruned(Recent(writes, c), c') == Recent(writes, c')
  {
    if writes != [] {
      var before, w := writes[..|writes| - 1], writes[|writes| - 1];
      PruneOfRecent(before, c, c');
      if w.at > c {
        assert Recent(writes, c)[1..] == Recent(before, c);
      } else {
        assert Recent(writes, c) == Recent(before, c);
      }
    }
  }

  lemma {:induction false} PruneOfStale(readings: seq<Reading>, cutoff: Time)
    requires forall i :: 0 <= i < |readings| ==> readings[i].at <= cutoff
    ensures Pruned(readings, cutoff) == []
  {
    if readings != [] { PruneOfStale(readings[1..], cutoff); }
  }

  /** On a newest-first list capping and pruning commute. */
  lemma {:induction false} PruneOfCapped(readings: seq<Reading>, n: nat, cutoff: Time)
    requires NewestFirst(readings)
    ensures Pruned(Take(readings, n), cutoff) == Take(Pruned(readings, cutoff), n)
  {
    if readings != [] && n > 0 {
      if readings[0].at > cutoff {
        PruneOfCapped(readings[1..], n - 1, cutoff);
        assert Take(readings, n)[1..] == Take(readings[1..], n - 1);
      } else {
        PruneOfStale(readings, cutoff);
        PruneOfStale(Take(readings, n), cutoff);
      }
    }
  }

  lemma {:induction false} EntriesOfTake(readings: seq<Reading>, n: nat)
    ensures EntriesOf(Take(readings, n)) == Take(EntriesOf(readings), n)
  {
    if readings != [] && n > 0 {
      EntriesOfTake(readings[1..], n - 1);
      assert Take(readings, n)[1..] == Take(readings[1..], n - 1);
    }
  }

  /** What is stored after the last write, said of the whole history. */
  ghost function Expected(writes: seq<Reading>): seq<Reading>
    requires writes != []
  {
    Take(Recent(writes, writes[|writes| - 1].at - WINDOW), MAX_ENTRIES)
  }

  lemma PrunedStore(before: seq<Reading>, now: Time)
    requires before != [] && Nondecreasing(before) && before[|before| - 1].at <= now
    requires Stored(before) == Entries(EntriesOf(Expected(before)))
    ensures var found := Found(Stored(before), before[|before| - 1].at, now);
      (if found.Entries? then Kept(found.entries, now - WINDOW) else [])
      == EntriesOf(Take(Recent(before, now - WINDOW), MAX_ENTRIES))
  {
    var last, c' := before[|before| - 1].at, now - WINDOW;
    if now - last >= KEY_TTL {
      RecentOfStale(before, c');
    } else {
      KeptOfRecent(before, last - WINDOW, c', MAX_ENTRIES);
    }
  }

  lemma KeptOfRecent(writes: seq<Reading>, c: Time, c': Time, n: nat)
    requires Nondecreasing(writes) && c <= c'
    ensures Kept(EntriesOf(Take(Recent(writes, c), n)), c') == EntriesOf(Take(Recent(writes, c'), n))
  {
    RecentIsNewestFirst(writes, c);
    KeptOfEntries(Take(Recent(writes, c), n), c');
    PruneOfCapped(Recent(writes, c), n, c');
    PruneOfRecent(writes, c, c');
  }

  lemma TakeCons<T>(x: T, s: seq<T>, n: nat)
    requires n > 0
    ensures Take([x] + Take(s, n), n) == Take([x] + s, n)
  {
  }

  lemma TakeOneMore(w: Reading, older: seq<Reading>, n: nat)
    requires n > 0
    ensures Take([EntryOf(w)] + EntriesOf(Take(older, n)), n) == EntriesOf(Take([w] + older, n))
  {
    TakeCons(EntryOf(w), EntriesOf(older), n);
    EntriesOfTake(older, n);
    EntriesOfTake([w] + older, n);
    assert ([w] + older)[1..] == older;
  }

  /** After any run of writes on a clock that never steps back, and whatever the
      key's expiry removed, the stored window is exactly the newest 240 of all
      samples taken in the last 900 seconds, newest first. */
  lemma {:induction false} StoredIsTheNewestWindow(writes: seq<Reading>)
    requires writes != [] && Nondecreasing(writes)
    ensures Stored(writes) == Entries(EntriesOf(Expected(writes)))
  {
    var before, w := writes[..|writes| - 1], writes[|writes| - 1];
    var older := Recent(before, w.at - WINDOW);
    if before == [] {
      RecordKeeps(Absent, w, older);
    } else {
      StoredIsTheNewestWindow(before);
      PrunedStore(before, w.at);
      RecordKeeps(Found(Stored(before), before[|before| - 1].at, w.at), w, older);
    }
    assert Recent(writes, w.at - WINDOW) == [w] + older;
  }

  lemma RecordKeeps(found: Raw, w: Reading, older: seq<Reading>)
    requires (if found.Entries? then Kept(found.entries, w.at - WINDOW) else []) == EntriesOf(Take(older, MAX_ENTRIES))
    ensures Recorded(found, w.lag, w.at) == Entries(EntriesOf(Take([w] + older, MAX_ENTRIES)))
  {
    TakeOneMore(w, older, MAX_ENTRIES);
  }

  /** Whatever the list holds: pruning keeps each entry with a readable time after the cutoff, as
      often as it is there, and nothing else; reading keeps each entry with both halves readable. */
  lemma {:induction false} KeptSelects(entries: seq<Entry>, cutoff: Time, e: Entry)
    ensures multiset(Kept(entries, cutoff))[e]
         == match e
            case Sample(_, Some(at)) => if at > cutoff then multiset(entries)[e] else 0
            case _ => 0
  {
    if entries != [] {
      KeptSelects(entries[1..], cutoff, e);
      assert entries == [entries[0]] + entries[1..];
    }
  }

  lemma {:induction false} ReadableSelects(entries: seq<Entry>, r: Reading)
    ensures multiset(Readable(entries))[r] == multiset(entries)[Sample(Some(r.lag), Some(r.at))]
  {
    if entries != [] {
      ReadableSelects(entries[1..], r);
      assert entries == [entries[0]] + entries[1..];
    }
  }

  lemma {:induction false} ReadableOfEntries(readings: seq<Reading>)
    ensures Readable(EntriesOf(readings)) == readings
  {
    if readings != [] {
      ReadableOfEntries(readings[1..]);
      assert EntriesOf(readings)[1..] == EntriesOf(readings[1..]);
    }
  }

  lemma SortOfNewestFirst(readings: seq<Reading>)
    requires NewestFirst(readings)
    ensures SortNewestFirst(readings) == readings
  {
    assert forall i :: 0 < i < |readings| ==> Age(readings[i - 1]) <= Age(readings[i]);
    SortOfOrdered(readings, Age);
  }

  lemma SortIsNewestFirst(readings: seq<Reading>)
    ensures NewestFirst(SortNewestFirst(readings)) && multiset(SortNewestFirst(readings)) == multiset(readings)
  {
    SortIsOrdered(readings, Age);
    SortIsPermutation(readings, Age);
    var sorted := SortNewestFirst(readings);
    forall i, j | 0 <= i < j < |sorted| ensures sorted[i].at >= sorted[j].at { OrderedRange(sorted, Age, i, j); }
  }

  /** Whatever wrote the key, what is read back is newest first, bounded, made only
      of readable entries, and leaves out none newer than the oldest it returns. */
  lemma ParseSortsAndCaps(raw: Raw)
    ensures NewestFirst(Parsed(raw)) && |Parsed(raw)| <= MAX_ENTRIES
    ensures raw.Entries? ==> exists rest :: LeavesOut(Readable(raw.entries), Parsed(raw), rest)
  {
    if raw.Entries? {
      var all := SortNewestFirst(Readable(raw.entries));
      SortIsNewestFirst(Readable(raw.entries));
      TakeLeavesOut(all);
      assert LeavesOut(Readable(raw.entries), Parsed(raw), all[|Parsed(raw)|..]);
    }
  }

  /** What was left out: older than everything taken, and only because the cap was reached. */
  ghost predicate LeavesOut(all: seq<Reading>, taken: seq<Reading>, rest: seq<Reading>) {
    && multiset(taken) + multiset(rest) == multiset(all)
    && (rest != [] ==> |taken| == MAX_ENTRIES)
    && forall i, j :: 0 <= i < |taken| && 0 <= j < |rest| ==> taken[i].at >= rest[j].at
  }

  lemma TakeLeavesOut(all: seq<Reading>)
    requires NewestFirst(all)
    ensures NewestFirst(Take(all, MAX_ENTRIES))
    ensures LeavesOut(all, Take(all, MAX_ENTRIES), all[|Take(all, MAX_ENTRIES)|..])
  {
    assert all == Take(all, MAX_ENTRIES) + all[|Take(all, MAX_ENTRIES)|..];
  }

  /** Reading the window back returns it unchanged. */
  lemma ParseReturnsTheStoredWindow(writes: seq<Reading>)
    requires writes != [] && Nondecreasing(writes)
    ensures Parsed(Stored(writes)) == Expected(writes)
  {
    StoredIsTheNewestWindow(writes);
    RecentIsNewestFirst(writes, writes[|writes| - 1].at - WINDOW);
    ReadableOfEntries(Expected(writes));
    SortOfNewestFirst(Expected(writes));
  }

  // ----- when the cap never bites -----

  ghost predicate Spaced(writes: seq<Reading>, gap: Time) {
    forall i :: 1 <= i < |writes| ==> writes[i].at - writes[i - 1].at >= gap
  }

  lemma {:induction false} SpacedWindowIsSmall(writes: seq<Reading>, cutoff: Time)
    requires Nondecreasing(writes) && Spaced(writes, CAP_SPACING)
    ensures Recent(writes, cutoff) != [] ==>
      (|Recent(writes, cutoff)| - 1) * CAP_SPACING < writes[|writes| - 1].at - cutoff
  {
    if writes != [] {
      var before := writes[..|writes| - 1];
      SpacedWindowIsSmall(before, cutoff);
      if before != [] {
        assert writes[|writes| - 1].at - writes[|writes| - 2].at >= CAP_SPACING;
        if before[|before| - 1].at <= cutoff { RecentOfStale(before, cutoff); }
      }
    }
  }

  /** With passes at least 3.75 s apart the cap discards nothing: the window
      holds every sample of the last 900 seconds. */
  lemma CapNeverBitesWhenSpaced(writes: seq<Reading>)
    requires writes != [] && Nondecreasing(writes) && Spaced(writes, CAP_SPACING)
    ensures Parsed(Stored(writes)) == Recent(writes, writes[|writes| - 1].at - WINDOW)
  {
    SpacedWindowIsSmall(writes, writes[|writes| - 1].at - WINDOW);
    ParseReturnsTheStoredWindow(writes);
  }

  // ----- how many samples a steady pass interval keeps -----

  /** n passes, one every `interval`, the last at t. */
  ghost function Steady(n: nat, interval: Time, t: Time): seq<Reading> {
    if n == 0 then [] else Steady(n - 1, interval, t - interval) + [Reading(0, t)]
  }

  function CeilDiv(d: int, interval: int): int
    requires interval > 0
  {
    (d + interval - 1) / interval
  }

  lemma CeilDivStep(d: int, interval: int)
    requires interval > 0
    ensures CeilDiv(d - interval, interval) == CeilDiv(d, interval) - 1
  {
    var q := CeilDiv(d, interval);
    assert d - 1 == (q - 1) * interval + (d + interval - 1) % interval;
    DivIs(d - 1, interval, q - 1, (d + interval - 1) % interval);
  }

  lemma DivIs(x: int, interval: int, q: int, r: int)
    requires interval > 0 && x == q * interval + r && 0 <= r < interval
    ensures x / interval == q
  {
    var k := x / interval - q;
    assert k * interval == r - x % interval;
    assert k > 0 ==> k * interval >= interval;
    assert k < 0 ==> k * interval <= -interval;
  }

  lemma {:induction false} SteadyCount(n: nat, interval: Time, t: Time, cutoff: Time)
    requires interval > 0
    ensures |Recent(Steady(n, interval, t), cutoff)| == if t <= cutoff then 0 else Min(n, CeilDiv(t - cutoff, interval))
  {
    if n > 0 {
      SteadyCount(n - 1, interval, t - interval, cutoff);
      var s := Steady(n, interval, t);
      assert s[..|s| - 1] == Steady(n - 1, interval, t - interval);
      CeilDivStep(t - cutoff, interval);
      if cutoff < t <= cutoff + interval { DivIs(t - cutoff + interval - 1, interval, 1, t - cutoff - 1); }
    } else {
      if t > cutoff { CeilDivPositive(t - cutoff, interval); }
    }
  }

  lemma CeilDivPositive(d: int, interval: int)
    requires interval > 0 && d > 0
    ensures CeilDiv(d, interval) >= 1
  {
  }

  lemma {:induction false} SteadyIsNondecreasing(n: nat, interval: Time, t: Time)
    requires interval > 0
    ensures |Steady(n, interval, t)| == n && Nondecreasing(Steady(n, interval, t))
    ensures n > 0 ==> Steady(n, interval, t)[n - 1].at == t
    ensures forall i :: 0 <= i < n ==> Steady(n, interval, t)[i].at <= t
  {
    if n > 0 { SteadyIsNondecreasing(n - 1, interval, t - interval); }
  }

  /** What lag_samples_at_interval answers. */
  function SamplesAtInterval(interval: Time): int {
    Min(MAX_ENTRIES, Max(1, WINDOW / Max(MIN_INTERVAL, interval)))
  }

  /** A steady interval settles on ceil(900 s / interval) samples, capped. The
      documented answer rounds down, so it is right exactly when the interval
      divides the window, exceeds it, or is short enough for the cap to decide. */
  lemma SteadyWindowSettles(n: nat, interval: Time, t: Time)
    requires interval > 0 && n >= MAX_ENTRIES
    ensures |Parsed(Stored(Steady(n, interval, t)))| == Min(MAX_ENTRIES, CeilDiv(WINDOW, interval))
    ensures |Parsed(Stored(Steady(n, interval, t)))| == SamplesAtInterval(interval)
            <==> WINDOW % interval == 0 || interval > WINDOW || WINDOW / interval >= MAX_ENTRIES
  {
    SteadyIsNondecreasing(n, interval, t);
    ParseReturnsTheStoredWindow(Steady(n, interval, t));
    SteadyCount(n, interval, t, t - WINDOW);
    RoundingMatters(interval);
  }

  lemma RoundingMatters(interval: Time)
    requires interval > 0
    ensures Min(MAX_ENTRIES, CeilDiv(WINDOW, interval)) == SamplesAtInterval(interval)
            <==> WINDOW % interval == 0 || interval > WINDOW || WINDOW / interval >= MAX_ENTRIES
  {
    CeilIsFloorOrOneMore(WINDOW, interval);
    if interval < MIN_INTERVAL { ManyFit(interval); }
  }

  lemma ManyFit(interval: Time)
    requires 0 < interval < MIN_INTERVAL
    ensures WINDOW / interval >= MAX_ENTRIES
  {
    var q := WINDOW / interval;
    assert WINDOW == q * interval + WINDOW % interval;
  }

  /** At a seven-second interval the window settles on 129 samples, one more than the documented 128. */
  lemma SevenSecondsHoldsOneMore(n: nat, t: Time)
    requires n >= MAX_ENTRIES
    ensures |Parsed(Stored(Steady(n, 7_000_000, t)))| == 129 && SamplesAtInterval(7_000_000) == 128
  {
    SteadyWindowSettles(n, 7_000_000, t);
  }

  /** At the two settings in use, one pass a minute and one every five seconds, the window holds
      15 and 180 samples as documented; at one a second the cap holds it at 240. */
  lemma DocumentedSettingsHold(n: nat, t: Time)
    requires n >= MAX_ENTRIES
    ensures |Parsed(Stored(Steady(n, 60_000_000, t)))| == 15 && |Parsed(Stored(Steady(n, 5_000_000, t)))| == 180
    ensures |Parsed(Stored(Steady(n, 1_000_000, t)))| == 240
    ensures SamplesAtInterval(60_000_000) == 15 && SamplesAtInterval(5_000_000) == 180
  {
    SteadyWindowSettles(n, 60_000_000, t);
    SteadyWindowSettles(n, 5_000_000, t);
    SteadyWindowSettles(n, 1_000_000, t);
  }

  lemma CeilIsFloorOrOneMore(d: int, interval: int)
    requires interval > 0 && d > 0
    ensures CeilDiv(d, interval) == d / interval + if d % interval == 0 then 0 else 1
    ensures interval > d <==> d / interval == 0
  {
    var q, r := d / interval, d % interval;
    assert d == q * interval + r;
    if r == 0 {
      DivIs(d + interval - 1, interval, q, interval - 1);
    } else {
      assert d + interval - 1 == (q + 1) * interval + (r - 1);
      DivIs(d + interval - 1, interval, q + 1, r - 1);
    }
    if interval > d { DivIs(d, interval, 0, d); }
  }
}
