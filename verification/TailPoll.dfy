/** A console tailing a run's step ledger: each poll sends back the cursor the
    previous one returned, while the run keeps appending and its cap keeps dropping. */
module TailPoll {
  import opened Options
  import opened Sequences
  import opened AgentRun

  /** A step's position, an unusable one sorted to the front. */
  function StepSeq(s: Step): int { if s.num.Some? then s.num.value else -1 }

  function SortBySeq(steps: seq<Step>): seq<Step> { SortBy(steps, StepSeq) }

  function Above(stored: seq<Step>, after: Option<int>): seq<Step> {
    if stored == [] then []
    else (if after.None? || StepSeq(stored[0]) > after.value then [stored[0]] else []) + Above(stored[1..], after)
  }

  /** The page a poll returns and the cursor to send next time. */
  function Page(steps: seq<Step>, after: Option<int>): (seq<Step>, Option<int>) {
    var stored := SortBySeq(steps);
    (Above(stored, after), if stored == [] then after else Some(StepSeq(stored[|stored| - 1])))
  }

  ghost predicate Ascending(steps: seq<Step>) {
    forall i :: 0 < i < |steps| ==> StepSeq(steps[i - 1]) <= StepSeq(steps[i])
  }

  lemma SortIsAscending(steps: seq<Step>)
    ensures Ascending(SortBySeq(steps)) && multiset(SortBySeq(steps)) == multiset(steps)
  {
    SortIsOrdered(steps, StepSeq);
    SortIsPermutation(steps, StepSeq);
  }

  lemma {:induction false} AboveIsAscending(stored: seq<Step>, after: Option<int>)
    requires Ascending(stored)
    ensures Ascending(Above(stored, after))
    ensures Above(stored, after) != [] ==> StepSeq(stored[0]) <= StepSeq(Above(stored, after)[0])
  {
    if stored != [] { AboveIsAscending(stored[1..], after); }
  }

  lemma {:induction false} AboveSelects(stored: seq<Step>, after: Option<int>, x: Step)
    ensures multiset(Above(stored, after))[x]
         == if after.None? || StepSeq(x) > after.value then multiset(stored)[x] else 0
  {
    if stored != [] {
      AboveSelects(stored[1..], after, x);
      assert stored == [stored[0]] + stored[1..];
    }
  }

  /** A page holds exactly the stored steps above the cursor, each as often as it
      is stored, in ascending order, whatever order the ledger is in. */
  lemma PageIsTheSortedTail(steps: seq<Step>, after: Option<int>, x: Step)
    ensures Ascending(Page(steps, after).0)
    ensures multiset(Page(steps, after).0)[x]
         == if after.None? || (if x.num.Some? then x.num.value else -1) > after.value then multiset(steps)[x] else 0
    ensures if steps == [] then Page(steps, after).1 == after else IsHighest(steps, Page(steps, after).1)
  {
    SortIsAscending(steps);
    AboveIsAscending(SortBySeq(steps), after);
    AboveSelects(SortBySeq(steps), after, x);
    CursorIsHighest(steps, after);
  }

  lemma CursorIsHighest(steps: seq<Step>, after: Option<int>)
    ensures if steps == [] then Page(steps, after).1 == after else IsHighest(steps, Page(steps, after).1)
  {
    if steps != [] {
      SortIsAscending(steps);
      assert steps[0] in multiset(SortBySeq(steps));
      LastIsHighest(steps, SortBySeq(steps));
    }
  }

  /** The highest seq stored, which is the cursor whether or not the page is empty. */
  ghost predicate IsHighest(steps: seq<Step>, cursor: Option<int>) {
    && cursor.Some? && (exists s :: s in steps && StepSeq(s) == cursor.value)
    && forall s :: s in steps ==> StepSeq(s) <= cursor.value
  }

  lemma LastIsHighest(steps: seq<Step>, sorted: seq<Step>)
    requires Ascending(sorted) && multiset(sorted) == multiset(steps) && sorted != []
    ensures IsHighest(steps, Some(StepSeq(sorted[|sorted| - 1])))
  {
    var last := sorted[|sorted| - 1];
    assert last in multiset(sorted) && last in steps;
    forall s | s in steps ensures StepSeq(s) <= StepSeq(last) {
      assert s in multiset(steps) && s in sorted;
      var i :| 0 <= i < |sorted| && sorted[i] == s;
      OrderedRange(sorted, StepSeq, i, |sorted| - 1);
    }
  }

  // ----- threading the cursor through a run -----

  datatype Event = Appends(step: Step) | Polls

  /** The ledger, the cursor the console holds, and everything it has been sent. */
  datatype Tail = Tail(steps: seq<Step>, cursor: Option<int>, delivered: seq<Step>)

  ghost function Next(t: Tail, e: Event): Tail {
    match e
    case Appends(step) => t.(steps := AppendStep(t.steps, step).0)
    case Polls => var (page, cursor) := Page(t.steps, t.cursor); t.(cursor := cursor, delivered := t.delivered + page)
  }

  ghost function Run(events: seq<Event>): Tail {
    if events == [] then Tail([], None, []) else Next(Run(events[..|events| - 1]), events[|events| - 1])
  }

  /** The same history without cap or cursor: every step appended, and how many
      there were at the last poll. */
  datatype History = History(all: seq<Step>, polled: nat)

  ghost function Full(events: seq<Event>): History {
    if events == [] then History([], 0)
    else var h := Full(events[..|events| - 1]);
      match events[|events| - 1]
      case Appends(step) => History(h.all + [step], h.polled)
      case Polls => History(h.all, |h.all|)
  }

  /** Seqs are non-negative and strictly increase in the order they are reported. */
  ghost predicate Increasing(steps: seq<Step>) {
    && (forall i :: 0 <= i < |steps| ==> steps[i].num.Some? && steps[i].num.value >= 0)
    && (forall i, j :: 0 <= i < j < |steps| ==> steps[i].num.value < steps[j].num.value)
  }

  /** The first of n appended steps that a ledger with this cap still holds. */
  function Oldest(n: nat, cap: nat): nat { if n > cap then n - cap else 0 }

  /** Where a poll starts: after what was polled before, or later if the cap dropped more. */
  function From(n: nat, polled: nat, cap: nat): nat {
    if Oldest(n, cap) >= polled then Oldest(n, cap) else polled
  }

  lemma {:induction false} AboveOfIncreasing(steps: seq<Step>, k: nat, after: Option<int>)
    requires Increasing(steps) && k <= |steps|
    requires k > 0 ==> after.Some? && steps[k - 1].num.value <= after.value
    requires k < |steps| ==> after.None? || steps[k].num.value > after.value
    ensures Above(steps, after) == steps[k..]
  {
    if steps != [] {
      assert [steps[0]] + steps[1..] == steps;
      if k > 0 {
        AboveOfIncreasing(steps[1..], k - 1, after);
        assert steps[1..][k - 1..] == steps[k..];
      } else {
        AboveOfIncreasing(steps[1..], 0, after);
      }
    }
  }

  ghost function CursorAt(all: seq<Step>, polled: nat): Option<int> {
    if 0 < polled <= |all| then all[polled - 1].num else None
  }

  lemma SliceIsIncreasing(all: seq<Step>, lo: nat)
    requires Increasing(all) && lo <= |all|
    ensures Increasing(all[lo..]) && Ascending(all[lo..])
  {
  }

  lemma PageOfIncreasing(steps: seq<Step>, k: nat, after: Option<int>)
    requires Increasing(steps) && Ascending(steps) && k <= |steps|
    requires k > 0 ==> after.Some? && steps[k - 1].num.value <= after.value
    requires k < |steps| ==> after.None? || steps[k].num.value > after.value
    ensures Page(steps, after) == (steps[k..], if steps == [] then after else steps[|steps| - 1].num)
  {
    SortOfOrdered(steps, StepSeq);
    AboveOfIncreasing(steps, k, after);
  }

  lemma HeldSlice(all: seq<Step>, cap: nat)
    ensures Oldest(|all|, cap) <= |all| && Capped(all, cap) == all[Oldest(|all|, cap)..]
  {
    assert all[0..] == all;
  }

  /** One poll of an increasing ledger returns what was appended since the last
      poll and is still held, and moves the cursor to the newest step. */
  lemma PollOfIncreasing(all: seq<Step>, polled: nat, cap: nat)
    requires Increasing(all) && polled <= |all| && cap > 0
    ensures From(|all|, polled, cap) <= |all|
    ensures Page(Capped(all, cap), CursorAt(all, polled)) == (all[From(|all|, polled, cap)..], CursorAt(all, |all|))
  {
    var lo, from := Oldest(|all|, cap), From(|all|, polled, cap);
    HeldSlice(all, cap);
    PageOfSlice(all, polled, lo, from);
  }

  lemma PageOfSlice(all: seq<Step>, polled: nat, lo: nat, from: nat)
    requires Increasing(all) && polled <= from && lo <= from <= |all| && (from > lo ==> from == polled)
    requires lo < |all| || all == []
    ensures Page(all[lo..], CursorAt(all, polled)) == (all[from..], CursorAt(all, |all|))
  {
    SliceIsIncreasing(all, lo);
    CursorFits(all, polled, lo, from);
    PageOfIncreasing(all[lo..], from - lo, CursorAt(all, polled));
    SliceEnds(all, polled, lo, from);
  }

  lemma SliceEnds(all: seq<Step>, polled: nat, lo: nat, from: nat)
    requires polled <= |all| && lo <= from <= |all| && (lo < |all| || all == [])
    ensures all[lo..][from - lo..] == all[from..]
    ensures (if all[lo..] == [] then CursorAt(all, polled) else all[lo..][|all[lo..]| - 1].num) == CursorAt(all, |all|)
  {
  }

  lemma CursorFits(all: seq<Step>, polled: nat, lo: nat, from: nat)
    requires Increasing(all) && polled <= from && lo <= from <= |all| && (from > lo ==> from == polled)
    ensures var steps, after := all[lo..], CursorAt(all, polled);
      && (from > lo ==> after.Some? && steps[from - lo - 1].num.value <= after.value)
      && (from - lo < |steps| ==> after.None? || steps[from - lo].num.value > after.value)
  {
    if from > lo { assert all[lo..][from - lo - 1] == all[polled - 1]; }
    if from < |all| { assert all[lo..][from - lo] == all[from]; }
  }

  lemma NewSeqIsNoRepeat(all: seq<Step>, step: Step, cap: nat)
    requires Increasing(all + [step])
    ensures !Repeats(Capped(all, cap), step)
  {
    var both := all + [step];
    forall i | 0 <= i < |all| ensures all[i].num != step.num { assert both[i].num.value < both[|all|].num.value; }
  }

  /** The steps delivered, computed from the full history. */
  ghost function Delivered(events: seq<Event>, cap: nat): seq<Step> {
    if events == [] then []
    else
      var before := events[..|events| - 1];
      var h := Full(before);
      Delivered(before, cap)
      + if events[|events| - 1].Polls? && From(|h.all|, h.polled, cap) <= |h.all|
        then h.all[From(|h.all|, h.polled, cap)..] else []
  }

  lemma {:induction false} PolledIsBounded(events: seq<Event>)
    ensures Full(events).polled <= |Full(events).all|
  {
    if events != [] { PolledIsBounded(events[..|events| - 1]); }
  }

  lemma EarlierIsIncreasing(events: seq<Event>)
    requires events != [] && Increasing(Full(events).all)
    ensures Increasing(Full(events[..|events| - 1]).all)
  {
    assert Full(events[..|events| - 1]).all <= Full(events).all;
  }

  /** The capped ledger and the threaded cursor deliver exactly what the full
      history says: a bounded protocol refining the simple definition. */
  lemma {:induction false} TailRefinesFullHistory(events: seq<Event>)
    requires Increasing(Full(events).all)
    ensures var t, h := Run(events), Full(events);
      && t.steps == Capped(h.all, STEPS_CAP)
      && t.cursor == CursorAt(h.all, h.polled)
      && t.delivered == Delivered(events, STEPS_CAP)
  {
    if events != [] {
      var before, e := events[..|events| - 1], events[|events| - 1];
      var h := Full(before);
      PolledIsBounded(before);
      EarlierIsIncreasing(events);
      TailRefinesFullHistory(before);
      if e.Appends? {
        NewSeqIsNoRepeat(h.all, e.step, STEPS_CAP);
        CappedAppend(h.all, e.step, STEPS_CAP);
      } else {
        PollOfIncreasing(h.all, h.polled, STEPS_CAP);
      }
    }
  }

  /** All the delivered seqs are below the given one. */
  ghost predicate AllBelow(steps: seq<Step>, bound: Option<int>) {
    forall i :: 0 <= i < |steps| ==> bound.Some? && steps[i].num.Some? && steps[i].num.value <= bound.value
  }

  ghost predicate AllAbove(steps: seq<Step>, bound: Option<int>) {
    forall j :: 0 <= j < |steps| ==> steps[j].num.Some? && (bound.Some? ==> steps[j].num.value > bound.value)
  }

  lemma ConcatIncreasing(a: seq<Step>, b: seq<Step>, bound: Option<int>)
    requires Increasing(a) && Increasing(b) && AllBelow(a, bound) && AllAbove(b, bound)
    ensures Increasing(a + b)
  {
  }

  lemma CursorBounds(all: seq<Step>, polled: nat, from: nat)
    requires Increasing(all) && polled <= from <= |all|
    ensures AllAbove(all[from..], CursorAt(all, polled))
    ensures AllBelow(all[from..], CursorAt(all, |all|))
    ensures CursorAt(all, polled).Some? ==>
      CursorAt(all, |all|).Some? && CursorAt(all, polled).value <= CursorAt(all, |all|).value
  {
    forall j | 0 <= j < |all[from..]|
      ensures polled > 0 ==> all[from..][j].num.value > all[polled - 1].num.value
      ensures all[from..][j].num.Some? && all[from..][j].num.value <= all[|all| - 1].num.value
    {
      assert all[from..][j] == all[from + j];
    }
  }

  lemma PollKeepsIncreasing(d: seq<Step>, all: seq<Step>, polled: nat, from: nat)
    requires Increasing(d) && Increasing(all) && polled <= from <= |all| && AllBelow(d, CursorAt(all, polled))
    ensures Increasing(d + all[from..])
    ensures AllBelow(d + all[from..], CursorAt(all, |all|))
  {
    CursorBounds(all, polled, from);
    ConcatIncreasing(d, all[from..], CursorAt(all, polled));
    ConcatBelow(d, all[from..], CursorAt(all, polled), CursorAt(all, |all|));
  }

  lemma ConcatBelow(a: seq<Step>, b: seq<Step>, low: Option<int>, high: Option<int>)
    requires AllBelow(a, low) && AllBelow(b, high) && (low.Some? ==> high.Some? && low.value <= high.value)
    ensures AllBelow(a + b, high)
  {
    forall i | 0 <= i < |a + b| ensures high.Some? && (a + b)[i].num.Some? && (a + b)[i].num.value <= high.value {
      if i < |a| {
        assert (a + b)[i] == a[i];
      } else {
        assert (a + b)[i] == b[i - |a|];
      }
    }
  }

  lemma {:induction false} DeliveredIncreases(events: seq<Event>, cap: nat)
    requires Increasing(Full(events).all)
    ensures Increasing(Delivered(events, cap))
    ensures AllBelow(Delivered(events, cap), CursorAt(Full(events).all, Full(events).polled))
  {
    if events != [] {
      var before := events[..|events| - 1];
      var h := Full(before);
      PolledIsBounded(before);
      EarlierIsIncreasing(events);
      DeliveredIncreases(before, cap);
      var from := From(|h.all|, h.polled, cap);
      if events[|events| - 1].Polls? && from <= |h.all| {
        PollKeepsIncreasing(Delivered(before, cap), h.all, h.polled, from);
        assert Delivered(events, cap) == Delivered(before, cap) + h.all[from..];
      } else {
        assert Delivered(events, cap) == Delivered(before, cap);
      }
    }
  }

  /** Polls that thread the cursor deliver a strictly increasing stream: nothing
      twice and nothing out of order. */
  lemma DeliveredStreamIncreases(events: seq<Event>)
    requires Increasing(Full(events).all)
    ensures Increasing(Run(events).delivered)
  {
    TailRefinesFullHistory(events);
    DeliveredIncreases(events, STEPS_CAP);
  }

  /** Some poll came while the a-th step was still in the ledger. */
  ghost predicate SeenByAPoll(events: seq<Event>, a: nat, cap: nat) {
    exists j :: 0 <= j < |events| && PollSees(events, j, a, cap)
  }

  ghost predicate PollSees(events: seq<Event>, j: nat, a: nat, cap: nat)
    requires j < |events|
  {
    events[j].Polls? && Oldest(|Full(events[..j]).all|, cap) <= a < |Full(events[..j]).all|
  }

  lemma SeenOneMore(events: seq<Event>, a: nat, cap: nat)
    requires events != []
    ensures SeenByAPoll(events, a, cap)
       <==> SeenByAPoll(events[..|events| - 1], a, cap) || PollSees(events, |events| - 1, a, cap)
  {
    var before := events[..|events| - 1];
    forall j | 0 <= j < |before| ensures PollSees(events, j, a, cap) <==> PollSees(before, j, a, cap) {
      assert before[..j] == events[..j];
    }
  }

  lemma InSlice(all: seq<Step>, from: nat, a: nat)
    requires Increasing(all) && from <= |all| && a < |all|
    ensures all[a] in all[from..] <==> from <= a
  {
    if from <= a {
      assert all[from..][a - from] == all[a];
    } else {
      forall k | 0 <= k < |all[from..]| ensures all[from..][k] != all[a] {
        assert all[a].num.value < all[from + k].num.value;
      }
    }
  }

  lemma {:induction false} DeliveredIffSeen(events: seq<Event>, a: nat, cap: nat)
    requires Increasing(Full(events).all) && a < |Full(events).all| && cap > 0
    ensures Full(events).all[a] in Delivered(events, cap) <==> SeenByAPoll(events, a, cap)
    ensures Oldest(Full(events).polled, cap) <= a < Full(events).polled ==> SeenByAPoll(events, a, cap)
    decreases |events|
  {
    var before, e := events[..|events| - 1], events[|events| - 1];
    var h := Full(before);
    PolledIsBounded(before);
    EarlierIsIncreasing(events);
    SeenOneMore(events, a, cap);
    if a < |h.all| {
      DeliveredIffSeen(before, a, cap);
      if e.Polls? { InSlice(h.all, From(|h.all|, h.polled, cap), a); }
    } else {
      var all := Full(events).all;
      NotYetAppended(before, a, cap);
      forall i | 0 <= i < |h.all| ensures h.all[i] != all[a] {
        assert h.all[i] == all[i] && all[i].num.value < all[a].num.value;
      }
      DeliveredComesFromHistory(before, cap, all[a]);
      assert Delivered(events, cap) == Delivered(before, cap);
    }
  }

  lemma {:induction false} NotYetAppended(events: seq<Event>, a: nat, cap: nat)
    requires a >= |Full(events).all|
    ensures !SeenByAPoll(events, a, cap)
  {
    if events != [] {
      NotYetAppended(events[..|events| - 1], a, cap);
      SeenOneMore(events, a, cap);
    }
  }

  lemma {:induction false} DeliveredComesFromHistory(events: seq<Event>, cap: nat, x: Step)
    ensures x in Delivered(events, cap) ==> x in Full(events).all
  {
    if events != [] { DeliveredComesFromHistory(events[..|events| - 1], cap, x); }
  }

  /** The a-th step appended is delivered if and only if some poll came while the
      ledger still held it: a poller misses only what the cap dropped between polls. */
  lemma DeliveredExactlyIfSeen(events: seq<Event>, a: nat)
    requires Increasing(Full(events).all) && a < |Full(events).all|
    ensures Full(events).all[a] in Run(events).delivered <==> SeenByAPoll(events, a, STEPS_CAP)
  {
    TailRefinesFullHistory(events);
    DeliveredIffSeen(events, a, STEPS_CAP);
  }
}
