/** Tailing a ledger whose seqs come in any order, with repeats, gaps and steps
    without one: what the polls deliver, occurrence by occurrence. */
module TailOccurrences {
  import opened Options
  import opened AgentRun
  import opened TailPoll

  /** The steps the ledger took, in order; the a-th occurrence is the a-th of them. */
  ghost function Taken(events: seq<Event>): seq<Step> {
    if events == [] then []
    else
      var before, e := events[..|events| - 1], events[|events| - 1];
      Taken(before) + if e.Appends? && !Repeats(TailPoll.Run(before).steps, e.step) then [e.step] else []
  }

  lemma {:induction false} LedgerIsTheNewestTaken(events: seq<Event>)
    ensures TailPoll.Run(events).steps == Capped(Taken(events), STEPS_CAP)
  {
    if events != [] {
      var before, e := events[..|events| - 1], events[|events| - 1];
      LedgerIsTheNewestTaken(before);
      if e.Appends? { CappedAppend(Taken(before), e.step, STEPS_CAP); }
    }
  }

  /** The ledger still holds the a-th occurrence. */
  ghost predicate Holds(events: seq<Event>, a: nat) {
    Oldest(|Taken(events)|, STEPS_CAP) <= a < |Taken(events)|
  }

  predicate Below(cursor: Option<int>, s: Step) { cursor.None? || StepSeq(s) > cursor.value }

  /** A poll now would find the a-th occurrence held, with the cursor below its seq. */
  ghost predicate WouldSend(events: seq<Event>, a: nat) {
    Holds(events, a) && Below(TailPoll.Run(events).cursor, Taken(events)[a])
  }

  /** How many polls found it so. */
  ghost function TimesSent(events: seq<Event>, a: nat): nat {
    if events == [] then 0
    else
      var before := events[..|events| - 1];
      TimesSent(before, a) + if events[|events| - 1].Polls? && WouldSend(before, a) then 1 else 0
  }

  lemma PollPassesAllHeld(events: seq<Event>, a: nat)
    requires Holds(events, a)
    ensures var cursor := Page(TailPoll.Run(events).steps, TailPoll.Run(events).cursor).1;
      cursor.Some? && StepSeq(Taken(events)[a]) <= cursor.value
  {
    LedgerIsTheNewestTaken(events);
    HeldSlice(Taken(events), STEPS_CAP);
    var steps := TailPoll.Run(events).steps;
    assert steps[a - Oldest(|Taken(events)|, STEPS_CAP)] == Taken(events)[a];
    CursorIsHighest(steps, TailPoll.Run(events).cursor);
  }

  lemma TakenGrows(events: seq<Event>)
    requires events != []
    ensures Taken(events[..|events| - 1]) <= Taken(events)
    ensures forall a: nat :: a < |Taken(events[..|events| - 1])| && Holds(events, a) ==>
        Holds(events[..|events| - 1], a)
  {
  }

  /** Each occurrence is sent at most once; while held, it lies at or below the cursor from then on. */
  lemma {:induction false} SentAtMostOnce(events: seq<Event>, a: nat)
    ensures TimesSent(events, a) <= 1
    ensures TimesSent(events, a) == 1 ==> a < |Taken(events)|
    ensures TimesSent(events, a) == 1 && Holds(events, a) ==> !Below(TailPoll.Run(events).cursor, Taken(events)[a])
  {
    if events != [] {
      var before := events[..|events| - 1];
      SentAtMostOnce(before, a);
      TakenGrows(events);
      if Holds(before, a) { PollPassesAllHeld(before, a); }
    }
  }

  // ----- the delivered stream, counted -----

  /** How often x was sent, over its first n occurrences. */
  ghost function Sent(events: seq<Event>, x: Step, n: nat): nat
    requires n <= |Taken(events)|
  {
    if n == 0 then 0 else Sent(events, x, n - 1) + if Taken(events)[n - 1] == x then TimesSent(events, n - 1) else 0
  }

  /** How many of the occurrences from lo up to n are x. */
  ghost function Count(all: seq<Step>, x: Step, lo: nat, n: nat): nat
    requires n <= |all|
  {
    if n <= lo then 0 else Count(all, x, lo, n - 1) + if all[n - 1] == x then 1 else 0
  }

  lemma {:induction false} CountIsMultiplicity(all: seq<Step>, x: Step, lo: nat, n: nat)
    requires lo <= n <= |all|
    ensures multiset(all[lo..n])[x] == Count(all, x, lo, n)
  {
    if lo < n {
      CountIsMultiplicity(all, x, lo, n - 1);
      assert all[lo..n] == all[lo..n - 1] + [all[n - 1]];
    }
  }

  lemma {:induction false} AppendKeepsSent(events: seq<Event>, x: Step, n: nat)
    requires events != [] && events[|events| - 1].Appends? && n <= |Taken(events[..|events| - 1])|
    ensures n <= |Taken(events)| && Sent(events, x, n) == Sent(events[..|events| - 1], x, n)
  {
    TakenGrows(events);
    if n > 0 { AppendKeepsSent(events, x, n - 1); }
  }

  lemma {:induction false} PollAddsHeld(events: seq<Event>, x: Step, n: nat)
    requires events != [] && events[|events| - 1].Polls? && n <= |Taken(events)|
    ensures var before := events[..|events| - 1];
      && Taken(events) == Taken(before)
      && Sent(events, x, n) == Sent(before, x, n)
         + (if Below(TailPoll.Run(before).cursor, x)
            then Count(Taken(before), x, Oldest(|Taken(before)|, STEPS_CAP), n) else 0)
  {
    if n > 0 { PollAddsHeld(events, x, n - 1); }
  }

  lemma NewestIsUnsent(events: seq<Event>, a: nat)
    requires a >= |Taken(events)|
    ensures TimesSent(events, a) == 0
  {
    SentAtMostOnce(events, a);
  }

  lemma AppendSendsNothing(events: seq<Event>, x: Step)
    requires events != [] && events[|events| - 1].Appends?
    ensures Sent(events, x, |Taken(events)|) == Sent(events[..|events| - 1], x, |Taken(events[..|events| - 1])|)
  {
    var n := |Taken(events[..|events| - 1])|;
    AppendKeepsSent(events, x, n);
    if |Taken(events)| > n { NewestIsUnsent(events[..|events| - 1], n); }
  }

  /** For any seqs whatever: what the polls delivered holds each step exactly as often as
      occurrences of it were held by some poll whose cursor was below its seq. */
  lemma {:induction false} DeliveredIsWhatWasSent(events: seq<Event>, x: Step)
    ensures multiset(TailPoll.Run(events).delivered)[x] == Sent(events, x, |Taken(events)|)
  {
    if events != [] {
      var before, e := events[..|events| - 1], events[|events| - 1];
      DeliveredIsWhatWasSent(before, x);
      if e.Appends? {
        AppendSendsNothing(events, x);
      } else {
        PollDelivers(before, x);
        PollAddsHeld(events, x, |Taken(before)|);
      }
    }
  }

  lemma PollDelivers(events: seq<Event>, x: Step)
    ensures var t, all := TailPoll.Run(events), Taken(events);
      multiset(t.delivered + Page(t.steps, t.cursor).0)[x] == multiset(t.delivered)[x]
        + if Below(t.cursor, x) then Count(all, x, Oldest(|all|, STEPS_CAP), |all|) else 0
  {
    var t, all := TailPoll.Run(events), Taken(events);
    LedgerIsTheNewestTaken(events);
    HeldSlice(all, STEPS_CAP);
    PageIsTheSortedTail(t.steps, t.cursor, x);
    CountIsMultiplicity(all, x, Oldest(|all|, STEPS_CAP), |all|);
    assert all[Oldest(|all|, STEPS_CAP)..|all|] == t.steps;
  }
}
