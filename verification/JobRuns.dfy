/** Whole runs of claims, promotions and status writes over the job tables. */
module JobRuns {
  import opened Options
  import opened Jobs

  datatype Step =
    | Claim(id: JobId, now: Time)
    | Promote(id: JobId)
    | Write(id: JobId, status: Status, extra: Extra, guard: Option<Job -> bool>, now: Time)

  ghost function Apply(t: Tables, edges: Edges, hops: nat, step: Step): Tables {
    match step
    case Claim(id, now) => t.(rows := Claimed(t.rows, id, now))
    case Promote(id) => t.(rows := Promoted(t.rows, id))
    case Write(id, status, extra, guard, now) => StatusWritten(t, edges, hops, id, status, extra, guard, now)
  }

  ghost function Run(t: Tables, edges: Edges, hops: nat, steps: seq<Step>): Tables {
    if steps == [] then t
    else Apply(Run(t, edges, hops, steps[..|steps| - 1]), edges, hops, steps[|steps| - 1])
  }

  // ----- a claim and a promotion are won once -----

  ghost function StatusAt(t: Tables, edges: Edges, hops: nat, steps: seq<Step>, k: nat, id: JobId): Option<Status>
    requires k <= |steps|
  {
    var rows := Run(t, edges, hops, steps[..k]).rows; if id in rows then Some(rows[id].status) else None
  }

  lemma NextStatus(t: Tables, edges: Edges, hops: nat, steps: seq<Step>, k: nat)
    requires k < |steps|
    ensures Run(t, edges, hops, steps[..k + 1]) == Apply(Run(t, edges, hops, steps[..k]), edges, hops, steps[k])
  {
    assert steps[..k + 1][..k] == steps[..k];
  }

  /** The step put the job into the status, from another one. */
  ghost predicate Enters(t: Tables, edges: Edges, hops: nat, steps: seq<Step>, k: nat, id: JobId, status: Status)
    requires k < |steps|
  {
    StatusAt(t, edges, hops, steps, k, id) != Some(status) && StatusAt(t, edges, hops, steps, k + 1, id) == Some(status)
  }

  lemma {:induction false} EntersBetween(t: Tables, edges: Edges, hops: nat, steps: seq<Step>, i: nat, j: nat,
                                         id: JobId, status: Status) returns (k: nat)
    requires i <= j <= |steps|
    requires StatusAt(t, edges, hops, steps, i, id) != Some(status)
    requires StatusAt(t, edges, hops, steps, j, id) == Some(status)
    ensures i <= k < j && Enters(t, edges, hops, steps, k, id, status)
    decreases j
  {
    if StatusAt(t, edges, hops, steps, j - 1, id) == Some(status) {
      k := EntersBetween(t, edges, hops, steps, i, j - 1, id, status);
    } else {
      k := j - 1;
    }
  }

  /** Only a promotion of a WAITING job or a status write puts a job into PENDING, and only a
      status write puts one into WAITING. */
  lemma WhatEnters(t: Tables, edges: Edges, hops: nat, step: Step, id: JobId)
    requires var rows, rows' := t.rows, Apply(t, edges, hops, step).rows;
      id in rows' && rows'[id].status in {Pending, Waiting} && !(id in rows && rows[id].status == rows'[id].status)
    ensures var status := Apply(t, edges, hops, step).rows[id].status;
      || (step.Write? && step.id == id && step.status == status)
      || (status == Pending && step == Promote(id) && id in t.rows && t.rows[id].status == Waiting)
  {
    if step.Write? { WriteEntersOnlyItsOwn(t, edges, hops, step, id); }
  }

  lemma WriteEntersOnlyItsOwn(t: Tables, edges: Edges, hops: nat, step: Step, id: JobId)
    requires step.Write? && id in Apply(t, edges, hops, step).rows
    ensures var job := Apply(t, edges, hops, step).rows[id];
      || job.status == Cancelled || (id in t.rows && job.status == t.rows[id].status)
      || (step.id == id && job.status == step.status)
  {
    StatusWriteColumns(t, edges, hops, step.id, step.status, step.extra, step.guard, step.now);
    if Lands(t.rows, step.id, step.guard) && Strands(step.status) {
      var job := Written(t.rows[step.id], step.status, step.extra, step.now);
      var announced := Tables(t.rows[step.id := job], t.outbox + multiset{EventOf(step.id, job)});
      CascadeCancelsExactlyTheReachable(announced, edges, hops, step.id, step.status, step.now);
    }
  }

  /** The claim wins: it finds the job PENDING. */
  ghost predicate Wins(t: Tables, edges: Edges, hops: nat, steps: seq<Step>, k: nat, id: JobId)
    requires k < |steps|
  {
    && steps[k].Claim? && steps[k].id == id && StatusAt(t, edges, hops, steps, k, id) == Some(Pending)
  }

  ghost predicate WinsPromotion(t: Tables, edges: Edges, hops: nat, steps: seq<Step>, k: nat, id: JobId)
    requires k < |steps|
  {
    && steps[k].Promote? && steps[k].id == id && StatusAt(t, edges, hops, steps, k, id) == Some(Waiting)
  }

  /** Between two winning claims of one job, some promotion or write put it back into
      PENDING: at most one caller wins each time a job is PENDING. */
  lemma OneClaimWinsPerPending(t: Tables, edges: Edges, hops: nat, steps: seq<Step>, i: nat, j: nat, id: JobId)
    returns (k: nat)
    requires i < j < |steps| && Wins(t, edges, hops, steps, i, id) && Wins(t, edges, hops, steps, j, id)
    ensures i < k < j && Enters(t, edges, hops, steps, k, id, Pending)
    ensures steps[k] == Promote(id) || (steps[k].Write? && steps[k].id == id && steps[k].status == Pending)
  {
    NextStatus(t, edges, hops, steps, i);
    k := EntersBetween(t, edges, hops, steps, i + 1, j, id, Pending);
    NextStatus(t, edges, hops, steps, k);
    WhatEnters(Run(t, edges, hops, steps[..k]), edges, hops, steps[k], id);
  }

  /** Between two winning promotions of one job, some write put it back into WAITING. */
  lemma OnePromotionWinsPerWaiting(t: Tables, edges: Edges, hops: nat, steps: seq<Step>, i: nat, j: nat, id: JobId)
    returns (k: nat)
    requires i < j < |steps| && WinsPromotion(t, edges, hops, steps, i, id)
    requires WinsPromotion(t, edges, hops, steps, j, id)
    ensures i < k < j && Enters(t, edges, hops, steps, k, id, Waiting)
    ensures steps[k].Write? && steps[k].id == id && steps[k].status == Waiting
  {
    NextStatus(t, edges, hops, steps, i);
    k := EntersBetween(t, edges, hops, steps, i + 1, j, id, Waiting);
    NextStatus(t, edges, hops, steps, k);
    WhatEnters(Run(t, edges, hops, steps[..k]), edges, hops, steps[k], id);
  }

  // ----- every terminal row is stamped and announced -----

  /** The row, if terminal, has its completion time and its event on its own topic. */
  ghost predicate Announced(t: Tables, j: JobId) {
    j in t.rows && t.rows[j].status in {DeadLetter, Completed, Cancelled} ==>
      t.rows[j].completedAt.Some? && Announcement(j, t.rows[j], t.rows[j].status) <= t.outbox
  }

  ghost predicate AllAnnounced(t: Tables) { forall j :: Announced(t, j) }

  /** A terminal write whose caller explicitly clears the completion time. */
  ghost predicate ClearsCompletion(step: Step) {
    step.Write? && Terminal(step.status) && step.extra.completedAt == Some(None)
  }

  lemma CascadeKeepsAnnounced(t: Tables, edges: Edges, hops: nat, parent: JobId, status: Status, at: Time, j: JobId)
    requires Announced(t, j)
    ensures Announced(Cascaded(t, edges, hops, parent, status, at), j)
  {
    CascadeCancelsExactlyTheReachable(t, edges, hops, parent, status, at);
  }

  lemma StepKeepsAnnounced(t: Tables, edges: Edges, hops: nat, step: Step, j: JobId)
    requires Announced(t, j) && !ClearsCompletion(step)
    ensures Announced(Apply(t, edges, hops, step), j)
  {
    if step.Write? && Lands(t.rows, step.id, step.guard) && Strands(step.status) {
      var job := Written(t.rows[step.id], step.status, step.extra, step.now);
      var announced := Tables(t.rows[step.id := job], t.outbox + multiset{EventOf(step.id, job)});
      assert Announced(announced, j);
      CascadeKeepsAnnounced(announced, edges, hops, step.id, step.status, step.now, j);
    }
  }

  /** In every run, each row in a terminal status carries a completion time and
      a matching outbox event, provided no terminal write clears the time itself. */
  lemma {:induction false} TerminalRowsAreAnnounced(t: Tables, edges: Edges, hops: nat, steps: seq<Step>)
    requires AllAnnounced(t) && forall k :: 0 <= k < |steps| ==> !ClearsCompletion(steps[k])
    ensures AllAnnounced(Run(t, edges, hops, steps))
  {
    if steps != [] {
      TerminalRowsAreAnnounced(t, edges, hops, steps[..|steps| - 1]);
      var before := Run(t, edges, hops, steps[..|steps| - 1]);
      forall j ensures Announced(Run(t, edges, hops, steps), j) {
        assert Announced(before, j);
        StepKeepsAnnounced(before, edges, hops, steps[|steps| - 1], j);
      }
    }
  }

  /** The proviso is exact: a terminal write that lands leaves its row announced
      if and only if the caller did not clear the completion time. */
  lemma TerminalWriteAnnouncesUnlessCleared(t: Tables, edges: Edges, hops: nat, step: Step)
    requires step.Write? && Terminal(step.status) && Lands(t.rows, step.id, step.guard)
    ensures Announced(Apply(t, edges, hops, step), step.id) <==> !ClearsCompletion(step)
  {
    StatusWriteColumns(t, edges, hops, step.id, step.status, step.extra, step.guard, step.now);
  }

  // ----- no job waits on a parent that can never complete -----

  ghost predicate Stranded(rows: Rows, e: (JobId, JobId)) {
    && e.0 in rows && rows[e.0].status == Waiting && !rows[e.0].inSaga
    && e.1 in rows && rows[e.1].status in {DeadLetter, Cancelled}
  }

  ghost predicate NoneStranded(rows: Rows, edges: Edges) {
    forall e :: e in edges ==> !Stranded(rows, e)
  }

  /** Every dependency chain of distinct jobs has at most `hops` hops. */
  ghost predicate ChainsBounded(edges: Edges, hops: nat) {
    forall p: seq<JobId> :: SimpleChain(edges, p) ==> |p| <= hops + 1
  }

  ghost predicate SimpleChain(edges: Edges, p: seq<JobId>) {
    && (forall k :: 1 <= k < |p| ==> (p[k], p[k - 1]) in edges)
    && (forall i, k :: 0 <= i < k < |p| ==> p[i] != p[k])
  }

  /** Nothing blocked lies just beyond the cascade's reach. */
  ghost predicate CascadeReachesAll(rows: Rows, edges: Edges, parent: JobId, hops: nat) {
    var w := Within(rows, edges, parent, hops); BlockedChildren(rows, edges, w) <= w
  }

  /** A job first met on level n ends a chain of n hops with one job per level. */
  lemma {:induction false} LayeredChain(rows: Rows, edges: Edges, parent: JobId, x: JobId, n: nat)
    returns (p: seq<JobId>)
    requires x in Within(rows, edges, parent, n) && (n > 0 ==> x !in Within(rows, edges, parent, n - 1))
    ensures |p| == n + 1 && p[n] == x && SimpleChain(edges, p)
    ensures forall k :: 0 <= k <= n ==> p[k] in Within(rows, edges, parent, k)
    decreases n
  {
    if n == 0 {
      p := [x];
    } else {
      var e :| e in edges && e.1 in Within(rows, edges, parent, n - 1) && Blocked(rows, e.0) && e.0 == x;
      assert n > 1 ==> e.1 !in Within(rows, edges, parent, n - 2);
      var q := LayeredChain(rows, edges, parent, e.1, n - 1);
      p := q + [x];
      assert e == (x, e.1);
      forall k | 0 <= k < n ensures q[k] != x { WithinGrows(rows, edges, parent, k, n - 1); }
    }
  }

  lemma BoundedChainsAreReached(rows: Rows, edges: Edges, parent: JobId, hops: nat)
    requires ChainsBounded(edges, hops)
    ensures CascadeReachesAll(rows, edges, parent, hops)
  {
    var w := Within(rows, edges, parent, hops);
    forall x | x in BlockedChildren(rows, edges, w) ensures x in w {
      if x !in w {
        var p := LayeredChain(rows, edges, parent, x, hops + 1);
        assert false;
      }
    }
  }

  /** From rows whose only stranding job is the parent just written, the cascade
      leaves nobody stranded if and only if it reaches every blocked descendant. */
  lemma CascadeLeavesNoneStrandedIff(t: Tables, edges: Edges, hops: nat, parent: JobId, status: Status, at: Time)
    requires parent in t.rows && t.rows[parent].status == status && Strands(status)
    requires forall e :: e in edges && e.1 != parent ==> !Stranded(t.rows, e)
    ensures NoneStranded(Cascaded(t, edges, hops, parent, status, at).rows, edges)
            <==> CascadeReachesAll(t.rows, edges, parent, hops)
  {
    var rows := Cascaded(t, edges, hops, parent, status, at).rows;
    var w := Within(t.rows, edges, parent, hops);
    WithinIsBlocked(t.rows, edges, parent, hops);
    if CascadeReachesAll(t.rows, edges, parent, hops) {
      forall e | e in edges ensures !Stranded(rows, e) {
        assert e.1 in w && Blocked(t.rows, e.0) ==> e.0 in BlockedChildren(t.rows, edges, w);
      }
    }
    if NoneStranded(rows, edges) {
      forall x | x in BlockedChildren(t.rows, edges, w) ensures x in w {
        var e :| e in edges && e.1 in w && Blocked(t.rows, e.0) && e.0 == x;
        assert !Stranded(rows, e);
      }
    }
  }

  // A chain one job longer than the cascade reaches.

  function Upto(n: nat): (ks: set<nat>)
    ensures forall k: nat :: k in ks <==> k <= n
  {
    if n == 0 then {0} else Upto(n - 1) + {n}
  }

  function LineEdges(n: nat): Edges { set k | k in Upto(n) && k < n :: (k + 1, k) }

  /** Job 0 has just been written; jobs 1..n wait, each on the one before it. */
  function Line(n: nat, status: Status): Rows {
    map k | k in Upto(n) :: Job(0, 0, if k == 0 then status else Waiting, false, None, None, None)
  }

  lemma LineStep(n: nat, status: Status, d: nat)
    requires d < n && Strands(status)
    ensures Upto(d) + BlockedChildren(Line(n, status), LineEdges(n), Upto(d)) == Upto(d + 1)
  {
    var rows, edges := Line(n, status), LineEdges(n);
    assert d in Upto(n) && (d + 1, d) in edges && Blocked(rows, d + 1);
    assert forall e :: e in edges && e.1 in Upto(d) ==> e.0 in Upto(d + 1);
  }

  lemma {:induction false} LineLevels(rows: Rows, edges: Edges, depth: nat)
    requires forall d: nat :: d < depth ==> Upto(d) + BlockedChildren(rows, edges, Upto(d)) == Upto(d + 1)
    ensures Within(rows, edges, 0, depth) == Upto(depth)
  {
    if depth > 0 { LineLevels(rows, edges, depth - 1); }
  }

  /** With one waiting job more in line than the bound, the last one is left waiting
      under a cancelled parent; at the bound in force, a line of 52 jobs. */
  lemma LongLineStrandsItsLast(hops: nat, outbox: multiset<Event>, status: Status, at: Time)
    requires Strands(status)
    ensures var t := Tables(Line(hops + 1, status), outbox);
      !NoneStranded(Cascaded(t, LineEdges(hops + 1), hops, 0, status, at).rows, LineEdges(hops + 1))
  {
    LineReaches(hops, status);
    CascadeLeavesNoneStrandedIff(Tables(Line(hops + 1, status), outbox), LineEdges(hops + 1), hops, 0, status, at);
  }

  lemma LineReaches(hops: nat, status: Status)
    requires Strands(status)
    ensures var rows, edges := Line(hops + 1, status), LineEdges(hops + 1);
      && !CascadeReachesAll(rows, edges, 0, hops) && 0 in rows && rows[0].status == status
      && forall e :: e in edges && e.1 != 0 ==> !Stranded(rows, e)
  {
    var rows, edges := Line(hops + 1, status), LineEdges(hops + 1);
    forall d: nat | d < hops ensures Upto(d) + BlockedChildren(rows, edges, Upto(d)) == Upto(d + 1) {
      LineStep(hops + 1, status, d);
    }
    LineLevels(rows, edges, hops);
    LineStep(hops + 1, status, hops);
    assert hops + 1 in Upto(hops + 1) && hops + 1 !in Upto(hops);
  }

  ghost predicate BackToWaiting(step: Step) { step.Write? && step.status == Waiting }

  lemma StepKeepsNoneStranded(t: Tables, edges: Edges, hops: nat, step: Step)
    requires ChainsBounded(edges, hops) && NoneStranded(t.rows, edges) && !BackToWaiting(step)
    ensures NoneStranded(Apply(t, edges, hops, step).rows, edges)
  {
    if step.Write? && Lands(t.rows, step.id, step.guard) && Strands(step.status) {
      var job := Written(t.rows[step.id], step.status, step.extra, step.now);
      var announced := Tables(t.rows[step.id := job], t.outbox + multiset{EventOf(step.id, job)});
      forall e | e in edges && e.1 != step.id ensures !Stranded(announced.rows, e) { assert !Stranded(t.rows, e); }
      BoundedChainsAreReached(announced.rows, edges, step.id, hops);
      CascadeLeavesNoneStrandedIff(announced, edges, hops, step.id, step.status, step.now);
    } else {
      var after := Apply(t, edges, hops, step).rows;
      forall e | e in edges ensures !Stranded(after, e) { assert !Stranded(t.rows, e); }
    }
  }

  /** With the edges fixed, chains no longer than the cascade's depth and no
      write back to WAITING, no run leaves a blocked job under a dead-lettered
      or cancelled parent. */
  lemma {:induction false} NoJobWaitsForever(t: Tables, edges: Edges, hops: nat, steps: seq<Step>)
    requires ChainsBounded(edges, hops) && NoneStranded(t.rows, edges)
    requires forall k :: 0 <= k < |steps| ==> !BackToWaiting(steps[k])
    ensures NoneStranded(Run(t, edges, hops, steps).rows, edges)
  {
    if steps != [] {
      NoJobWaitsForever(t, edges, hops, steps[..|steps| - 1]);
      StepKeepsNoneStranded(Run(t, edges, hops, steps[..|steps| - 1]), edges, hops, steps[|steps| - 1]);
    }
  }
}
