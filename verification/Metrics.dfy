/** CloudWatch custom metrics: the cardinality guard, the bounded queue, the fold
    of a flush window into one statistic set per series, and the chunked sends. */
module Metrics {
  import opened Options
  import opened Sequences

  // A datum's dimensions are the sorted items of a dictionary, which determine and
  // are determined by the dictionary itself.
  datatype Key = Key(metric: string, unit: string, dimensions: map<string, string>)
  datatype Datum = Datum(key: Key, value: real)
  datatype Stat = Stat(count: real, sum: real, minimum: real, maximum: real)
  datatype Entry = Entry(key: Key, stat: Stat)

  const MAX_DIMENSION_VALUES: nat := 100
  const OTHER_VALUE: string := "other"
  const QUEUE_MAXSIZE: nat := 10_000
  const MAX_DATUMS_PER_CALL: nat := 500

  // ----- the fold -----

  function Least(a: real, b: real): real { if b < a then b else a }
  function Greatest(a: real, b: real): real { if b > a then b else a }

  function Single(d: Datum): Entry { Entry(d.key, Stat(1.0, d.value, d.value, d.value)) }

  function Joined(s: Stat, v: real): Stat {
    Stat(s.count + 1.0, s.sum + v, Least(s.minimum, v), Greatest(s.maximum, v))
  }

  /** Adds one datum to the entry of its series, or opens one at the end. */
  function AddTo(es: seq<Entry>, d: Datum): seq<Entry> {
    if es == [] then [Single(d)]
    else if es[0].key == d.key then [Entry(d.key, Joined(es[0].stat, d.value))] + es[1..]
    else [es[0]] + AddTo(es[1..], d)
  }

  function Fold(batch: seq<Datum>): seq<Entry> {
    if batch == [] then [] else AddTo(Fold(batch[..|batch| - 1]), batch[|batch| - 1])
  }

  ghost predicate Distinct(es: seq<Entry>) {
    forall i, j :: 0 <= i < j < |es| ==> es[i].key != es[j].key
  }

  ghost predicate Absent(es: seq<Entry>, k: Key) { forall i :: 0 <= i < |es| ==> es[i].key != k }

  lemma {:induction false} AddToPresent(es: seq<Entry>, d: Datum, j: nat)
    requires Distinct(es) && j < |es| && es[j].key == d.key
    ensures AddTo(es, d) == es[j := Entry(d.key, Joined(es[j].stat, d.value))]
  {
    if j > 0 { AddToPresent(es[1..], d, j - 1); }
  }

  lemma {:induction false} AddToAbsent(es: seq<Entry>, d: Datum)
    requires Absent(es, d.key)
    ensures AddTo(es, d) == es + [Single(d)]
  {
    if es != [] { AddToAbsent(es[1..], d); }
  }

  ghost function Listed(order: seq<Key>, folded: map<Key, Stat>): seq<Entry>
    requires forall j :: 0 <= j < |order| ==> order[j] in folded
  {
    seq(|order|, j requires 0 <= j < |order| => Entry(order[j], folded[order[j]]))
  }

  /** The dictionary and the order of its first insertions list exactly the fold so far. */
  ghost predicate Holds(batch: seq<Datum>, order: seq<Key>, folded: map<Key, Stat>) {
    && (forall j :: 0 <= j < |order| ==> order[j] in folded)
    && (forall k :: k in folded ==> k in order)
    && Listed(order, folded) == Fold(batch)
    && Distinct(Fold(batch))
  }

  lemma HoldsNew(batch: seq<Datum>, d: Datum, order: seq<Key>, folded: map<Key, Stat>)
    requires Holds(batch, order, folded) && d.key !in folded
    ensures Holds(batch + [d], order + [d.key], folded[d.key := Single(d).stat])
  {
    assert (batch + [d])[..|batch|] == batch;
    var es := Fold(batch);
    KeysAreListed(es, order, folded, d.key);
    AddToAbsent(es, d);
    ListedMore(order, folded, d.key, Single(d).stat);
    assert Distinct(es + [Single(d)]);
  }

  lemma KeysAreListed(es: seq<Entry>, order: seq<Key>, folded: map<Key, Stat>, k: Key)
    requires (forall j :: 0 <= j < |order| ==> order[j] in folded) && es == Listed(order, folded) && k !in folded
    ensures Absent(es, k)
  {
  }

  lemma ListedMore(order: seq<Key>, folded: map<Key, Stat>, k: Key, stat: Stat)
    requires (forall j :: 0 <= j < |order| ==> order[j] in folded)
    requires (forall k :: k in folded ==> k in order) && k !in folded
    ensures forall j :: 0 <= j < |order + [k]| ==> (order + [k])[j] in folded[k := stat]
    ensures Listed(order + [k], folded[k := stat]) == Listed(order, folded) + [Entry(k, stat)]
    ensures forall k' :: k' in folded[k := stat] ==> k' in order + [k]
  {
    assert k in order + [k];
  }

  lemma HoldsJoined(batch: seq<Datum>, d: Datum, order: seq<Key>, folded: map<Key, Stat>)
    requires Holds(batch, order, folded) && d.key in folded
    ensures Holds(batch + [d], order, folded[d.key := Joined(folded[d.key], d.value)])
  {
    assert (batch + [d])[..|batch|] == batch;
    var j :| 0 <= j < |order| && order[j] == d.key;
    assert forall i :: 0 <= i < |order| ==> Fold(batch)[i] == Listed(order, folded)[i];
    AddToPresent(Fold(batch), d, j);
    assert Listed(order, folded[d.key := Joined(folded[d.key], d.value)]) == AddTo(Fold(batch), d);
  }

  /** Folds a window through a dictionary keyed by series, listed in insertion order. */
  method Aggregate(batch: seq<Datum>) returns (metricData: seq<Entry>)
    ensures metricData == Fold(batch)
  {
    var folded: map<Key, Stat>, order: seq<Key> := map[], [];
    var i := 0;
    while i < |batch|
      invariant i <= |batch| && Holds(batch[..i], order, folded)
    {
      var d := batch[i];
      assert batch[..i + 1] == batch[..i] + [d];
      if d.key !in folded {
        HoldsNew(batch[..i], d, order, folded);
        order, folded := order + [d.key], folded[d.key := Stat(1.0, d.value, d.value, d.value)];
      } else {
        HoldsJoined(batch[..i], d, order, folded);
        folded := folded[d.key := Joined(folded[d.key], d.value)];
      }
      i := i + 1;
    }
    assert batch[..i] == batch;
    metricData := seq(|order|, j requires 0 <= j < |order| => Entry(order[j], folded[order[j]]));
  }

  // ----- what a fold says of its window -----

  /** What is being added up: the samples of one series or (given none) of all, by number or by value. */
  datatype Measure = Number(of: Option<Key>) | Value(of: Option<Key>)

  predicate Selects(m: Measure, k: Key) { m.of.None? || m.of.value == k }

  function One(d: Datum, m: Measure): real { if !Selects(m, d.key) then 0.0 else if m.Value? then d.value else 1.0 }

  ghost function Samples(batch: seq<Datum>, m: Measure): real {
    if batch == [] then 0.0 else Samples(batch[..|batch| - 1], m) + One(batch[|batch| - 1], m)
  }

  function OneEntry(e: Entry, m: Measure): real {
    if !Selects(m, e.key) then 0.0 else if m.Value? then e.stat.sum else e.stat.count
  }

  ghost function Total(es: seq<Entry>, m: Measure): real {
    if es == [] then 0.0 else OneEntry(es[0], m) + Total(es[1..], m)
  }

  lemma {:induction false} AddToTotal(es: seq<Entry>, d: Datum, m: Measure)
    ensures Total(AddTo(es, d), m) == Total(es, m) + One(d, m)
  {
    if es != [] && es[0].key != d.key {
      AddToTotal(es[1..], d, m);
      assert AddTo(es, d)[1..] == AddTo(es[1..], d);
    } else if es != [] {
      assert AddTo(es, d)[1..] == es[1..];
    }
  }

  /** Folding loses no sample and counts none twice, in any one series or over all. */
  lemma {:induction false} FoldKeepsEverySample(batch: seq<Datum>, m: Measure)
    ensures Total(Fold(batch), m) == Samples(batch, m)
  {
    if batch != [] {
      FoldKeepsEverySample(batch[..|batch| - 1], m);
      AddToTotal(Fold(batch[..|batch| - 1]), batch[|batch| - 1], m);
    }
  }

  lemma {:induction false} AllSamples(batch: seq<Datum>)
    ensures Samples(batch, Number(None)) == |batch| as real
  {
    if batch != [] { AllSamples(batch[..|batch| - 1]); }
  }

  ghost predicate IsMinimum(batch: seq<Datum>, k: Key, v: real) {
    Datum(k, v) in batch && forall d :: d in batch && d.key == k ==> v <= d.value
  }

  ghost predicate IsMaximum(batch: seq<Datum>, k: Key, v: real) {
    Datum(k, v) in batch && forall d :: d in batch && d.key == k ==> d.value <= v
  }

  /** The entry's four numbers are those of the window filtered to its series. */
  ghost predicate Describes(batch: seq<Datum>, e: Entry) {
    && e.stat.count == Samples(batch, Number(Some(e.key))) && e.stat.sum == Samples(batch, Value(Some(e.key)))
    && IsMinimum(batch, e.key, e.stat.minimum)
    && IsMaximum(batch, e.key, e.stat.maximum)
  }

  lemma DescribesOther(batch: seq<Datum>, d: Datum, e: Entry)
    requires Describes(batch, e) && e.key != d.key
    ensures Describes(batch + [d], e)
  {
    assert (batch + [d])[..|batch|] == batch;
  }

  lemma DescribesJoined(batch: seq<Datum>, d: Datum, e: Entry)
    requires Describes(batch, e) && e.key == d.key
    ensures Describes(batch + [d], Entry(d.key, Joined(e.stat, d.value)))
  {
    assert (batch + [d])[..|batch|] == batch;
    assert d == Datum(d.key, d.value) && d in batch + [d];
    assert Datum(d.key, e.stat.minimum) in batch + [d] && Datum(d.key, e.stat.maximum) in batch + [d];
  }

  lemma {:induction false} NoSamples(batch: seq<Datum>, m: Measure)
    requires forall d :: d in batch ==> !Selects(m, d.key)
    ensures Samples(batch, m) == 0.0
  {
    if batch != [] {
      assert batch[|batch| - 1] in batch;
      NoSamples(batch[..|batch| - 1], m);
    }
  }

  lemma DescribesSingle(batch: seq<Datum>, d: Datum)
    requires forall x :: x in batch ==> x.key != d.key
    ensures Describes(batch + [d], Single(d))
  {
    assert (batch + [d])[..|batch|] == batch;
    NoSamples(batch, Number(Some(d.key)));
    NoSamples(batch, Value(Some(d.key)));
    assert d == Datum(d.key, d.value) && d in batch + [d];
  }

  /** One entry per distinct series of the window, and each describes its series. */
  ghost predicate IsFold(batch: seq<Datum>, es: seq<Entry>) {
    && Distinct(es)
    && (forall i :: 0 <= i < |es| ==> Describes(batch, es[i]))
    && (forall d :: d in batch ==> !Absent(es, d.key))
  }

  lemma {:induction false} FoldDescribesTheWindow(batch: seq<Datum>)
    ensures IsFold(batch, Fold(batch))
  {
    if batch != [] {
      var b, d := batch[..|batch| - 1], batch[|batch| - 1];
      FoldDescribesTheWindow(b);
      assert batch == b + [d];
      FoldStep(b, Fold(b), d);
    }
  }

  lemma FoldStep(b: seq<Datum>, es: seq<Entry>, d: Datum)
    requires IsFold(b, es)
    ensures IsFold(b + [d], AddTo(es, d))
  {
    if Absent(es, d.key) {
      FoldOpens(b, es, d);
    } else {
      var j :| 0 <= j < |es| && es[j].key == d.key;
      FoldJoins(b, es, d, j);
    }
  }

  lemma FoldOpens(b: seq<Datum>, es: seq<Entry>, d: Datum)
    requires IsFold(b, es) && Absent(es, d.key)
    ensures IsFold(b + [d], AddTo(es, d))
  {
    AddToAbsent(es, d);
    var out := es + [Single(d)];
    forall i | 0 <= i < |out| ensures Describes(b + [d], out[i]) {
      if i < |es| { DescribesOther(b, d, es[i]); } else { DescribesSingle(b, d); }
    }
    assert out[|es|].key == d.key;
    Covered(b, d, es, out);
  }

  lemma FoldJoins(b: seq<Datum>, es: seq<Entry>, d: Datum, j: nat)
    requires IsFold(b, es) && j < |es| && es[j].key == d.key
    ensures IsFold(b + [d], AddTo(es, d))
  {
    AddToPresent(es, d, j);
    var out := es[j := Entry(d.key, Joined(es[j].stat, d.value))];
    forall i | 0 <= i < |out| ensures Describes(b + [d], out[i]) {
      if i != j { DescribesOther(b, d, es[i]); } else { DescribesJoined(b, d, es[j]); }
    }
    assert out[j].key == d.key;
    Covered(b, d, es, out);
  }

  lemma Covered(b: seq<Datum>, d: Datum, es: seq<Entry>, out: seq<Entry>)
    requires forall x :: x in b ==> !Absent(es, x.key)
    requires |es| <= |out| && (forall i :: 0 <= i < |es| ==> out[i].key == es[i].key) && !Absent(out, d.key)
    ensures forall x :: x in b + [d] ==> !Absent(out, x.key)
  {
    forall x | x in b ensures !Absent(out, x.key) {
      var i :| 0 <= i < |es| && es[i].key == x.key;
      assert out[i].key == x.key;
    }
  }

  lemma {:induction false} SamplesAppend(a: seq<Datum>, b: seq<Datum>, m: Measure)
    ensures Samples(a + b, m) == Samples(a, m) + Samples(b, m)
  {
    if b == [] {
      assert a + b == a;
    } else {
      SamplesAppend(a, b[..|b| - 1], m);
      assert (a + b)[..|a + b| - 1] == a + b[..|b| - 1];
    }
  }

  lemma SamplesOfOne(d: Datum, m: Measure)
    ensures Samples([d], m) == One(d, m)
  {
    assert [d][..0] == [];
  }

  lemma {:induction false} SamplesIgnoreOrder(b1: seq<Datum>, b2: seq<Datum>, m: Measure)
    requires multiset(b1) == multiset(b2)
    ensures Samples(b1, m) == Samples(b2, m)
  {
    if b1 == [] {
      assert |multiset(b2)| == 0;
    } else {
      var before, d := b1[..|b1| - 1], b1[|b1| - 1];
      assert b1 == before + [d];
      var i := Located(d, before, b2);
      SamplesIgnoreOrder(before, b2[..i] + b2[i + 1..], m);
      SamplesAppend(b2[..i], b2[i + 1..], m);
      SamplesAppend(b2[..i], [d] + b2[i + 1..], m);
      SamplesAppend([d], b2[i + 1..], m);
      SamplesOfOne(d, m);
    }
  }

  lemma DescribesIgnoresOrder(b1: seq<Datum>, b2: seq<Datum>, e: Entry)
    requires multiset(b1) == multiset(b2) && Describes(b1, e)
    ensures Describes(b2, e)
  {
    SamplesIgnoreOrder(b1, b2, Number(Some(e.key)));
    SamplesIgnoreOrder(b1, b2, Value(Some(e.key)));
    assert forall d :: d in b1 <==> d in multiset(b1);
    assert forall d :: d in b2 <==> d in multiset(b2);
  }

  /** A window folds to the same entries whatever order its samples arrived in. */
  lemma FoldIgnoresOrder(b1: seq<Datum>, b2: seq<Datum>, e: Entry)
    requires multiset(b1) == multiset(b2)
    ensures e in Fold(b1) <==> e in Fold(b2)
  {
    if e in Fold(b1) { FoldedAlike(b1, b2, e); }
    if e in Fold(b2) { FoldedAlike(b2, b1, e); }
  }

  lemma FoldedAlike(b1: seq<Datum>, b2: seq<Datum>, e: Entry)
    requires multiset(b1) == multiset(b2) && e in Fold(b1)
    ensures e in Fold(b2)
  {
    FoldDescribesTheWindow(b1);
    DescribesIgnoresOrder(b1, b2, e);
    FoldDescribesTheWindow(b2);
    TheEntry(b2, Fold(b2), e);
  }

  lemma TheEntry(b: seq<Datum>, es: seq<Entry>, e: Entry)
    requires IsFold(b, es) && Describes(b, e)
    ensures e in es
  {
    assert Datum(e.key, e.stat.minimum) in b;
    var i :| 0 <= i < |es| && es[i].key == e.key;
    assert Describes(b, es[i]);
    assert es[i].stat == e.stat;
  }
}
