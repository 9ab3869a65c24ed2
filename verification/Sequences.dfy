/** Facts about sequences that several protocols share: where an element of a
    reordered sequence stands, and a stable sort by an integer key. */
module Sequences {
  function Min(a: int, b: int): int { if a <= b then a else b }
  function Max(a: int, b: int): int { if a >= b then a else b }

  /** If b is a reordering of `rest` and x, where x stands in it, and what it is without x. */
  lemma Located<T>(x: T, rest: seq<T>, b: seq<T>) returns (i: nat)
    requires multiset(rest) + multiset{x} == multiset(b)
    ensures i < |b| && b == b[..i] + ([x] + b[i + 1..])
    ensures multiset(rest) == multiset(b[..i] + b[i + 1..])
  {
    assert x in multiset(b);
    i :| 0 <= i < |b| && b[i] == x;
    var before, after := b[..i], b[i + 1..];
    assert b == before + ([x] + after);
    assert multiset(b) == multiset(before + after) + multiset{x};
    assert multiset(rest) == multiset(b) - multiset{x};
  }

  // ----- stable sort, smallest key first -----

  function InsertBy<T>(x: T, sorted: seq<T>, key: T -> int): seq<T> {
    if sorted == [] || key(x) <= key(sorted[0]) then [x] + sorted
    else [sorted[0]] + InsertBy(x, sorted[1..], key)
  }

  function SortBy<T>(s: seq<T>, key: T -> int): seq<T> {
    if s == [] then [] else InsertBy(s[0], SortBy(s[1..], key), key)
  }

  ghost predicate OrderedBy<T>(s: seq<T>, key: T -> int) {
    forall i :: 0 < i < |s| ==> key(s[i - 1]) <= key(s[i])
  }

  lemma {:induction false} InsertKeepsOrder<T>(x: T, sorted: seq<T>, key: T -> int)
    requires OrderedBy(sorted, key)
    ensures OrderedBy(InsertBy(x, sorted, key), key)
    ensures InsertBy(x, sorted, key)[0] == x || (sorted != [] && InsertBy(x, sorted, key)[0] == sorted[0])
  {
    if sorted != [] && key(x) > key(sorted[0]) { InsertKeepsOrder(x, sorted[1..], key); }
  }

  lemma {:induction false} InsertAddsOne<T>(x: T, sorted: seq<T>, key: T -> int)
    ensures multiset(InsertBy(x, sorted, key)) == multiset(sorted) + multiset{x}
  {
    if sorted != [] && key(x) > key(sorted[0]) {
      InsertAddsOne(x, sorted[1..], key);
      assert sorted == [sorted[0]] + sorted[1..];
    }
  }

  lemma {:induction false} SortIsOrdered<T>(s: seq<T>, key: T -> int)
    ensures OrderedBy(SortBy(s, key), key)
  {
    if s != [] {
      SortIsOrdered(s[1..], key);
      InsertKeepsOrder(s[0], SortBy(s[1..], key), key);
    }
  }

  lemma {:induction false} SortIsPermutation<T>(s: seq<T>, key: T -> int)
    ensures multiset(SortBy(s, key)) == multiset(s)
  {
    if s != [] {
      SortIsPermutation(s[1..], key);
      InsertAddsOne(s[0], SortBy(s[1..], key), key);
      assert s == [s[0]] + s[1..];
    }
  }

  lemma {:induction false} SortOfOrdered<T>(s: seq<T>, key: T -> int)
    requires OrderedBy(s, key)
    ensures SortBy(s, key) == s
  {
    if s != [] {
      SortOfOrdered(s[1..], key);
      assert s == [s[0]] + s[1..];
    }
  }

  lemma {:induction false} OrderedRange<T>(s: seq<T>, key: T -> int, i: nat, j: nat)
    requires OrderedBy(s, key) && i <= j < |s|
    ensures key(s[i]) <= key(s[j])
    decreases j
  {
    if i < j { OrderedRange(s, key, i, j - 1); }
  }
}
