/** The de-duplication identity of an alert-rule episode,
    `rule:<fingerprint>:<subject>:<ordinal>`, and the two ways it is read back:
    split on colons, and matched by prefix. */
module DedupKeys {
  import opened Options

  predicate NoColon(s: string) { ':' !in s }

  function Digit(d: nat): (c: char)
    requires d < 10
    ensures c != ':' && '0' <= c <= '9'
  {
    '0' + d as char
  }

  function Decimal(n: nat): string {
    if n < 10 then [Digit(n)] else Decimal(n / 10) + [Digit(n % 10)]
  }

  function DedupPrefix(fingerprint: string, subject: string): string {
    "rule:" + fingerprint + ":" + subject + ":"
  }

  function DedupKey(fingerprint: string, subject: string, ordinal: nat): string {
    DedupPrefix(fingerprint, subject) + Decimal(ordinal)
  }

  // ----- str.split(":") and ":".join -----

  function Split(s: string): (parts: seq<string>)
    ensures |parts| >= 1
  {
    if s == "" then [""] else Prepend(s[0], Split(s[1..]))
  }

  function Prepend(c: char, parts: seq<string>): (longer: seq<string>)
    requires |parts| >= 1
    ensures |longer| >= 1
  {
    if c == ':' then [""] + parts else [[c] + parts[0]] + parts[1..]
  }

  lemma PrependFirst(c: char, parts: seq<string>, more: seq<string>)
    requires |parts| >= 1
    ensures Prepend(c, parts + more) == Prepend(c, parts) + more
  {
  }

  function Join(parts: seq<string>): string {
    if parts == [] then ""
    else if |parts| == 1 then parts[0]
    else parts[0] + ":" + Join(parts[1..])
  }

  /** How the reset recovers a series from a stored key. */
  function SeriesOf(key: string): Option<(string, string)> {
    var parts := Split(key);
    if |parts| < 4 then None else Some((parts[1], Join(parts[2..|parts| - 1])))
  }

  lemma {:induction false} DecimalHasNoColon(n: nat)
    ensures Decimal(n) != "" && NoColon(Decimal(n))
  {
    if n >= 10 { DecimalHasNoColon(n / 10); }
  }

  ghost function NumberOf(digits: string): int {
    if digits == "" then 0 else 10 * NumberOf(digits[..|digits| - 1]) + (digits[|digits| - 1] as int - '0' as int)
  }

  /** Read as a decimal number it is the ordinal again. */
  lemma {:induction false} DecimalRoundTrip(n: nat)
    ensures NumberOf(Decimal(n)) == n
  {
    var d := Decimal(n);
    if n >= 10 {
      DecimalRoundTrip(n / 10);
      assert d[..|d| - 1] == Decimal(n / 10);
    } else {
      assert d[..0] == "";
    }
  }

  lemma {:induction false} DecimalInjective(m: nat, n: nat)
    requires Decimal(m) == Decimal(n)
    ensures m == n
  {
    DecimalHasNoColon(m / 10);
    DecimalHasNoColon(n / 10);
    var a, b := Decimal(m), Decimal(n);
    assert a[|a| - 1] == Digit(m % 10) && b[|b| - 1] == Digit(n % 10);
    if m >= 10 && n >= 10 {
      assert Decimal(m / 10) == a[..|a| - 1] && Decimal(n / 10) == b[..|b| - 1];
      DecimalInjective(m / 10, n / 10);
    }
  }

  lemma {:induction false} JoinOfSplit(s: string)
    ensures Join(Split(s)) == s
  {
    if s != "" {
      JoinOfSplit(s[1..]);
      var rest := Split(s[1..]);
      if s[0] == ':' {
        assert Split(s)[1..] == rest;
      } else {
        assert Split(s)[1..] == rest[1..];
      }
    }
  }

  lemma {:induction false} SplitAtColon(a: string, b: string)
    ensures Split(a + ":" + b) == Split(a) + Split(b)
  {
    var s := a + ":" + b;
    if a == "" {
      assert s[0] == ':' && s[1..] == b;
    } else {
      SplitAtColon(a[1..], b);
      assert s[0] == a[0] && s[1..] == a[1..] + ":" + b;
      PrependFirst(a[0], Split(a[1..]), Split(b));
    }
  }

  ghost function Colons(s: string): nat { if s == "" then 0 else Colons(s[1..]) + if s[0] == ':' then 1 else 0 }

  lemma {:induction false} SplitAtEveryColon(s: string)
    ensures |Split(s)| == Colons(s) + 1
  {
    if s != "" { SplitAtEveryColon(s[1..]); }
  }

  /** Exactly the keys with fewer than three colons name no series. */
  lemma ShortKeysNameNoSeries(key: string)
    ensures SeriesOf(key).None? <==> Colons(key) < 3
  {
    SplitAtEveryColon(key);
  }

  lemma {:induction false} SplitWithoutColon(s: string)
    requires NoColon(s)
    ensures Split(s) == [s]
  {
    if s != "" {
      SplitWithoutColon(s[1..]);
      assert [s[0]] + s[1..] == s;
    }
  }

  lemma SplitField(field: string, rest: string)
    requires NoColon(field)
    ensures Split(field + ":" + rest) == [field] + Split(rest)
  {
    SplitWithoutColon(field);
    SplitAtColon(field, rest);
  }

  /** Splitting a built key recovers its fingerprint and its subject, whatever
      colons the subject contains. */
  lemma SeriesRoundTrip(fingerprint: string, subject: string, ordinal: nat)
    requires NoColon(fingerprint)
    ensures SeriesOf(DedupKey(fingerprint, subject, ordinal)) == Some((fingerprint, subject))
  {
    var key, n := DedupKey(fingerprint, subject, ordinal), Decimal(ordinal);
    DecimalHasNoColon(ordinal);
    assert key == "rule" + ":" + (fingerprint + ":" + (subject + ":" + n));
    FieldsOf("rule", fingerprint, subject, n);
    var parts := Split(key);
    assert parts[2..|parts| - 1] == Split(subject);
    JoinOfSplit(subject);
  }

  lemma FieldsOf(rule: string, fingerprint: string, subject: string, n: string)
    requires NoColon(rule) && NoColon(fingerprint) && NoColon(n)
    ensures Split(rule + ":" + (fingerprint + ":" + (subject + ":" + n))) == [rule, fingerprint] + Split(subject) + [n]
  {
    var tail := subject + ":" + n;
    var rest := fingerprint + ":" + tail;
    assert Split(rule + ":" + rest) == [rule] + Split(rest) by { SplitField(rule, rest); }
    assert Split(rest) == [fingerprint] + Split(tail) by { SplitField(fingerprint, tail); }
    assert Split(tail) == Split(subject) + [n] by { SplitAtColon(subject, n); SplitWithoutColon(n); }
    Regroup(rule, fingerprint, Split(subject), n);
  }

  lemma Regroup(a: string, b: string, middle: seq<string>, z: string)
    ensures [a] + ([b] + (middle + [z])) == [a, b] + middle + [z]
  {
  }

  /** Two keys are equal only if they name the same episode of the same series. */
  lemma DedupKeyInjective(f: string, s: string, m: nat, f': string, s': string, n: nat)
    requires NoColon(f) && NoColon(f') && DedupKey(f, s, m) == DedupKey(f', s', n)
    ensures f == f' && s == s' && m == n
  {
    SeriesRoundTrip(f, s, m);
    SeriesRoundTrip(f', s', n);
    var a, b := DedupKey(f, s, m), DedupKey(f', s', n);
    var k := |DedupPrefix(f, s)|;
    assert Decimal(m) == a[k..] && Decimal(n) == b[k..];
    DecimalInjective(m, n);
  }

  lemma HeadChar(f: string, rest: string)
    ensures f + ":" + rest != "" && (f + ":" + rest)[0] == if f == "" then ':' else f[0]
  {
  }

  lemma {:induction false} ColonFreeHead(f: string, rest: string, f': string, rest': string)
    requires NoColon(f) && NoColon(f') && f + ":" + rest <= f' + ":" + rest'
    ensures f == f' && rest <= rest'
  {
    var a, b := f + ":" + rest, f' + ":" + rest';
    HeadChar(f, rest);
    HeadChar(f', rest');
    assert a[0] == b[0];
    if f == "" {
      assert rest == a[1..] && rest' == b[1..];
    } else {
      assert a[1..] == f[1..] + ":" + rest && b[1..] == f'[1..] + ":" + rest';
      ColonFreeHead(f[1..], rest, f'[1..], rest');
    }
  }

  /** Exactly which keys a series prefix matches: its own episodes, and those of
      subjects that extend its subject by a colon. */
  lemma PrefixMatchIff(f: string, s: string, f': string, s': string, n: nat)
    requires NoColon(f) && NoColon(f')
    ensures DedupPrefix(f, s) <= DedupKey(f', s', n) <==> f == f' && (s == s' || s + ":" <= s')
  {
    var p, k, d := DedupPrefix(f, s), DedupKey(f', s', n), Decimal(n);
    DecimalHasNoColon(n);
    assert p == "rule:" + (f + ":" + (s + ":")) && k == "rule:" + (f' + ":" + (s' + ":" + d));
    if p <= k {
      assert f + ":" + (s + ":") == p[5..] && f' + ":" + (s' + ":" + d) == k[5..];
      ColonFreeHead(f, s + ":", f', s' + ":" + d);
      SubjectTail(s, s', d);
    }
    if f == f' && s + ":" <= s' { LongerSubject("rule:" + f + ":", s + ":", s', ":" + d); }
  }

  lemma LongerSubject(head: string, s: string, s': string, tail: string)
    requires s <= s'
    ensures head + s <= head + s' + tail
  {
  }

  lemma SubjectTail(s: string, s': string, d: string)
    requires NoColon(d) && s + ":" <= s' + ":" + d
    ensures s == s' || s + ":" <= s'
  {
    var whole := s' + ":" + d;
    assert whole[|s|] == ':' && s == whole[..|s|];
    if |s| > |s'| {
      assert false;
    } else if |s| < |s'| {
      assert s + ":" == whole[..|s| + 1] == s'[..|s| + 1];
    } else {
      assert s == whole[..|s'|] == s';
    }
  }

  lemma ExtendedSubjectHasColon(s: string, s': string)
    requires s + ":" <= s'
    ensures !NoColon(s')
  {
    assert s'[|s|] == ':';
  }

  /** Between colon-free subjects a prefix therefore selects exactly one series. */
  lemma ColonFreePrefixSelectsOneSeries(f: string, s: string, f': string, s': string, n: nat)
    requires NoColon(f) && NoColon(f') && NoColon(s')
    ensures DedupPrefix(f, s) <= DedupKey(f', s', n) <==> f == f' && s == s'
  {
    PrefixMatchIff(f, s, f', s', n);
    if s + ":" <= s' { ExtendedSubjectHasColon(s, s'); }
  }
}
