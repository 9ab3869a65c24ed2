/** The emitting side of the metrics module: sanitising, queueing, flushing and
    stopping, and where every emitted sample ends up over a whole run. */
module MetricsEmitter {
  import opened Options
  import opened Metrics

  type ValueSets = map<string, set<string>>
  type Dimensions = seq<(string, string)>    // a dictionary's items in insertion order

  // ----- the cardinality guard -----

  function ValuesOf(m: ValueSets, name: string): set<string> { if name in m then m[name] else {} }

  /** The value a dimension shows: an allow-list decides if there is one, else the cap. */
  function Shown(allowed: ValueSets, seen: ValueSets, name: string, raw: string): string {
    if name in allowed then if raw in allowed[name] then raw else OTHER_VALUE
    else if raw in ValuesOf(seen, name) || |ValuesOf(seen, name)| < MAX_DIMENSION_VALUES then raw
    else OTHER_VALUE
  }

  function SeenAfter(allowed: ValueSets, seen: ValueSets, name: string, raw: string): ValueSets {
    if name in allowed then seen
    else
      var values := ValuesOf(seen, name);
      seen[name := if |values| < MAX_DIMENSION_VALUES then values + {raw} else values]
  }

  datatype Clean = Clean(out: map<string, string>, seen: ValueSets)

  function Sanitised(allowed: ValueSets, seen: ValueSets, dims: Dimensions): Clean {
    if dims == [] then Clean(map[], seen)
    else
      var c, (name, raw) := Sanitised(allowed, seen, dims[..|dims| - 1]), dims[|dims| - 1];
      Clean(c.out[name := Shown(allowed, c.seen, name, raw)], SeenAfter(allowed, c.seen, name, raw))
  }

  predicate DistinctNames(dims: Dimensions) {
    forall i, j :: 0 <= i < j < |dims| ==> dims[i].0 != dims[j].0
  }

  /** Dimension by dimension: a dictionary's names are kept, each shows what it would show alone,
      and only the values seen under its own name decide it. */
  lemma {:induction false} SanitisedAlone(allowed: ValueSets, seen: ValueSets, dims: Dimensions, name: string)
    requires DistinctNames(dims)
    ensures var c := Sanitised(allowed, seen, dims);
      && (name in c.out <==> exists i :: 0 <= i < |dims| && dims[i].0 == name)
      && (forall i :: 0 <= i < |dims| && dims[i].0 == name ==> c.out[name] == Shown(allowed, seen, name, dims[i].1))
      && (name !in c.out ==> ValuesOf(c.seen, name) == ValuesOf(seen, name))
  {
    if dims != [] {
      var before, last := dims[..|dims| - 1], dims[|dims| - 1];
      SanitisedAlone(allowed, seen, before, name);
      SanitisedAlone(allowed, seen, before, last.0);
      assert forall i :: 0 <= i < |before| ==> before[i] == dims[i];
    }
  }

  // ----- chunked sends -----

  function FirstChunk(es: seq<Entry>, size: nat): seq<Entry> { if |es| <= size then es else es[..size] }
  function RestChunk(es: seq<Entry>, size: nat): seq<Entry> { if |es| <= size then [] else es[size..] }

  function Chunks(es: seq<Entry>, size: nat): seq<seq<Entry>>
    requires size > 0
    decreases |es|
  {
    if es == [] then [] else [FirstChunk(es, size)] + Chunks(RestChunk(es, size), size)
  }

  /** Takes one datum after another until the queue is empty. */
  method TakeAll(q: seq<Datum>) returns (batch: seq<Datum>, left: seq<Datum>)
    ensures batch == q && left == []
  {
    batch, left := [], q;
    while left != []
      invariant batch + left == q
      decreases |left|
    {
      batch, left := batch + [left[0]], left[1..];
    }
  }

  /** Hands a flush over call by call. */
  method SendAll(metricData: seq<Entry>, size: nat) returns (calls: seq<seq<Entry>>)
    requires size > 0
    ensures calls == Chunks(metricData, size)
  {
    calls := [];
    var rest := metricData;
    while rest != []
      invariant calls + Chunks(rest, size) == Chunks(metricData, size)
      decreases |rest|
    {
      calls, rest := calls + [FirstChunk(rest, size)], RestChunk(rest, size);
    }
  }

  // ----- the module's state and its steps -----

  /** `unsent` is what a flush in progress has folded but not yet handed over; `calls` lists
      what was handed over, call by call: submitted to the executor that sends it. */
  datatype State = State(allowed: ValueSets, seen: ValueSets, queue: Option<seq<Datum>>, dropped: nat,
                         unsent: seq<Entry>, calls: seq<seq<Entry>>)

  datatype Sample = Sample(metric: string, value: real, unit: string, dims: Dimensions)

  function DatumOf(s: State, x: Sample): Datum {
    Datum(Key(x.metric, x.unit, Sanitised(s.allowed, s.seen, x.dims).out), x.value)
  }

  predicate Accepts(s: State) { s.queue.Some? && |s.queue.value| < QUEUE_MAXSIZE }

  function Registered(s: State, name: string, values: set<string>): State {
    s.(allowed := s.allowed[name := ValuesOf(s.allowed, name) + values])
  }

  function Enqueued(s: State, x: Sample): State {
    if s.queue.None? then s.(dropped := s.dropped + 1)
    else
      var t := s.(seen := Sanitised(s.allowed, s.seen, x.dims).seen);
      if Accepts(s) then t.(queue := Some(s.queue.value + [DatumOf(s, x)])) else t.(dropped := s.dropped + 1)
  }

  function SentOne(s: State): State {
    if s.unsent == [] then s
    else s.(unsent := RestChunk(s.unsent, MAX_DATUMS_PER_CALL),
            calls := s.calls + [FirstChunk(s.unsent, MAX_DATUMS_PER_CALL)])
  }

  /** A flush up to its first suspension: the whole queue is drained and folded,
      and the first chunk handed over. Later chunks follow by SentOne. */
  function Drained(s: State): State {
    if s.queue.None? || s.unsent != [] then s else SentOne(s.(queue := Some([]), unsent := Fold(s.queue.value)))
  }

  /** A flush that nothing interrupts. */
  function Flushed(s: State, size: nat): State
    requires s.queue.Some? && size > 0
  {
    s.(queue := Some([]), calls := s.calls + Chunks(Fold(s.queue.value), size))
  }

  function Started(s: State): State { if s.queue.Some? then s else s.(queue := Some([])) }

  /** Stopping cancels the flush in progress, then flushes what is still queued. */
  function Stopped(s: State, size: nat): State
    requires size > 0
  {
    if s.queue.None? then s else Flushed(s, size).(queue := None, unsent := [])
  }

  class Emitter {
    var allowed: ValueSets
    var seen: ValueSets
    var queue: Option<seq<Datum>>
    var dropped: nat
    var unsent: seq<Entry>
    var calls: seq<seq<Entry>>

    ghost function View(): State
      reads this
    {
      State(allowed, seen, queue, dropped, unsent, calls)
    }

    constructor ()
      ensures View() == State(map[], map[], None, 0, [], [])
    {
      allowed, seen, queue, dropped, unsent, calls := map[], map[], None, 0, [], [];
    }

    method RegisterDimensionValues(name: string, values: set<string>)
      modifies this
      ensures View() == Registered(old(View()), name, values)
      ensures allowed.Keys == old(allowed).Keys + {name}
      ensures allowed[name] == (if name in old(allowed) then old(allowed)[name] else {}) + values
      ensures forall n :: n in allowed && n != name ==> allowed[n] == old(allowed)[n]
    {
      var existing := if name in allowed then allowed[name] else {};
      allowed := allowed[name := existing + values];
    }

    method SanitiseDimensions(dims: Dimensions) returns (out: map<string, string>)
      modifies this
      ensures View() == old(View()).(seen := Sanitised(allowed, old(seen), dims).seen)
      ensures out == Sanitised(allowed, old(seen), dims).out
    {
      out := map[];
      var i := 0;
      while i < |dims|
        invariant i <= |dims| && View() == old(View()).(seen := seen)
        invariant Clean(out, seen) == Sanitised(allowed, old(seen), dims[..i])
      {
        assert dims[..i + 1][..i] == dims[..i];
        var (name, value) := dims[i];
        value := SanitiseOne(name, value);
        out := out[name := value];
        i := i + 1;
      }
      assert dims[..i] == dims;
    }

    method SanitiseOne(name: string, raw: string) returns (value: string)
      modifies this
      ensures value == Shown(allowed, old(seen), name, raw)
      ensures var values := if name in old(seen) then old(seen)[name] else {};
        if name in allowed then seen == old(seen) && value == (if raw in allowed[name] then raw else "other")
        else if raw in values then value == raw && seen == old(seen)
        else if |values| < 100 then value == raw && seen == old(seen)[name := values + {raw}]
        else value == "other" && seen == old(seen)[name := values]
      ensures View() == old(View()).(seen := SeenAfter(allowed, old(seen), name, raw))
    {
      value := raw;
      if name in allowed {
        if value !in allowed[name] { value := OTHER_VALUE; }
      } else {
        if name !in seen { seen := seen[name := {}]; }
        if value !in seen[name] {
          if |seen[name]| >= MAX_DIMENSION_VALUES {
            value := OTHER_VALUE;
          } else {
            seen := seen[name := seen[name] + {value}];
          }
        } else {
          assert seen[name] + {value} == seen[name];
        }
      }
    }

    /** Never waits: with no emitter, or a full queue, the sample is dropped and counted. */
    method Enqueue(x: Sample)
      modifies this
      ensures View() == Enqueued(old(View()), x)
      ensures old(queue).None? ==> queue == None && seen == old(seen)
      ensures dropped == old(dropped) + if old(queue).Some? && |old(queue).value| < 10_000 then 0 else 1
      ensures old(queue).Some? && |old(queue).value| >= 10_000 ==> queue == old(queue)
      ensures old(queue).Some? && |old(queue).value| < 10_000 ==>
        && queue.Some? && |queue.value| == |old(queue).value| + 1 && old(queue).value <= queue.value
        && var d := queue.value[|queue.value| - 1];
           d.value == x.value && d.key.metric == x.metric && d.key.unit == x.unit
           && d.key.dimensions == Sanitised(allowed, old(seen), x.dims).out
    {
      if queue.None? {
        dropped := dropped + 1;
        return;
      }
      var clean := SanitiseDimensions(x.dims);
      if |queue.value| < QUEUE_MAXSIZE {
        queue := Some(queue.value + [Datum(Key(x.metric, x.unit, clean), x.value)]);
      } else {
        dropped := dropped + 1;
      }
    }

    method FlushOnce(q: seq<Datum>) returns (left: seq<Datum>, sent: nat)
      modifies this
      ensures left == [] && sent == |q|
      ensures View() == old(View()).(calls := old(calls) + Chunks(Fold(q), MAX_DATUMS_PER_CALL))
    {
      var batch;
      batch, left := TakeAll(q);
      sent := |batch|;
      var metricData := Aggregate(batch);
      var more := SendAll(metricData, MAX_DATUMS_PER_CALL);
      calls := calls + more;
    }

    /** The emitter task's flush up to its first suspension; nothing while one is in progress. */
    method DrainQueue()
      modifies this
      ensures View() == Drained(old(View()))
    {
      if queue.None? || unsent != [] { return; }
      unsent := Aggregate(queue.value);
      queue := Some([]);
      SendNext();
    }

    /** The next call of the flush in progress. */
    method SendNext()
      modifies this
      ensures View() == SentOne(old(View()))
    {
      if unsent != [] {
        calls := calls + [FirstChunk(unsent, MAX_DATUMS_PER_CALL)];
        unsent := RestChunk(unsent, MAX_DATUMS_PER_CALL);
      }
    }

    method StartEmitter()
      modifies this
      ensures View() == Started(old(View()))
    {
      if queue.None? { queue := Some([]); }
    }

    method StopEmitter()
      modifies this
      ensures View() == Stopped(old(View()), MAX_DATUMS_PER_CALL)
    {
      var q := queue;
      queue := None;
      if q.Some? {
        unsent := [];
        var _, _ := FlushOnce(q.value);
      }
    }
  }

  // ----- an interleaved flush is the uninterrupted one -----

  ghost function SentTimes(s: State, n: nat): State
    decreases n
  {
    if n == 0 then s else SentTimes(SentOne(s), n - 1)
  }

  /** However a flush's sends are spread out, they hand over the same chunks as one uninterrupted flush. */
  lemma {:induction false} SendsFinish(s: State, n: nat)
    requires n >= |Chunks(s.unsent, MAX_DATUMS_PER_CALL)|
    ensures SentTimes(s, n) == s.(unsent := [], calls := s.calls + Chunks(s.unsent, MAX_DATUMS_PER_CALL))
    decreases n
  {
    if n > 0 {
      var t := SentOne(s);
      assert s.calls + Chunks(s.unsent, MAX_DATUMS_PER_CALL) == t.calls + Chunks(t.unsent, MAX_DATUMS_PER_CALL);
      SendsFinish(t, n - 1);
    }
  }

  // ----- runs -----

  datatype Event = Register(name: string, values: set<string>) | Emit(sample: Sample) | Drain | SendNext | Start | Stop

  function Step(s: State, e: Event): State {
    match e
    case Register(name, values) => Registered(s, name, values)
    case Emit(x) => Enqueued(s, x)
    case Drain => Drained(s)
    case SendNext => SentOne(s)
    case Start => Started(s)
    case Stop => Stopped(s, MAX_DATUMS_PER_CALL)
  }

  function After(events: seq<Event>): State {
    if events == [] then State(map[], map[], None, 0, [], [])
    else Step(After(events[..|events| - 1]), events[|events| - 1])
  }

  ghost function Emitted(events: seq<Event>): nat {
    if events == [] then 0 else Emitted(events[..|events| - 1]) + if events[|events| - 1].Emit? then 1 else 0
  }

  ghost function Gained(s: State, e: Event): seq<Datum> { if e.Emit? && Accepts(s) then [DatumOf(s, e.sample)] else [] }
  ghost function Cut(s: State, e: Event): seq<Entry> { if e.Stop? && s.queue.Some? then s.unsent else [] }

  /** The data that entered the queue, in order. */
  ghost function Accepted(events: seq<Event>): seq<Datum> {
    if events == [] then []
    else Accepted(events[..|events| - 1]) + Gained(After(events[..|events| - 1]), events[|events| - 1])
  }

  /** What stops cut off in the middle of a flush. */
  ghost function CutOff(events: seq<Event>): seq<Entry> {
    if events == [] then []
    else CutOff(events[..|events| - 1]) + Cut(After(events[..|events| - 1]), events[|events| - 1])
  }

  function Waiting(s: State): seq<Datum> { if s.queue.Some? then s.queue.value else [] }

  ghost function Handed(calls: seq<seq<Entry>>, m: Measure): real {
    if calls == [] then 0.0 else Total(calls[0], m) + Handed(calls[1..], m)
  }

  lemma {:induction false} TotalAppend(a: seq<Entry>, b: seq<Entry>, m: Measure)
    ensures Total(a + b, m) == Total(a, m) + Total(b, m)
  {
    if a == [] {
      assert a + b == b;
    } else {
      var c := a + b;
      assert c[0] == a[0] && c[1..] == a[1..] + b;
      var x, y, z := OneEntry(a[0], m), Total(a[1..], m), Total(b, m);
      assert Total(c, m) == x + y + z by { TotalAppend(a[1..], b, m); }
      assert Total(a, m) == x + y;
    }
  }

  lemma {:induction false} HandedAppend(a: seq<seq<Entry>>, b: seq<seq<Entry>>, m: Measure)
    ensures Handed(a + b, m) == Handed(a, m) + Handed(b, m)
  {
    if a == [] {
      assert a + b == b;
    } else {
      var c := a + b;
      assert c[0] == a[0] && c[1..] == a[1..] + b;
      var x, y, z := Total(a[0], m), Handed(a[1..], m), Handed(b, m);
      assert Handed(c, m) == x + y + z by { HandedAppend(a[1..], b, m); }
      assert Handed(a, m) == x + y;
    }
  }

  lemma ChunkSplit(es: seq<Entry>, size: nat, m: Measure)
    ensures Total(FirstChunk(es, size), m) + Total(RestChunk(es, size), m) == Total(es, m)
  {
    TotalAppend(FirstChunk(es, size), RestChunk(es, size), m);
    assert FirstChunk(es, size) + RestChunk(es, size) == es;
  }

  lemma {:induction false} ChunksHandAll(es: seq<Entry>, size: nat, m: Measure)
    requires size > 0
    ensures Handed(Chunks(es, size), m) == Total(es, m)
    decreases |es|
  {
    if es != [] {
      ChunkSplit(es, size, m);
      ChunksHandAll(RestChunk(es, size), size, m);
      assert Chunks(es, size)[1..] == Chunks(RestChunk(es, size), size);
    }
  }

  /** Samples the module still holds or has handed over. */
  ghost function Held(s: State, m: Measure): real {
    Handed(s.calls, m) + Total(s.unsent, m) + Samples(Waiting(s), m)
  }

  lemma HandedOneMore(calls: seq<seq<Entry>>, c: seq<Entry>, m: Measure)
    ensures Handed(calls + [c], m) == Handed(calls, m) + Total(c, m)
  {
    HandedAppend(calls, [c], m);
    assert [c][1..] == [];
  }

  lemma SendKeepsHeld(s: State, m: Measure)
    ensures Held(SentOne(s), m) == Held(s, m)
  {
    if s.unsent != [] {
      ChunkSplit(s.unsent, MAX_DATUMS_PER_CALL, m);
      HandedOneMore(s.calls, FirstChunk(s.unsent, MAX_DATUMS_PER_CALL), m);
    }
  }

  lemma DrainKeepsHeld(s: State, m: Measure)
    ensures Held(Drained(s), m) == Held(s, m)
  {
    if s.queue.Some? && s.unsent == [] {
      var t := s.(queue := Some([]), unsent := Fold(s.queue.value));
      FoldKeepsEverySample(s.queue.value, m);
      assert Held(t, m) == Held(s, m);
      SendKeepsHeld(t, m);
    }
  }

  lemma StopKeepsAllButUnsent(s: State, size: nat, m: Measure)
    requires s.queue.Some? && size > 0
    ensures Held(Stopped(s, size), m) + Total(s.unsent, m) == Held(s, m)
  {
    var q := s.queue.value;
    var h, u, w := Handed(s.calls, m), Total(s.unsent, m), Samples(q, m);
    var t := Stopped(s, size);
    assert Handed(t.calls, m) == h + w by {
      FoldKeepsEverySample(q, m);
      ChunksHandAll(Fold(q), size, m);
      HandedAppend(s.calls, Chunks(Fold(q), size), m);
    }
  }

  lemma EmitAddsOne(s: State, x: Sample, m: Measure)
    ensures Held(Enqueued(s, x), m) == Held(s, m) + Samples(Gained(s, Emit(x)), m)
    ensures Enqueued(s, x).dropped == s.dropped + 1 - |Gained(s, Emit(x))|
  {
    if Accepts(s) { SamplesAppend(s.queue.value, [DatumOf(s, x)], m); }
  }

  /** Each step gains the sample it queued and loses what it cut off, and no more. */
  lemma StepBalances(s: State, e: Event, m: Measure)
    ensures Held(Step(s, e), m) + Total(Cut(s, e), m) == Held(s, m) + Samples(Gained(s, e), m)
    ensures Step(s, e).dropped == s.dropped + (if e.Emit? then 1 else 0) - |Gained(s, e)|
  {
    match e
    case Emit(x) => EmitAddsOne(s, x, m);
    case Drain => DrainKeepsHeld(s, m);
    case SendNext => SendKeepsHeld(s, m);
    case Stop => if s.queue.Some? { StopKeepsAllButUnsent(s, MAX_DATUMS_PER_CALL, m); }
    case Register(_, _) =>
    case Start =>
  }

  /** In every series and over all of them, the samples ever queued are those handed to
      the sender, those awaiting a send or in the queue, and those a stop cut off. */
  lemma {:induction false} EverySampleIsAccountedFor(events: seq<Event>, m: Measure)
    ensures Samples(Accepted(events), m) == Held(After(events), m) + Total(CutOff(events), m)
    ensures Emitted(events) == |Accepted(events)| + After(events).dropped
  {
    if events != [] {
      var before, e := events[..|events| - 1], events[|events| - 1];
      var s := After(before);
      EverySampleIsAccountedFor(before, m);
      StepBalances(s, e, m);
      SamplesAppend(Accepted(before), Gained(s, e), m);
      TotalAppend(CutOff(before), Cut(s, e), m);
    }
  }

  // ----- exactly when the books balance without the cut-off term -----

  ghost predicate Counted(es: seq<Entry>) { forall i :: 0 <= i < |es| ==> es[i].stat.count >= 1.0 }

  lemma {:induction false} FoldCounted(batch: seq<Datum>)
    ensures Counted(Fold(batch))
  {
    if batch != [] {
      FoldCounted(batch[..|batch| - 1]);
      AddToCounted(Fold(batch[..|batch| - 1]), batch[|batch| - 1]);
    }
  }

  lemma {:induction false} AddToCounted(es: seq<Entry>, d: Datum)
    requires Counted(es)
    ensures Counted(AddTo(es, d))
  {
    if es != [] { AddToCounted(es[1..], d); }
  }

  lemma {:induction false} CountedIsPositive(es: seq<Entry>)
    requires Counted(es)
    ensures Total(es, Number(None)) >= 0.0 && (Total(es, Number(None)) == 0.0 <==> es == [])
  {
    if es != [] { CountedIsPositive(es[1..]); }
  }

  lemma {:induction false} UnsentIsCounted(events: seq<Event>)
    ensures Counted(After(events).unsent) && Counted(CutOff(events))
    ensures After(events).queue.None? ==> After(events).unsent == []
  {
    if events != [] {
      UnsentIsCounted(events[..|events| - 1]);
      var s := After(events[..|events| - 1]);
      if s.queue.Some? { FoldCounted(s.queue.value); }
    }
  }

  /** A stop that found a flush between two of its calls. */
  ghost predicate StopInterrupts(events: seq<Event>, k: nat)
    requires k < |events|
  {
    events[k].Stop? && After(events[..k]).unsent != []
  }

  ghost predicate Uninterrupted(events: seq<Event>) { forall k :: 0 <= k < |events| ==> !StopInterrupts(events, k) }

  lemma {:induction false} CutOffIff(events: seq<Event>)
    ensures CutOff(events) == [] <==> Uninterrupted(events)
  {
    if events != [] {
      var before, e := events[..|events| - 1], events[|events| - 1];
      CutOffIff(before);
      UnsentIsCounted(before);
      UninterruptedSoFar(events);
    }
  }

  lemma UninterruptedSoFar(events: seq<Event>)
    requires events != []
    ensures Uninterrupted(events) <==> Uninterrupted(events[..|events| - 1]) && !StopInterrupts(events, |events| - 1)
  {
    var before := events[..|events| - 1];
    forall k | 0 <= k < |before| ensures StopInterrupts(before, k) == StopInterrupts(events, k) {
      assert before[..k] == events[..k];
    }
  }

  /** Samples emitted are those handed to the sender, awaiting a send, queued or dropped,
      if and only if no stop caught a flush between two of its calls. */
  lemma BooksBalanceIff(events: seq<Event>)
    ensures var s := After(events);
      Emitted(events) as real
      == Handed(s.calls, Number(None)) + Total(s.unsent, Number(None)) + (|Waiting(s)| + s.dropped) as real
      <==> Uninterrupted(events)
  {
    EverySampleIsAccountedFor(events, Number(None));
    AllSamples(Accepted(events));
    AllSamples(Waiting(After(events)));
    UnsentIsCounted(events);
    CountedIsPositive(CutOff(events));
    CutOffIff(events);
  }

  /** A flush has a later call to wait for only when its window held more series than one call takes. */
  lemma OneCallLeavesNothingUnsent(s: State)
    requires s.queue.Some? && s.unsent == []
    ensures Drained(s).unsent != [] <==> |Fold(s.queue.value)| > 500
  {
  }

  // A run that loses samples: n series of one sample each, then a stop between two calls.

  ghost function NameOf(i: nat): string { seq(i, _ => 'm') }

  ghost function Burst(n: nat, unit: string): seq<Event> {
    if n == 0 then [Start] else Burst(n - 1, unit) + [Emit(Sample(NameOf(n), 1.0, unit, []))]
  }

  /** n samples are queued, of n series whose metric names are no longer than n. */
  ghost predicate Spread(s: State, n: nat) {
    && s.queue.Some? && |s.queue.value| == n && s.unsent == []
    && |Fold(s.queue.value)| == n
    && forall i :: 0 <= i < n ==> |Fold(s.queue.value)[i].key.metric| <= n
  }

  lemma SpreadMore(s: State, n: nat, x: Sample)
    requires Spread(s, n) && n < QUEUE_MAXSIZE && |x.metric| == n + 1
    ensures Spread(Enqueued(s, x), n + 1)
  {
    var q, d := s.queue.value, DatumOf(s, x);
    assert (q + [d])[..n] == q;
    AddToAbsent(Fold(q), d);
    assert Fold(q + [d]) == Fold(q) + [Single(d)];
  }

  lemma {:induction false} BurstQueues(n: nat, unit: string)
    requires n <= QUEUE_MAXSIZE
    ensures Spread(After(Burst(n, unit)), n)
  {
    if n == 0 {
      assert Burst(0, unit)[..0] == [];
    } else {
      BurstQueues(n - 1, unit);
      var before, x := Burst(n - 1, unit), Sample(NameOf(n), 1.0, unit, []);
      assert (before + [Emit(x)])[..|before|] == before;
      SpreadMore(After(before), n - 1, x);
    }
  }

  lemma InterruptedStopLosesSamples(unit: string)
    ensures var events := Burst(MAX_DATUMS_PER_CALL + 1, unit) + [Drain, Stop];
      StopInterrupts(events, |events| - 1)
  {
    var burst := Burst(MAX_DATUMS_PER_CALL + 1, unit);
    BurstQueues(MAX_DATUMS_PER_CALL + 1, unit);
    var events := burst + [Drain, Stop];
    assert events[..|burst| + 1][..|burst|] == burst;
    OneCallLeavesNothingUnsent(After(burst));
  }

  lemma {:induction false} CallsStayWithinTheLimit(events: seq<Event>)
    ensures forall c :: c in After(events).calls ==> 0 < |c| <= 500
  {
    if events != [] {
      CallsStayWithinTheLimit(events[..|events| - 1]);
      var s := After(events[..|events| - 1]);
      if s.queue.Some? { ChunksWithinSize(Fold(s.queue.value), MAX_DATUMS_PER_CALL); }
    }
  }

  lemma {:induction false} ChunksWithinSize(es: seq<Entry>, size: nat)
    requires size > 0
    ensures forall c :: c in Chunks(es, size) ==> 0 < |c| <= size
    decreases |es|
  {
    if es != [] { ChunksWithinSize(RestChunk(es, size), size); }
  }

  // ----- cardinality over a run -----

  ghost predicate Capped(seen: ValueSets) {
    forall name :: name in seen ==> |seen[name]| <= MAX_DIMENSION_VALUES
  }

  ghost predicate Within(allowed: ValueSets, seen: ValueSets, name: string, v: string) {
    v in ValuesOf(seen, name) || v in ValuesOf(allowed, name) || v == OTHER_VALUE
  }

  ghost predicate Grown(m: ValueSets, m': ValueSets) {
    forall name :: ValuesOf(m, name) <= ValuesOf(m', name)
  }

  lemma OneGuarded(allowed: ValueSets, seen: ValueSets, name: string, raw: string)
    requires Capped(seen)
    ensures var seen' := SeenAfter(allowed, seen, name, raw);
      Capped(seen') && Grown(seen, seen') && Within(allowed, seen', name, Shown(allowed, seen, name, raw))
  {
  }

  lemma {:induction false} SanitisedIsGuarded(allowed: ValueSets, seen: ValueSets, dims: Dimensions)
    requires Capped(seen)
    ensures var c := Sanitised(allowed, seen, dims);
      && Capped(c.seen) && Grown(seen, c.seen)
      && forall name :: name in c.out ==> Within(allowed, c.seen, name, c.out[name])
  {
    if dims != [] {
      var before := dims[..|dims| - 1];
      var (name, raw) := dims[|dims| - 1];
      SanitisedIsGuarded(allowed, seen, before);
      var b := Sanitised(allowed, seen, before);
      OneGuarded(allowed, b.seen, name, raw);
    }
  }

  ghost predicate AllWithin(allowed: ValueSets, seen: ValueSets, ds: seq<Datum>) {
    forall d, name :: d in ds && name in d.key.dimensions ==> Within(allowed, seen, name, d.key.dimensions[name])
  }

  lemma WithinGrows(allowed: ValueSets, seen: ValueSets, allowed': ValueSets, seen': ValueSets, ds: seq<Datum>)
    requires AllWithin(allowed, seen, ds) && Grown(allowed, allowed') && Grown(seen, seen')
    ensures AllWithin(allowed', seen', ds)
  {
  }

  lemma StepGuards(s: State, e: Event)
    requires Capped(s.seen)
    ensures Capped(Step(s, e).seen) && Grown(s.seen, Step(s, e).seen) && Grown(s.allowed, Step(s, e).allowed)
    ensures e.Emit? && Accepts(s) ==> AllWithin(Step(s, e).allowed, Step(s, e).seen, [DatumOf(s, e.sample)])
  {
    if e.Emit? { SanitisedIsGuarded(s.allowed, s.seen, e.sample.dims); }
  }

  lemma {:induction false} RunIsGuarded(events: seq<Event>)
    ensures Capped(After(events).seen) && AllWithin(After(events).allowed, After(events).seen, Accepted(events))
  {
    if events != [] {
      var before, e := events[..|events| - 1], events[|events| - 1];
      RunIsGuarded(before);
      var s, t := After(before), After(events);
      StepGuards(s, e);
      WithinGrows(s.allowed, s.seen, t.allowed, t.seen, Accepted(before));
    }
  }

  ghost function ShownValues(ds: seq<Datum>, name: string): set<string> {
    set d | d in ds && name in d.key.dimensions :: d.key.dimensions[name]
  }

  lemma {:induction false} SubsetIsSmaller(a: set<string>, b: set<string>)
    requires a <= b
    ensures |a| <= |b|
  {
    if a != {} {
      var x :| x in a;
      SubsetIsSmaller(a - {x}, b - {x});
    }
  }

  /** Over any run, a dimension with no allow-list shows at most 101 distinct values. */
  lemma UnlistedDimensionIsBounded(events: seq<Event>, name: string)
    requires name !in After(events).allowed
    ensures |ShownValues(Accepted(events), name)| <= 101
  {
    RunIsGuarded(events);
    var values := ValuesOf(After(events).seen, name);
    assert |values| <= MAX_DIMENSION_VALUES;
    SubsetIsSmaller(ShownValues(Accepted(events), name), values + {OTHER_VALUE});
  }

  lemma {:induction false} SeenStaysSeen(events: seq<Event>, n: nat)
    requires n <= |events|
    ensures Grown(After(events[..n]).seen, After(events).seen)
    decreases |events|
  {
    if n == |events| {
      assert events[..n] == events;
    } else {
      var before := events[..|events| - 1];
      SeenStaysSeen(before, n);
      assert before[..n] == events[..n];
      RunIsGuarded(before);
      StepGuards(After(before), events[|events| - 1]);
    }
  }

  /** A value that had its place under the cap keeps it: it is never bucketed later,
      and a value is bucketed only when a hundred others hold every place. */
  lemma PlacesAreKept(events: seq<Event>, n: nat, name: string, v: string)
    requires n <= |events| && name !in After(events).allowed
    ensures var s := After(events);
      && (v in ValuesOf(After(events[..n]).seen, name) ==> Shown(s.allowed, s.seen, name, v) == v)
      && (Shown(s.allowed, s.seen, name, v) != v ==>
            |ValuesOf(s.seen, name)| == MAX_DIMENSION_VALUES && v !in ValuesOf(s.seen, name))
  {
    SeenStaysSeen(events, n);
    RunIsGuarded(events);
  }
}
