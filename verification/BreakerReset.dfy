/** How the environment reset undoes a breaker across processes: it raises a
    timestamped signal, then rewrites every published record that is not clean;
    every breaker weighs the signal before it publishes again. */
module BreakerReset {
  import opened Options
  import opened CircuitBreaker

  type Name = string

  /** What the store holds under a breaker's key; an undecodable value is skipped by readers. */
  datatype Stored = Readable(record: Record) | Undecodable

  predicate ResetClean(r: Record) {
    r.state == Closed && r.failures == 0 && r.failedAt.None? && r.reason.None? && r.changedAt.None?
  }

  /** Closed with every failure field null; the breaker's own yardsticks carried over. */
  function Cleaned(r: Record): Record {
    Record(Closed, 0, r.threshold, r.recoveryTimeout, None, None, None)
  }

  predicate Dirty(s: Stored) { s.Readable? && !ResetClean(s.record) }

  function DirtyNames(records: map<Name, Stored>): set<Name> {
    set n | n in records && Dirty(records[n])
  }

  /** The records after a reset whose rewrites under `lost` were dropped on the way. */
  function ResetRecords(records: map<Name, Stored>, lost: set<Name>): map<Name, Stored> {
    map n | n in records :: if Dirty(records[n]) && n !in lost then Readable(Cleaned(records[n].record)) else records[n]
  }

  /** Only a lost rewrite leaves a record dirty; thresholds, timeouts and undecodable
      values stay as they were, and repeating the reset changes nothing more. */
  lemma OnlyLostRewritesStayDirty(records: map<Name, Stored>, lost: set<Name>)
    ensures DirtyNames(ResetRecords(records, lost)) == DirtyNames(records) * lost
    ensures ResetRecords(ResetRecords(records, lost), lost) == ResetRecords(records, lost)
    ensures ResetRecords(records, lost).Keys == records.Keys
    ensures forall n :: n in records && records[n].Readable? ==>
      && ResetRecords(records, lost)[n].Readable?
      && ResetRecords(records, lost)[n].record.threshold == records[n].record.threshold
      && ResetRecords(records, lost)[n].record.recoveryTimeout == records[n].record.recoveryTimeout
  {
    var once := ResetRecords(records, lost);
    forall n | n in records ensures Dirty(once[n]) <==> Dirty(records[n]) && n in lost {}
    assert DirtyNames(once) == DirtyNames(records) * lost;
  }

  /** How a reset leaves one stored value: a readable record that shows any state, count, failure
      or change becomes closed with everything null, its own threshold and timeout kept, unless
      its rewrite was lost; anything else stays as it was. */
  ghost predicate ResetTo(was: Stored, now: Stored, lost: bool) {
    match was
    case Undecodable => now == was
    case Readable(r) =>
      if lost || !Marked(was) then now == was
      else now == Readable(Record(Closed, 0, r.threshold, r.recoveryTimeout, None, None, None))
  }

  /** The record shows something of the past. */
  ghost predicate Marked(s: Stored) {
    match s
    case Undecodable => false
    case Readable(r) =>
      r.state != Closed || r.failures != 0 || r.changedAt != None || r.failedAt != None || r.reason != None
  }

  lemma ResetRecordsSpelledOut(records: map<Name, Stored>, lost: set<Name>)
    ensures forall n :: n in records ==> ResetTo(records[n], ResetRecords(records, lost)[n], n in lost)
    ensures DirtyNames(records) == set n | n in records && Marked(records[n])
  {
  }

  class BreakerStore {
    var resetAt: Option<Instant>
    var records: map<Name, Stored>

    constructor ()
      ensures resetAt == None && records == map[]
    {
      resetAt, records := None, map[];
    }

    /** Best-effort: a write that fails is dropped. */
    method PublishState(name: Name, record: Record, lands: bool)
      modifies this`records
      ensures records == if lands then old(records)[name := Readable(record)] else old(records)
    {
      if lands { records := records[name := Readable(record)]; }
    }

    /** Signal first, then rewrite the records SCAN listed. Nothing is reset if the
        signal could not be raised or the scan failed, but in the second case the
        signal stands; a rewrite that is lost is counted all the same. */
    method ResetBreakerStates(now: Instant, signals: bool, scans: bool, scanned: seq<Name>, lost: set<Name>)
      returns (reset: nat)
      requires Lists(scanned, records.Keys)
      modifies this
      ensures resetAt == if signals then Some(now) else old(resetAt)
      ensures !(signals && scans) ==> reset == 0 && records == old(records)
      ensures signals && scans ==> records == ResetRecords(old(records), lost)
      ensures signals && scans ==> reset == |set n | n in old(records) && Marked(old(records)[n])|
      ensures signals && scans ==> records.Keys == old(records).Keys
      ensures signals && scans ==> forall n :: n in records ==> ResetTo(old(records)[n], records[n], n in lost)
    {
      ResetRecordsSpelledOut(records, lost);
      reset := 0;
      if !signals { return; }
      resetAt := Some(now);
      if !scans { return; }
      records, reset := RewriteDirty(records, scanned, lost);
    }
  }

  /** Every name exactly once. */
  ghost predicate Lists(scanned: seq<Name>, names: set<Name>) {
    && (forall i, j :: 0 <= i < j < |scanned| ==> scanned[i] != scanned[j])
    && (forall n :: n in names <==> n in scanned)
  }

  ghost function DirtyAmong(read: map<Name, Stored>, scanned: seq<Name>, i: nat): set<Name>
    requires i <= |scanned|
  {
    set k | 0 <= k < i && scanned[k] in read && Dirty(read[scanned[k]]) :: scanned[k]
  }

  /** Walk the records read, rewriting and counting each one that is not already clean. */
  method RewriteDirty(read: map<Name, Stored>, scanned: seq<Name>, lost: set<Name>)
    returns (written: map<Name, Stored>, reset: nat)
    requires Lists(scanned, read.Keys)
    ensures written == ResetRecords(read, lost) && reset == |DirtyNames(read)|
  {
    written, reset := read, 0;
    for i := 0 to |scanned|
      invariant reset == |DirtyAmong(read, scanned, i)| && RewrittenUpTo(read, scanned, lost, i, written)
    {
      var n := scanned[i];
      OneMoreScanned(read, scanned, i);
      if Dirty(read[n]) {
        if n !in lost { written := written[n := Readable(Cleaned(read[n].record))]; }
        reset := reset + 1;
      }
    }
    AllScanned(read, scanned, lost, written);
  }

  ghost predicate RewrittenUpTo(read: map<Name, Stored>, scanned: seq<Name>, lost: set<Name>, i: nat,
                                written: map<Name, Stored>)
    requires Lists(scanned, read.Keys) && i <= |scanned|
  {
    && written.Keys == read.Keys
    && (forall k :: 0 <= k < i ==> written[scanned[k]] == ResetRecords(read, lost)[scanned[k]])
    && (forall k :: i <= k < |scanned| ==> written[scanned[k]] == read[scanned[k]])
  }

  lemma AllScanned(read: map<Name, Stored>, scanned: seq<Name>, lost: set<Name>, written: map<Name, Stored>)
    requires Lists(scanned, read.Keys) && RewrittenUpTo(read, scanned, lost, |scanned|, written)
    ensures written == ResetRecords(read, lost) && DirtyAmong(read, scanned, |scanned|) == DirtyNames(read)
  {
    assert forall n :: n in read ==> n in scanned;
    assert DirtyAmong(read, scanned, |scanned|) == DirtyNames(read);
  }

  lemma OneMoreScanned(read: map<Name, Stored>, scanned: seq<Name>, i: nat)
    requires i < |scanned| && Lists(scanned, read.Keys)
    ensures |DirtyAmong(read, scanned, i + 1)| == |DirtyAmong(read, scanned, i)|
            + if Dirty(read[scanned[i]]) then 1 else 0
  {
    if Dirty(read[scanned[i]]) {
      assert DirtyAmong(read, scanned, i + 1) == DirtyAmong(read, scanned, i) + {scanned[i]};
      assert scanned[i] !in DirtyAmong(read, scanned, i);
    } else {
      assert DirtyAmong(read, scanned, i + 1) == DirtyAmong(read, scanned, i);
    }
  }
}
