/**
  Reading the event log line by line, as `#events` of src/fileWorkflowStore.ts does, and what a crash
  followed by `#recoverEventTail` leaves.
 */
module EventScanSpec {
  import opened Common
  import opened EventLogSpec

  /** A reader: `cursor` records were counted, the next line starts at byte `position`, and `offset` is
      the byte offset the sparse index would note for it. */
  datatype Scan = Scan(cursor: nat, offset: nat, position: nat)

  datatype Advance = End | Corrupt | Yield(record: Stored, scan: Scan)

  /** The end of the line that starts at `from`. */
  function LineEnd(log: Bytes, from: nat): (i: nat)
    requires from <= |log|
    ensures from <= i <= |log| && NEWLINE !in log[from..i] && (i < |log| ==> log[i] == NEWLINE)
    decreases |log| - from
  {
    if from == |log| || log[from] == NEWLINE then from
    else
      var i := LineEnd(log, from + 1);
      assert log[from..i] == [log[from]] + log[from + 1..i];
      i
  }

  /** The checks of `parseStoredEvent`. */
  predicate Expected(r: Stored, cursor: nat) {
    r.cursor == cursor && r.event.sequence == cursor
  }

  /** The next record: blank lines are skipped, anything else must parse and carry the next cursor. */
  function Next(c: Codec, log: Bytes, s: Scan): Advance
    decreases |log| - s.position
  {
    if s.position >= |log| then End
    else
      var end := LineEnd(log, s.position);
      var line := log[s.position..end];
      if line == [] then Next(c, log, s.(position := s.position + 1))
      else if !c.json(line) then Corrupt
      else
        var r := c.decode(line);
        if r.None? || !Expected(r.value, s.cursor + 1) then Corrupt
        else Yield(r.value, Scan(s.cursor + 1, s.offset + |line| + 1, if end < |log| then end + 1 else end))
  }

  lemma {:induction false} NextAdvances(c: Codec, log: Bytes, s: Scan)
    ensures Next(c, log, s).Yield? ==> s.position < Next(c, log, s).scan.position <= |log|
    decreases |log| - s.position
  {
    if s.position < |log| && LineEnd(log, s.position) == s.position {
      NextAdvances(c, log, s.(position := s.position + 1));
    }
  }

  /** Every record from a reader's position to the end, or `None` when the log is corrupt. */
  function Rest(c: Codec, log: Bytes, s: Scan): Option<seq<Stored>>
    decreases |log| - s.position
  {
    match Next(c, log, s)
    case End => Some([])
    case Corrupt => None
    case Yield(r, t) =>
      NextAdvances(c, log, s);
      var more := Rest(c, log, t);
      if more.None? then None else Some([r] + more.value)
  }

  const START := Scan(0, 0, 0)

  // ---------------------------------------------------------------------------------------------
  // Well-formed logs
  // ---------------------------------------------------------------------------------------------

  /** The reader stands before record `cursor`. */
  ghost predicate Stands(c: Codec, records: seq<Stored>, s: Scan) {
    s.cursor <= |records| && s.offset == s.position == Offset(c, records, s.cursor)
  }

  /** Where the reader stands does not move when records are appended. */
  lemma StandsStill(c: Codec, records: seq<Stored>, more: seq<Stored>, s: Scan)
    requires Stands(c, records, s)
    ensures Stands(c, records + more, s)
  {
    assert (records + more)[..s.cursor] == records[..s.cursor];
  }

  lemma LineEndIs(log: Bytes, from: nat, line: Bytes, after: Bytes)
    requires from <= |log| && NEWLINE !in line && log[from..] == line + [NEWLINE] + after
    ensures LineEnd(log, from) == from + |line|
    ensures log[from..from + |line|] == line
  {
    var i := LineEnd(log, from);
    assert |log| == from + |line| + 1 + |after|;
    assert forall j :: 0 <= j < |log| - from ==> log[from + j] == (line + [NEWLINE] + after)[j];
    assert log[from + |line|] == NEWLINE;
    assert forall j :: from <= j < from + |line| ==> log[j] == line[j - from];
    assert forall j :: from <= j < i ==> log[j] in log[from..i];
  }

  /** The line of record `k`. */
  lemma LineAt(c: Codec, records: seq<Stored>, k: nat)
    requires GoodCodec(c) && k < |records|
    ensures var log, from, line := Lines(c, records), Offset(c, records, k), c.encode(records[k]);
      && from < |log| && LineEnd(log, from) == from + |line| && log[from..from + |line|] == line
      && from + |line| < |log| && Offset(c, records, k + 1) == from + |line| + 1
  {
    assert GoodRecord(c, records[k]);
    LinesFrom(c, records, k);
    LinesHead(c, records, k);
    LineEndIs(Lines(c, records), Offset(c, records, k), c.encode(records[k]), Lines(c, records[k + 1..]));
  }

  /** A reader that stands before record `k`. */
  function Before(c: Codec, records: seq<Stored>, k: nat): Scan
    requires k <= |records|
  {
    Scan(k, Offset(c, records, k), Offset(c, records, k))
  }

  /** On a well-formed log the reader yields the next record and stands after it. */
  lemma NextYields(c: Codec, records: seq<Stored>, s: Scan)
    requires GoodCodec(c) && Numbered(records) && Stands(c, records, s)
    ensures s.cursor == |records| ==> Next(c, Lines(c, records), s) == End
    ensures s.cursor < |records| ==>
      && Next(c, Lines(c, records), s) == Yield(records[s.cursor], Before(c, records, s.cursor + 1))
      && Stands(c, records, Before(c, records, s.cursor + 1))
  {
    if s.cursor == |records| {
      assert records[..|records|] == records;
    } else {
      LineAt(c, records, s.cursor);
      assert GoodRecord(c, records[s.cursor]);
    }
  }

  lemma RestUnfolds(c: Codec, log: Bytes, s: Scan, r: Stored, t: Scan)
    requires Next(c, log, s) == Yield(r, t)
    ensures Rest(c, log, s) == if Rest(c, log, t).None? then None else Some([r] + Rest(c, log, t).value)
  {
  }

  lemma {:induction false} RestIs(c: Codec, records: seq<Stored>, s: Scan)
    requires GoodCodec(c) && Numbered(records) && Stands(c, records, s)
    ensures Rest(c, Lines(c, records), s) == Some(records[s.cursor..])
    decreases |records| - s.cursor
  {
    NextYields(c, records, s);
    if s.cursor < |records| {
      var t := Before(c, records, s.cursor + 1);
      RestIs(c, records, t);
      RestUnfolds(c, Lines(c, records), s, records[s.cursor], t);
      assert records[s.cursor..] == [records[s.cursor]] + records[s.cursor + 1..];
    } else {
      assert records[s.cursor..] == [];
    }
  }

  // ---------------------------------------------------------------------------------------------
  // Crashes
  // ---------------------------------------------------------------------------------------------

  /** What survives a crash: the log's bytes and the manifest, which is replaced atomically. */
  datatype Disk = Disk(log: Bytes, manifest: Manifest)

  /** Startup: repair the tail, read everything, and rebuild the manifest if it is behind. */
  function Recovered(c: Codec, d: Disk): Option<Disk> {
    var log := Repaired(c, d.log);
    if log.None? then None
    else
      var records := Rest(c, log.value, START);
      if records.None? then None
      else if d.manifest.cursor == |records.value| then Some(Disk(log.value, d.manifest))
      else Some(Disk(log.value, Fold(Blank(d.manifest), records.value)))
  }

  /** The log holds `records`, and the manifest counts all of them or all but the last. */
  ghost predicate Coherent(c: Codec, m: Manifest, records: seq<Stored>, d: Disk) {
    && m == Blank(m) && Numbered(records) && TerminalLast(records)
    && d.log == Lines(c, records)
    && (d.manifest == Fold(m, records) || (records != [] && d.manifest == Fold(m, records[..|records| - 1])))
  }

  lemma BehindFold(m: Manifest, records: seq<Stored>, manifest: Manifest)
    requires m == Blank(m) && Numbered(records)
    requires manifest == Fold(m, records) || (records != [] && manifest == Fold(m, records[..|records| - 1]))
    ensures Blank(manifest) == m
    ensures manifest.cursor == |records| <==> manifest == Fold(m, records)
  {
    FoldCursor(m, records);
    FoldKeepsBlank(m, records);
    if records != [] {
      FoldCursor(m, records[..|records| - 1]);
      FoldKeepsBlank(m, records[..|records| - 1]);
    }
  }

  lemma RecoveredCoherent(c: Codec, m: Manifest, records: seq<Stored>, d: Disk, log: Bytes)
    requires GoodCodec(c) && Repaired(c, log) == Some(d.log) && Coherent(c, m, records, d)
    ensures Recovered(c, Disk(log, d.manifest)) == Some(Disk(d.log, Fold(m, records)))
  {
    assert records[..0] == [];
    assert Stands(c, records, START);
    RestIs(c, records, START);
    assert records[0..] == records;
    BehindFold(m, records, d.manifest);
  }

  /** How far an append had come when the process died. */
  datatype Crash = Crash(record: Stored, written: nat, renamed: bool)

  /** The manifest is only replaced once the whole line was written. */
  predicate Possible(c: Codec, crash: Crash) {
    crash.written <= |Line(c, crash.record)| && (crash.renamed ==> crash.written == |Line(c, crash.record)|)
  }

  function Crashed(c: Codec, d: Disk, crash: Crash): Disk
    requires crash.written <= |Line(c, crash.record)|
  {
    Disk(d.log + Line(c, crash.record)[..crash.written],
      if crash.renamed then ApplyEvent(d.manifest, crash.record) else d.manifest)
  }

  /** The record survives exactly when all its bytes but the newline were written. */
  function Survivors(c: Codec, records: seq<Stored>, crash: Crash): seq<Stored> {
    if crash.written < |c.encode(crash.record)| then records else records + [crash.record]
  }

  /** An event may be appended: it is next in sequence, and the run is not over. */
  predicate Appendable(m: Manifest, r: Stored) {
    r.cursor == m.cursor + 1 && r.event.sequence == m.cursor + 1 && !TerminalStatus(m.status)
  }

  lemma AppendKeeps(m: Manifest, records: seq<Stored>, r: Stored)
    requires m == Blank(m) && Numbered(records) && TerminalLast(records) && Appendable(Fold(m, records), r)
    ensures Numbered(records + [r]) && TerminalLast(records + [r])
  {
    FoldCursor(m, records);
    FoldTerminal(m, records);
  }

  /** A crash at any byte of an append, or between fsync and manifest replacement: recovery yields the
      acknowledged records, or those and the one in flight, with the manifest that is their fold. */
  lemma CrashRecovers(c: Codec, m: Manifest, records: seq<Stored>, d: Disk, crash: Crash)
    requires GoodCodec(c) && Coherent(c, m, records, d) && d.manifest == Fold(m, records)
    requires Appendable(d.manifest, crash.record) && EventLogSpec.Fits(c, crash.record) && Possible(c, crash)
    ensures var survivors := Survivors(c, records, crash);
      && Recovered(c, Crashed(c, d, crash)) == Some(Disk(Lines(c, survivors), Fold(m, survivors)))
      && Numbered(survivors) && TerminalLast(survivors)
  {
    var r, survivors := crash.record, Survivors(c, records, crash);
    assert GoodRecord(c, r);
    RepairOfTorn(c, records, r, crash.written);
    AppendKeeps(m, records, r);
    FoldPush(m, records, r);
    assert (records + [r])[..|records|] == records;
    RecoveredCoherent(c, m, survivors, Disk(Lines(c, survivors), Crashed(c, d, crash).manifest),
      Crashed(c, d, crash).log);
  }
}
