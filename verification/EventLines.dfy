/**
  What reading any log gives, well formed or not: the records of its lines that are not blank, if each of them
  parses and carries the next cursor and sequence, and a report of corruption otherwise.
 */
module EventLines {
  import opened Common
  import opened EventLogSpec
  import opened EventScanSpec

  /** The index of the first line feed, or the length. */
  function FirstLineFeed(t: Bytes): (i: nat)
    ensures i <= |t| && (forall j :: 0 <= j < i ==> t[j] != 0x0A) && (i < |t| ==> t[i] == 0x0A)
  {
    if t == [] || t[0] == 0x0A then 0 else 1 + FirstLineFeed(t[1..])
  }

  /** The lines of a text that are not blank. */
  function FullLines(t: Bytes): seq<Bytes>
    decreases |t|
  {
    var i := FirstLineFeed(t);
    (if i == 0 then [] else [t[..i]]) + (if i == |t| then [] else FullLines(t[i + 1..]))
  }

  /** The line is record number `cursor`. */
  ghost predicate IsRecord(c: Codec, line: Bytes, cursor: nat, r: Stored) {
    c.json(line) && c.decode(line) == Some(r) && r.cursor == cursor && r.event.sequence == cursor
  }

  /** Each line is the record of its number, counted on from `cursor`. */
  ghost predicate AreRecords(c: Codec, lines: seq<Bytes>, cursor: nat, records: seq<Stored>) {
    |records| == |lines| && forall i :: 0 <= i < |lines| ==> IsRecord(c, lines[i], cursor + 1 + i, records[i])
  }

  lemma {:induction false} LineEndIsFirst(log: Bytes, from: nat)
    requires from <= |log|
    ensures LineEnd(log, from) == from + FirstLineFeed(log[from..])
    decreases |log| - from
  {
    if from < |log| && log[from] != NEWLINE {
      LineEndIsFirst(log, from + 1);
      assert log[from..][1..] == log[from + 1..];
    }
  }

  lemma FullLinesUnfold(log: Bytes, from: nat)
    requires from < |log|
    ensures var end := LineEnd(log, from);
      FullLines(log[from..]) == (if end == from then [] else [log[from..end]]) +
        FullLines(log[if end < |log| then end + 1 else end..])
  {
    var t, i := log[from..], FirstLineFeed(log[from..]);
    LineEndIsFirst(log, from);
    assert t[..i] == log[from..from + i];
    if i < |t| {
      assert t[i + 1..] == log[from + i + 1..];
    } else {
      assert log[from + i..] == [];
      assert FullLines([]) == [];
    }
  }

  lemma OneMore(c: Codec, line: Bytes, lines: seq<Bytes>, cursor: nat, r: Stored, records: seq<Stored>)
    requires IsRecord(c, line, cursor + 1, r)
    ensures AreRecords(c, [line] + lines, cursor, [r] + records) <==> AreRecords(c, lines, cursor + 1, records)
  {
    var (more, all) := ([line] + lines, [r] + records);
    assert forall i :: 0 <= i < |lines| ==> more[i + 1] == lines[i];
    assert forall i :: 0 <= i < |records| ==> all[i + 1] == records[i];
    if AreRecords(c, lines, cursor + 1, records) {
      forall i | 0 <= i < |more| ensures IsRecord(c, more[i], cursor + 1 + i, all[i]) {
        assert i > 0 ==> IsRecord(c, lines[i - 1], cursor + 1 + i, records[i - 1]);
      }
    }
    if AreRecords(c, more, cursor, all) {
      forall i | 0 <= i < |lines| ensures IsRecord(c, lines[i], cursor + 2 + i, records[i]) {
        assert IsRecord(c, more[i + 1], cursor + 2 + i, all[i + 1]);
      }
    }
  }

  lemma RestYields(c: Codec, log: Bytes, s: Scan, records: seq<Stored>)
    requires Next(c, log, s).Yield?
    ensures Rest(c, log, s) == Some(records) <==>
      records != [] && records[0] == Next(c, log, s).record && Rest(c, log, Next(c, log, s).scan) == Some(records[1..])
  {
    NextAdvances(c, log, s);
    if records != [] {
      assert records == [records[0]] + records[1..];
    }
  }

  /** The place after the line that starts at `from`. */
  function After(log: Bytes, from: nat): (i: nat)
    requires from < |log|
    ensures from < i <= |log|
  {
    var end := LineEnd(log, from);
    if end < |log| then end + 1 else end
  }

  lemma BlankLine(log: Bytes, from: nat)
    requires from < |log| && LineEnd(log, from) == from
    ensures FullLines(log[from..]) == FullLines(log[After(log, from)..])
  {
    FullLinesUnfold(log, from);
    assert [] + FullLines(log[After(log, from)..]) == FullLines(log[After(log, from)..]);
  }

  lemma BlankRest(c: Codec, log: Bytes, s: Scan)
    requires s.position < |log| && LineEnd(log, s.position) == s.position
    ensures Rest(c, log, s) == Rest(c, log, s.(position := After(log, s.position)))
  {
    assert Next(c, log, s) == Next(c, log, s.(position := s.position + 1));
  }

  lemma FullLine(log: Bytes, from: nat)
    requires from < |log| && LineEnd(log, from) > from
    ensures FullLines(log[from..]) == [log[from..LineEnd(log, from)]] + FullLines(log[After(log, from)..])
  {
    FullLinesUnfold(log, from);
  }

  lemma CorruptLine(c: Codec, log: Bytes, s: Scan, records: seq<Stored>)
    requires s.position < |log| && LineEnd(log, s.position) > s.position && Next(c, log, s).Corrupt?
    ensures Rest(c, log, s).None? && !AreRecords(c, FullLines(log[s.position..]), s.cursor, records)
  {
    FullLine(log, s.position);
    var lines := FullLines(log[s.position..]);
    assert lines[0] == log[s.position..LineEnd(log, s.position)];
    if records != [] {
      assert !IsRecord(c, lines[0], s.cursor + 1, records[0]);
    }
  }

  lemma GoodLine(c: Codec, log: Bytes, s: Scan)
    requires s.position < |log| && LineEnd(log, s.position) > s.position && !Next(c, log, s).Corrupt?
    ensures Next(c, log, s).Yield? && Next(c, log, s).scan.cursor == s.cursor + 1
    ensures Next(c, log, s).scan.position == After(log, s.position)
    ensures IsRecord(c, log[s.position..LineEnd(log, s.position)], s.cursor + 1, Next(c, log, s).record)
  {
  }

  lemma YieldedLine(c: Codec, line: Bytes, lines: seq<Bytes>, cursor: nat, r: Stored, records: seq<Stored>)
    requires IsRecord(c, line, cursor + 1, r)
    ensures AreRecords(c, [line] + lines, cursor, records) <==>
      records != [] && records[0] == r && AreRecords(c, lines, cursor + 1, records[1..])
  {
    if records != [] {
      assert records == [records[0]] + records[1..];
      if AreRecords(c, [line] + lines, cursor, records) {
        assert IsRecord(c, ([line] + lines)[0], cursor + 1, records[0]);
      }
      OneMore(c, line, lines, cursor, r, records[1..]);
    }
  }

  /** Reading on from any place. */
  lemma {:induction false} RestIff(c: Codec, log: Bytes, s: Scan, records: seq<Stored>)
    requires s.position <= |log|
    ensures Rest(c, log, s) == Some(records) <==> AreRecords(c, FullLines(log[s.position..]), s.cursor, records)
    decreases |log| - s.position
  {
    if s.position == |log| {
      assert log[s.position..] == [] && FullLines([]) == [];
    } else if LineEnd(log, s.position) == s.position {
      BlankLine(log, s.position);
      BlankRest(c, log, s);
      RestIff(c, log, s.(position := After(log, s.position)), records);
    } else if Next(c, log, s).Corrupt? {
      CorruptLine(c, log, s, records);
    } else {
      GoodLine(c, log, s);
      RestYields(c, log, s, records);
      FullLine(log, s.position);
      YieldedLine(c, log[s.position..LineEnd(log, s.position)], FullLines(log[After(log, s.position)..]), s.cursor,
        Next(c, log, s).record, records);
      if records != [] {
        RestIff(c, log, Next(c, log, s).scan, records[1..]);
      }
    }
  }

  /** Reading a whole log gives these records exactly when its full lines are they, numbered from one; a log with
      any other full line is reported as corrupt. */
  lemma ReadingIsTold(c: Codec, log: Bytes, records: seq<Stored>)
    ensures Rest(c, log, START) == Some(records) <==> AreRecords(c, FullLines(log), 0, records)
    ensures Rest(c, log, START).None? <==> !(exists rs :: AreRecords(c, FullLines(log), 0, rs))
  {
    assert log[0..] == log;
    RestIff(c, log, START, records);
    if Rest(c, log, START).Some? {
      RestIff(c, log, START, Rest(c, log, START).value);
    }
    if rs :| AreRecords(c, FullLines(log), 0, rs) {
      RestIff(c, log, START, rs);
    }
  }
}
