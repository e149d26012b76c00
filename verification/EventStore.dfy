/**
  The event store of one run, src/fileWorkflowStore.ts:637-737, 937-952 and 1058-1195. Each method is
  what happens between two awaits, so any interleaving of an append, a page read and a snapshot is a
  sequence of calls: `Valid` holds between them, and a reader keeps its place while the log grows.
 */
module EventStore {
  import opened Common
  import opened EventLogSpec
  import opened EventScanSpec

  datatype Projection<S> = Projection(cursor: nat, state: S)

  datatype Error = SequenceMismatch | RunIsTerminal | LogFull | CursorAhead | CorruptStore

  datatype Result<T> = Ok(value: T) | Err(error: Error)

  datatype Page = Page(fromCursor: nat, toCursor: nat, events: seq<Stored>, hasMore: bool)

  const INDEX_STRIDE: nat := 256

  function Project<S>(reduce: (S, Event) -> S, initial: S, records: seq<Stored>): S {
    if records == [] then initial
    else reduce(Project(reduce, initial, records[..|records| - 1]), records[|records| - 1].event)
  }

  lemma ProjectPush<S>(reduce: (S, Event) -> S, initial: S, records: seq<Stored>, k: nat)
    requires k < |records|
    ensures Project(reduce, initial, records[..k + 1]) ==
      reduce(Project(reduce, initial, records[..k]), records[k].event)
  {
    assert records[..k + 1][..k] == records[..k];
  }

  /** Every index entry (c, o) says that record c starts at byte o. */
  ghost predicate OffsetsRight(codec: Codec, records: seq<Stored>, offsets: map<nat, nat>) {
    forall c :: c in offsets ==> 1 <= c <= |records| + 1 && offsets[c] == Offset(codec, records, c - 1)
  }

  lemma OffsetsStayRight(codec: Codec, records: seq<Stored>, more: seq<Stored>, offsets: map<nat, nat>)
    requires OffsetsRight(codec, records, offsets)
    ensures OffsetsRight(codec, records + more, offsets)
  {
    forall c | c in offsets ensures (records + more)[..c - 1] == records[..c - 1] {
    }
  }

  lemma NoteOffset(codec: Codec, records: seq<Stored>, offsets: map<nat, nat>, c: nat)
    requires OffsetsRight(codec, records, offsets) && 1 <= c <= |records| + 1
    ensures OffsetsRight(codec, records, offsets[c := Offset(codec, records, c - 1)])
  {
  }

  /** The records strictly after `after` that a reader standing at `s` has passed. */
  ghost predicate Selected(records: seq<Stored>, s: Scan, after: nat, selected: seq<Stored>) {
    s.cursor <= |records| && selected == if s.cursor <= after then [] else records[after..s.cursor]
  }

  /** The look-ahead record answers `hasMore` and is dropped. */
  function Finish(after: nat, limit: nat, selected: seq<Stored>): Page {
    var events := if |selected| > limit then selected[..|selected| - 1] else selected;
    Page(after, if events == [] then after else events[|events| - 1].cursor, events, |selected| > limit)
  }

  /** The slice strictly after `after`. */
  function PageOf(records: seq<Stored>, after: nat, limit: nat): Page
    requires after <= |records|
  {
    var last := if |records| <= after + limit then |records| else after + limit;
    Page(after, last, records[after..last], after + limit < |records|)
  }

  /** A page that is full, or whose reader is at the end of the log, is exactly the slice. */
  lemma PageIs(records: seq<Stored>, s: Scan, after: nat, limit: nat, selected: seq<Stored>)
    requires Numbered(records) && after <= |records| && Selected(records, s, after, selected)
    requires |selected| > limit || s.cursor == |records|
    requires |selected| <= limit + 1
    ensures Finish(after, limit, selected) == PageOf(records, after, limit)
  {
    var page := Finish(after, limit, selected);
    assert page.events == PageOf(records, after, limit).events;
  }

  /** What a reader has so far stays right while records are appended. */
  lemma ReadersSurvive<S>(codec: Codec, reduce: (S, Event) -> S, initial: S, records: seq<Stored>, more: seq<Stored>,
      s: Scan,
      after: nat, selected: seq<Stored>)
    requires Stands(codec, records, s) && Selected(records, s, after, selected)
    ensures Stands(codec, records + more, s) && Selected(records + more, s, after, selected)
    ensures Project(reduce, initial, (records + more)[..s.cursor]) == Project(reduce, initial, records[..s.cursor])
  {
    StandsStill(codec, records, more, s);
    assert (records + more)[..s.cursor] == records[..s.cursor];
    if s.cursor > after {
      assert (records + more)[after..s.cursor] == records[after..s.cursor];
    }
  }

  class EventStore<S(!new)> {
    const codec: Codec
    const reduce: (S, Event) -> S
    const initial: S
    const maxBytes: nat

    var log: Bytes
    var manifest: Manifest
    var offsets: map<nat, nat>
    var cache: Option<Projection<S>>

    /** The records in the log; the manifest may be one behind while an append commits. */
    ghost var records: seq<Stored>

    ghost predicate LogRight()
      reads this
    {
      && GoodCodec(codec) && Numbered(records) && TerminalLast(records)
      && log == Lines(codec, records) && |log| <= maxBytes
    }

    ghost predicate ManifestRight()
      reads this
    {
      && manifest.cursor <= |records| <= manifest.cursor + 1
      && manifest == Fold(Blank(manifest), records[..manifest.cursor])
    }

    ghost predicate CacheRight()
      reads this
    {
      cache.Some? ==>
        cache.value.cursor <= |records| &&
        cache.value.state == Project(reduce, initial, records[..cache.value.cursor])
    }

    ghost predicate Valid()
      reads this
    {
      LogRight() && ManifestRight() && CacheRight() && OffsetsRight(codec, records, offsets)
    }

    /** A run just created. */
    constructor (codec: Codec, reduce: (S, Event) -> S, initial: S, maxBytes: nat, created: Manifest)
      requires GoodCodec(codec) && created == Blank(created)
      ensures Valid() && records == [] && manifest == created && fresh(this)
      ensures this.codec == codec && this.reduce == reduce && this.initial == initial && this.maxBytes == maxBytes
    {
      this.codec, this.reduce, this.initial, this.maxBytes := codec, reduce, initial, maxBytes;
      log, manifest, offsets, cache, records := [], created, map[], None, [];
    }

    /** The first half of an append, up to and including fsync of the log. It returns the record and the
        byte offset it was written at; a refused append changes nothing. */
    method Write(event: Event, recordedAt: int) returns (r: Result<(Stored, nat)>)
      requires Valid() && |records| == manifest.cursor
      modifies this`log, this`records
      ensures Valid()
      ensures var m := old(manifest);
        var stored := Stored(m.cursor + 1, recordedAt, event);
        r == if event.sequence != m.cursor + 1 then Err(SequenceMismatch)
             else if TerminalStatus(m.status) then Err(RunIsTerminal)
             else if |old(log)| + |Line(codec, stored)| > maxBytes then Err(LogFull)
             else Ok((stored, |old(log)|))
      ensures records == if r.Ok? then old(records) + [r.value.0] else old(records)
    {
      var stored := Stored(manifest.cursor + 1, recordedAt, event);
      if event.sequence != manifest.cursor + 1 {
        return Err(SequenceMismatch);
      }
      if TerminalStatus(manifest.status) {
        return Err(RunIsTerminal);
      }
      var serialized := codec.encode(stored) + [NEWLINE];
      if |log| + |serialized| > maxBytes {
        return Err(LogFull);
      }
      r := Ok((stored, |log|));
      FullManifest();
      AppendKeeps(Blank(manifest), records, stored);
      LinesPush(codec, records, stored);
      OffsetsStayRight(codec, records, [stored], offsets);
      KeepPrefixes(records, [stored]);
      log := log + serialized;
      records := records + [stored];
    }

    lemma FullManifest()
      requires Valid() && |records| == manifest.cursor
      ensures manifest == Fold(Blank(manifest), records)
    {
      assert records[..|records|] == records;
    }

    lemma KeepPrefixes(records: seq<Stored>, more: seq<Stored>)
      ensures forall k :: 0 <= k <= |records| ==> (records + more)[..k] == records[..k]
    {
    }

    /** The second half: replace the manifest. */
    method Commit(stored: Stored)
      requires Valid() && |records| == manifest.cursor + 1 && stored == records[manifest.cursor]
      modifies this`manifest
      ensures Valid() && manifest == ApplyEvent(old(manifest), stored) && |records| == manifest.cursor
    {
      var k := manifest.cursor;
      ghost var blank := Blank(manifest);
      assert records[..k + 1] == records[..k] + [records[k]];
      FoldPush(blank, records[..k], records[k]);
      FoldKeepsBlank(blank, records[..k + 1]);
      manifest := ApplyEvent(manifest, stored);
    }

    /** The rest of an append: note the offset and bring the cached projection forward, or drop it. */
    method Follow(stored: Stored, offset: nat)
      requires Valid() && stored.cursor > 0 && stored.cursor <= |records|
      requires stored == records[stored.cursor - 1] && offset == Offset(codec, records, stored.cursor - 1)
      modifies this`offsets, this`cache
      ensures Valid()
      ensures (stored.cursor - 1) % 256 == 0 ==> stored.cursor in offsets
      ensures cache == match old(cache)
        case None => None
        case Some(p) => if p.cursor == stored.cursor - 1 then
          Some(Projection(stored.cursor, reduce(p.state, stored.event))) else None
    {
      if (stored.cursor - 1) % INDEX_STRIDE == 0 {
        NoteOffset(codec, records, offsets, stored.cursor);
        offsets := offsets[stored.cursor := offset];
      }
      if cache.Some? && cache.value.cursor == stored.cursor - 1 {
        ProjectPush(reduce, initial, records, stored.cursor - 1);
        cache := Some(Projection(stored.cursor, reduce(cache.value.state, stored.event)));
      } else if cache.Some? {
        cache := None;
      }
    }

    /** `appendEvent` with nothing interleaved. */
    method AppendEvent(event: Event, recordedAt: int) returns (r: Result<Stored>)
      requires Valid() && |records| == manifest.cursor
      modifies this`log, this`records, this`manifest, this`offsets, this`cache
      ensures Valid() && |records| == manifest.cursor
      ensures r.Ok? ==> records == old(records) + [r.value] && manifest == ApplyEvent(old(manifest), r.value)
      ensures r.Err? ==> records == old(records) && manifest == old(manifest)
      ensures r.Ok? <==>
        && event.sequence == old(manifest.cursor) + 1 && !TerminalStatus(old(manifest.status))
        && |old(log)| + |Line(codec, Stored(old(manifest.cursor) + 1, recordedAt, event))| <= maxBytes
    {
      var w := Write(event, recordedAt);
      if w.Err? {
        return Err(w.error);
      }
      var (stored, offset) := w.value;
      assert records[..|records| - 1] == old(records);
      Commit(stored);
      Follow(stored, offset);
      r := Ok(stored);
    }

    /** The indexed line closest to `near + 1`; the order in which entries are visited does not matter. */
    method Seek(near: nat) returns (s: Scan)
      requires OffsetsRight(codec, records, offsets)
      ensures Stands(codec, records, s) && s.cursor <= near
      ensures forall c :: c in offsets && c <= near + 1 ==> c <= s.cursor + 1
    {
      var startCursor, startOffset := 1, 0;
      var left := offsets.Keys;
      assert records[..0] == [];
      while left != {}
        invariant left <= offsets.Keys && 1 <= startCursor <= near + 1 && startCursor <= |records| + 1
        invariant startOffset == Offset(codec, records, startCursor - 1)
        invariant forall c :: c in offsets && c !in left && c <= near + 1 ==> c <= startCursor
        decreases |left|
      {
        var c :| c in left;
        left := left - {c};
        if !(c > near + 1 || c < startCursor) {
          startCursor, startOffset := c, offsets[c];
        }
      }
      s := Scan(startCursor - 1, startOffset, startOffset);
    }

    /** Find the end of a line. */
    method FindLineEnd(from: nat) returns (i: nat)
      requires from <= |log|
      ensures i == LineEnd(log, from)
    {
      i := from;
      while i < |log| && log[i] != NEWLINE
        invariant from <= i <= |log| && LineEnd(log, from) == LineEnd(log, i)
        decreases |log| - i
      {
        i := i + 1;
      }
    }

    /** One turn of the line loop. The index is only extended by what is read. */
    method Read(s: Scan) returns (r: Advance)
      requires Valid() && Stands(codec, records, s)
      modifies this`offsets
      ensures Valid()
      ensures r == Next(codec, log, s)
      ensures r == if s.cursor < |records| then Yield(records[s.cursor], Before(codec, records, s.cursor + 1)) else End
      ensures r.Yield? ==> Stands(codec, records, r.scan)
      ensures offsets == old(offsets) || offsets == old(offsets)[s.cursor + 1 := s.offset]
    {
      NextYields(codec, records, s);
      if s.cursor < |records| {
        LineAt(codec, records, s.cursor);
      } else {
        assert records[..|records|] == records;
      }
      if s.position >= |log| {
        return End;
      }
      var end := FindLineEnd(s.position);
      var line := log[s.position..end];
      assert GoodRecord(codec, records[s.cursor]);
      if s.cursor % INDEX_STRIDE == 0 {
        NoteOffset(codec, records, offsets, s.cursor + 1);
        offsets := offsets[s.cursor + 1 := s.offset];
      }
      var record := codec.decode(line).value;
      r := Yield(record, Scan(s.cursor + 1, s.offset + |line| + 1, end + 1));
    }

    /** One turn of the page loop; `none` means that the page is full or the log is exhausted. */
    method PageTurn(s: Scan, after: nat, limit: nat, selected: seq<Stored>) returns (next: Option<(Scan, seq<Stored>)>)
      requires Valid() && Stands(codec, records, s) && Selected(records, s, after, selected)
      modifies this`offsets
      ensures Valid()
      ensures next.None? <==> |selected| > limit || s.cursor == |records|
      ensures next.Some? ==>
        && next.value.0 == Before(codec, records, s.cursor + 1)
        && Stands(codec, records, next.value.0) && Selected(records, next.value.0, after, next.value.1)
        && |next.value.1| <= limit + 1
    {
      if |selected| > limit {
        return None;
      }
      var r := Read(s);
      if !r.Yield? {
        return None;
      }
      next := Some((r.scan, if r.record.cursor > after then selected + [r.record] else selected));
    }

    /** `readEvents` with nothing interleaved. */
    method ReadEvents(after: nat, limit: nat) returns (r: Result<Page>)
      requires Valid()
      modifies this`offsets
      ensures Valid()
      ensures r == if after > manifest.cursor then Err(CursorAhead) else Ok(PageOf(records, after, limit))
    {
      if after > manifest.cursor {
        return Err(CursorAhead);
      }
      var s := Seek(after);
      var selected: seq<Stored> := [];
      while true
        invariant Valid() && Stands(codec, records, s) && Selected(records, s, after, selected) &&
          |selected| <= limit + 1
        decreases |records| - s.cursor
      {
        var next := PageTurn(s, after, limit, selected);
        if next.None? {
          break;
        }
        s, selected := next.value.0, next.value.1;
      }
      PageIs(records, s, after, limit, selected);
      r := Ok(Finish(after, limit, selected));
    }

    /** The start of `snapshot`: a cached projection of exactly the published events, or a scan. */
    method CachedSnapshot() returns (hit: Option<S>)
      requires Valid()
      ensures hit.Some? <==> cache.Some? && cache.value.cursor == manifest.cursor
      ensures hit.Some? ==> hit.value == Project(reduce, initial, records[..manifest.cursor])
    {
      if cache.Some? && cache.value.cursor == manifest.cursor {
        hit := Some(cache.value.state);
      } else {
        hit := None;
      }
    }

    /** One turn of the snapshot scan over the first `through` events; `none` means the scan is done. */
    method SnapshotTurn(s: Scan, through: nat, state: S) returns (next: Option<(Scan, S)>)
      requires Valid() && Stands(codec, records, s) && s.cursor <= through <= |records|
      requires state == Project(reduce, initial, records[..s.cursor])
      modifies this`offsets
      ensures Valid()
      ensures next.None? <==> s.cursor == through
      ensures next.Some? ==>
        && next.value.0 == Before(codec, records, s.cursor + 1) && Stands(codec, records, next.value.0)
        && next.value.1 == Project(reduce, initial, records[..s.cursor + 1])
    {
      if s.cursor >= through {
        return None;
      }
      var r := Read(s);
      ProjectPush(reduce, initial, records, s.cursor);
      next := Some((r.scan, reduce(state, r.record.event)));
    }

    /** The end of `snapshot`: cache the projection unless a newer one is there. */
    method Remember(through: nat, state: S)
      requires Valid() && through <= |records| && state == Project(reduce, initial, records[..through])
      modifies this`cache
      ensures Valid()
      ensures cache == if old(cache).None? || old(cache).value.cursor <= through then
        Some(Projection(through, state)) else old(cache)
    {
      if cache.None? || cache.value.cursor <= through {
        cache := Some(Projection(through, state));
      }
    }

    /** A snapshot with nothing interleaved: the reducer folded over the published events. */
    method Snapshot() returns (state: S)
      requires Valid()
      modifies this`offsets, this`cache
      ensures Valid() && state == Project(reduce, initial, records[..manifest.cursor])
    {
      var through := manifest.cursor;
      var hit := CachedSnapshot();
      if hit.Some? {
        return hit.value;
      }
      state := initial;
      var s := Seek(0);
      assert records[..0] == [];
      while true
        invariant Valid() && Stands(codec, records, s) && s.cursor <= through == manifest.cursor
        invariant state == Project(reduce, initial, records[..s.cursor])
        decreases through - s.cursor
      {
        var next := SnapshotTurn(s, through, state);
        if next.None? {
          break;
        }
        s, state := next.value.0, next.value.1;
      }
      Remember(through, state);
    }

    /** The tail repair of startup; a tail without a newline in its window is reported, not touched. */
    method RepairTail() returns (ok: bool)
      modifies this`log
      ensures Repaired(codec, old(log)) == if ok then Some(log) else None
      ensures !ok ==> log == old(log)
    {
      if log == [] || log[|log| - 1] == NEWLINE {
        return true;
      }
      var window := if |log| <= TAIL_WINDOW then |log| else TAIL_WINDOW;
      var buffer := log[|log| - window..];
      var start := |buffer|;
      while start > 0 && buffer[start - 1] != NEWLINE
        invariant 0 <= start <= |buffer| && LastStart(buffer) == LastStart(buffer[..start])
      {
        assert buffer[..start][..start - 1] == buffer[..start - 1];
        start := start - 1;
      }
      if start == 0 && |log| > window {
        return false;
      }
      if codec.json(log[|log| - window + start..]) {
        log := log + [NEWLINE];
      } else {
        log := log[..|log| - window + start];
      }
      ok := true;
    }

    /** `#recoverEventTail` on what a crash leaves: `survivors` are the complete records. */
    method RecoverEventTail(ghost survivors: seq<Stored>) returns (ok: bool)
      requires GoodCodec(codec) && Repaired(codec, log) == Some(Lines(codec, survivors)) &&
        |Lines(codec, survivors)| <= maxBytes
      requires Coherent(codec, Blank(manifest), survivors, Disk(Lines(codec, survivors), manifest))
      modifies this
      ensures ok && Valid() && records == survivors && manifest == Fold(Blank(old(manifest)), survivors)
      ensures Recovered(codec, Disk(old(log), old(manifest))) == Some(Disk(log, manifest))
    {
      ghost var blank := Blank(manifest);
      RecoveredCoherent(codec, blank, survivors, Disk(Lines(codec, survivors), manifest), log);
      BehindFold(blank, survivors, manifest);
      offsets, cache, records := map[], None, survivors;
      ok := RepairTail();
      assert survivors[..0] == [];
      CountedPrefix(blank, survivors, manifest);
      var cursor := CountRecords();
      if manifest.cursor != cursor {
        manifest := Rebuild();
        CountedPrefix(blank, survivors, manifest);
      }
    }

    method CountRecords() returns (cursor: nat)
      requires Valid()
      modifies this`offsets
      ensures Valid() && cursor == |records|
    {
      var s := START;
      assert records[..0] == [];
      while true
        invariant Valid() && Stands(codec, records, s)
        decreases |records| - s.cursor
      {
        var next := Read(s);
        if !next.Yield? {
          break;
        }
        s := next.scan;
      }
      cursor := s.cursor;
    }

    /** Replay every event from the identity fields. */
    method Rebuild() returns (rebuilt: Manifest)
      requires Valid()
      modifies this`offsets
      ensures Valid() && rebuilt == Fold(Blank(manifest), records)
    {
      var s := START;
      ghost var blank := Blank(manifest);
      rebuilt := Blank(manifest);
      assert records[..0] == [];
      while true
        invariant Valid() && Stands(codec, records, s) && rebuilt == Fold(blank, records[..s.cursor])
        decreases |records| - s.cursor
      {
        var next := Read(s);
        if !next.Yield? {
          break;
        }
        assert records[..s.cursor + 1] == records[..s.cursor] + [records[s.cursor]];
        FoldPush(blank, records[..s.cursor], records[s.cursor]);
        rebuilt := ApplyEvent(rebuilt, next.record);
        s := next.scan;
      }
      assert records[..|records|] == records;
    }

    /** A manifest that is at most one record behind is the fold of the records it counts. */
    lemma CountedPrefix(blank: Manifest, survivors: seq<Stored>, manifest: Manifest)
      requires blank == Blank(blank) && Numbered(survivors)
      requires manifest == Fold(blank, survivors) ||
        (survivors != [] && manifest == Fold(blank, survivors[..|survivors| - 1]))
      ensures manifest.cursor <= |survivors| <= manifest.cursor + 1
      ensures manifest == Fold(blank, survivors[..manifest.cursor]) && Blank(manifest) == blank
    {
      FoldCursor(blank, survivors);
      FoldKeepsBlank(blank, survivors);
      assert survivors[..|survivors|] == survivors;
      if survivors != [] {
        FoldCursor(blank, survivors[..|survivors| - 1]);
        FoldKeepsBlank(blank, survivors[..|survivors| - 1]);
      }
    }
  }
}
