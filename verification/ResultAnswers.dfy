/** When reading results is refused, and with which error, for any cursor a caller may send. */
module ResultAnswers {
  import opened Common
  import opened Utf8
  import opened ResultPages
  import opened BulkResults

  /** The cursor stands for a place where a page may begin. */
  ghost predicate NamesPlace(a: Artifact, cursor: string, offset: nat) {
    cursor == "v1." + a.checksum + "." + Decimal(offset) && Boundary(a.bytes, offset)
  }

  ghost predicate NamesOffset(a: Artifact, cursor: string, offset: nat) {
    cursor == "v1." + a.checksum + "." + Decimal(offset) && offset <= a.sizeBytes
  }

  lemma PlaceIff(a: Artifact, cursor: string, offset: nat)
    requires Sound(a)
    ensures NamesPlace(a, cursor, offset) <==> ParseCursor(Some(cursor), a) == Some(offset) && Boundary(a.bytes, offset)
  {
    CursorRoundTrip(a, cursor, offset);
  }

  /** A result stored as it was written: a page of at least 4 and at most 65536 bytes is read from the start, or from
      a cursor that stands for a code point's beginning or the end; everything else is refused. */
  lemma AnswerIff(a: Artifact, cursor: Option<string>, maxBytes: int)
    requires Sound(a)
    ensures var r := ReadResult(a, cursor, maxBytes);
      && (r == Err(BadPageSize) <==> maxBytes < 4 || maxBytes > 65_536)
      && (r == Err(InvalidCursor) <==>
            4 <= maxBytes <= 65_536 && cursor.Some? &&
            !exists offset: nat :: NamesPlace(a, cursor.value, offset))
      && r != Err(CorruptStore)
  {
    if 4 <= maxBytes <= 65_536 {
      var from := ParseCursor(cursor, a);
      if cursor.Some? {
        forall offset: nat
          ensures NamesPlace(a, cursor.value, offset) <==> from == Some(offset) && Boundary(a.bytes, offset)
        {
          PlaceIff(a, cursor.value, offset);
        }
      }
      assert a.bytes[..0] == [] && a.bytes[..|a.bytes|] == a.bytes;
      if from.Some? && from.value < |a.bytes| {
        OffBoundaryRefused(a, from.value, maxBytes);
        if Boundary(a.bytes, from.value) {
          PageFromBoundary(a, from.value, maxBytes);
        }
      }
      assert from.Some? && Boundary(a.bytes, from.value) && cursor.Some? ==>
        NamesPlace(a, cursor.value, from.value);
    }
  }

  /** A result whose size is not the promised one is reported as corrupt, whatever part is asked for. */
  lemma WrongSizeIsCorrupt(a: Artifact, cursor: Option<string>, maxBytes: int)
    requires |a.bytes| != a.sizeBytes && HexDigits(a.checksum) && 4 <= maxBytes <= 65_536
    ensures ReadResult(a, cursor, maxBytes) == Err(CorruptStore) <==>
      cursor.None? || exists offset: nat :: NamesOffset(a, cursor.value, offset)
  {
    var from := ParseCursor(cursor, a);
    if cursor.Some? {
      forall offset: nat ensures from == Some(offset) <==> NamesOffset(a, cursor.value, offset) {
        CursorRoundTrip(a, cursor.value, offset);
      }
    }
  }

  lemma {:induction false} PrefixIsValid(t: Bytes, trim: nat)
    requires trim <= 4
    ensures Prefix(t, trim).Some? ==> Valid(t[..Prefix(t, trim).value])
    decreases 4 - trim
  {
    if trim <= 3 && trim <= |t| && !Valid(t[..|t| - trim]) {
      PrefixIsValid(t, trim + 1);
    }
  }

  /** Whatever is stored, no page carries broken text. */
  lemma NoBrokenText(a: Artifact, cursor: Option<string>, maxBytes: int)
    ensures var r := ReadResult(a, cursor, maxBytes);
      r.Ok? ==> Valid(r.value.content) && |r.value.content| <= maxBytes <= 65_536
  {
    var from := ParseCursor(cursor, a);
    if from.Some? && from.value < |a.bytes| && 4 <= maxBytes <= 65_536 {
      PrefixIsValid(Window(a, from.value, maxBytes), 0);
    }
  }

  /** A SHA-256 digest in hexadecimal. */
  lemma HexDigitsIff(s: string)
    ensures HexDigits(s) <==> |s| == 64 && forall i :: 0 <= i < |s| ==> s[i] in "0123456789abcdef"
  {
    var hex := "0123456789abcdef";
    assert forall c :: c in hex <==> '0' <= c <= '9' || 'a' <= c <= 'f' by {
      forall c | '0' <= c <= '9' || 'a' <= c <= 'f' ensures c in hex {
        var i := if c <= '9' then c as int - '0' as int else c as int - 'a' as int + 10;
        assert hex[i] == c;
      }
    }
    assert forall i :: 0 <= i < |s| ==> s[i] in s;
  }

  // ---------------------------------------------------------------------------------------------
  // Several agents
  // ---------------------------------------------------------------------------------------------

  /** No line terminator of ECMAScript. */
  predicate OneLine(s: string) {
    forall i :: 0 <= i < |s| ==> s[i] !in ['\n', '\r', '\U{2028}', '\U{2029}']
  }

  ghost predicate NamesAgent(s: string, id: string, inner: string) {
    AgentId(id) && OneLine(inner) && s == "v1." + id + "." + inner
  }

  lemma MalformedIff(s: string)
    ensures ParseBulk(Some(s)).Malformed? <==> !exists id, inner :: NamesAgent(s, id, inner)
  {
    var parsed := ParseBulk(Some(s));
    if !parsed.Malformed? {
      var n := DigitRun(s[9..]);
      var (id, inner) := (s[3..9 + n], s[10 + n..]);
      assert s == s[..3] + id + [s[9 + n]] + inner;
      assert s[..9][..3] == "v1." && id[..6] == s[..9][3..] && id[6..] == s[9..][..n];
      assert NamesAgent(s, id, inner);
    }
    if id, inner :| NamesAgent(s, id, inner) {
      BulkRoundTrip(id, inner);
    }
  }

  lemma NamedAgent(s: string, id: string, inner: string, id': string, inner': string)
    requires NamesAgent(s, id, inner) && NamesAgent(s, id', inner')
    ensures id == id' && inner == inner'
  {
    BulkRoundTrip(id, inner);
    BulkRoundTrip(id', inner');
  }

  /** A bulk read is refused for a page size out of range, or a cursor that names no agent of the listing. */
  lemma BulkAnswerIff(agents: seq<Agent>, cursor: Option<string>, maxBytes: int)
    requires Listing(agents)
    ensures var r := Respond(agents, cursor, maxBytes);
      && (r == Err(BadPageSize) <==> maxBytes < 4 || maxBytes > 65_536)
      && (r == Err(InvalidCursor) <==>
            4 <= maxBytes <= 65_536 && cursor.Some? &&
            !exists i, inner :: 0 <= i < |agents| && NamesAgent(cursor.value, agents[i].id, inner))
      && r != Err(CorruptStore)
  {
    if 4 <= maxBytes <= 65_536 && cursor.Some? {
      var s := cursor.value;
      MalformedIff(s);
      if i, inner :| 0 <= i < |agents| && NamesAgent(s, agents[i].id, inner) {
        BulkRoundTrip(agents[i].id, inner);
        FoundAgent(agents, i);
      } else if id, inner :| NamesAgent(s, id, inner) {
        BulkRoundTrip(id, inner);
        assert forall i :: 0 <= i < |agents| ==> agents[i].id != id;
        assert FindAgent(agents, id) == |agents|;
      }
    }
  }

  lemma {:induction false} CollectIsBounded(agents: seq<Agent>, index: nat, inner: Option<string>, maxBytes: int,
      items: seq<Item>, skipped: seq<nat>)
    requires index <= |agents| && |items| < 20
    ensures var r := Collect(agents, index, inner, maxBytes, items, skipped);
      && |r.items| <= 20
      && (r.nextCursor.Some? ==> r.items != [] && (|r.items| == 20 || r.items[|r.items| - 1].page.hasMore))
    decreases |agents| - index
  {
    if index < |agents| {
      var read := Read(agents[index], inner, maxBytes);
      if read.Err? {
        CollectIsBounded(agents, index + 1, None, maxBytes, items, skipped + [index]);
      } else if !(read.value.hasMore && read.value.nextCursor.Some?) && |items| + 1 < 20 {
        CollectIsBounded(agents, index + 1, None, maxBytes, items + [Item(index, read.value)], skipped);
      }
    }
  }

  /** A response holds at most twenty pages, and stops before the last agent only when it holds twenty or its last
      page has more to come. */
  lemma ResponsesAreBounded(agents: seq<Agent>, cursor: Option<string>, maxBytes: int)
    ensures var r := Respond(agents, cursor, maxBytes);
      r.Ok? ==>
        && |r.value.items| <= 20
        && (r.value.nextCursor.Some? ==>
              r.value.items != [] && (|r.value.items| == 20 || r.value.items[|r.value.items| - 1].page.hasMore))
  {
    if 4 <= maxBytes <= 65_536 {
      match ParseBulk(cursor)
      case Start => CollectIsBounded(agents, 0, None, maxBytes, [], []);
      case Malformed =>
      case AtAgent(id, inner) =>
        var i := FindAgent(agents, id);
        CollectIsBounded(agents, i, inner, maxBytes, [], []);
    }
  }
}
