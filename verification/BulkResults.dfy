/**
  Walking the results of all agents of a run, `readAgentResults` of src/workflowService.ts:1061-1145: one
  page per agent and call, a composite cursor, and damaged agents that are skipped.
 */
module BulkResults {
  import opened Common
  import opened Utf8
  import opened ResultPages

  const PAGE_ITEMS := 20

  /** A readable agent; `damaged` when its stored result cannot be read. */
  datatype Agent = Agent(id: string, artifact: Artifact, damaged: bool)

  datatype Item = Item(agent: nat, page: Page)

  /** `skipped` are the damaged agents this call came across. */
  datatype Response = Response(items: seq<Item>, skipped: seq<nat>, nextCursor: Option<string>)

  // ---------------------------------------------------------------------------------------------
  // The composite cursor
  // ---------------------------------------------------------------------------------------------

  const PREFIX := "v1.agent_"

  /** `agent_[0-9]+` */
  predicate AgentId(id: string) {
    |id| > 6 && id[..6] == "agent_" && forall c :: c in id[6..] ==> Digit(c)
  }

  function PrintBulk(id: string, inner: string): string {
    VERSION + id + "." + inner
  }

  predicate LineBreak(c: char) {
    c == '\n' || c == '\r' || c == '\U{2028}' || c == '\U{2029}'
  }

  /** The length of the run of digits at the start. */
  function DigitRun(s: string): (n: nat)
    ensures n <= |s| && (forall c :: c in s[..n] ==> Digit(c)) && (n < |s| ==> !Digit(s[n]))
  {
    if s == [] || !Digit(s[0]) then 0
    else
      var n := 1 + DigitRun(s[1..]);
      assert s[..n] == [s[0]] + s[1..][..n - 1];
      n
  }

  datatype BulkCursor = Start | AtAgent(id: string, inner: Option<string>) | Malformed

  /** `^v1\.(agent_[0-9]+)\.(.*)$` */
  function ParseBulk(cursor: Option<string>): BulkCursor {
    match cursor
    case None => Start
    case Some(s) =>
      if |s| < 9 || s[..9] != PREFIX then Malformed
      else
        var n := DigitRun(s[9..]);
        if n == 0 || 9 + n == |s| || s[9 + n] != '.' then Malformed
        else
          var inner := s[10 + n..];
          if exists i :: 0 <= i < |inner| && LineBreak(inner[i]) then Malformed
          else AtAgent(s[3..9 + n], if inner == [] then None else Some(inner))
  }

  lemma DigitRunIs(digits: string, more: string)
    requires (forall c :: c in digits ==> Digit(c)) && more != [] && !Digit(more[0])
    ensures DigitRun(digits + more) == |digits|
  {
    var s := digits + more;
    var n := DigitRun(s);
    assert forall i :: 0 <= i < |digits| ==> s[i] == digits[i] && digits[i] in digits;
    assert s[|digits|] == more[0];
    assert forall i :: 0 <= i < n ==> s[i] in s[..n];
  }

  lemma BulkRoundTrip(id: string, inner: string)
    requires AgentId(id) && forall i :: 0 <= i < |inner| ==> !LineBreak(inner[i])
    ensures ParseBulk(Some(PrintBulk(id, inner))) == AtAgent(id, if inner == [] then None else Some(inner))
  {
    var s, digits := PrintBulk(id, inner), id[6..];
    assert s[..9] == VERSION + id[..6];
    assert s[9..] == digits + ("." + inner);
    DigitRunIs(digits, "." + inner);
    assert s[3..9 + |digits|] == id && s[10 + |digits|..] == inner;
  }

  // ---------------------------------------------------------------------------------------------
  // One call
  // ---------------------------------------------------------------------------------------------

  function Read(agent: Agent, inner: Option<string>, maxBytes: int): Result<Page> {
    if agent.damaged then Err(CorruptStore) else ReadResult(agent.artifact, inner, maxBytes)
  }

  function FindAgent(agents: seq<Agent>, id: string): (i: nat)
    ensures i <= |agents| && (i < |agents| ==> agents[i].id == id) && (forall j :: 0 <= j < i ==> agents[j].id != id)
  {
    if agents == [] || agents[0].id == id then 0 else 1 + FindAgent(agents[1..], id)
  }

  /** The call from agent `index` on, with what it has so far. */
  function Collect(agents: seq<Agent>, index: nat, inner: Option<string>, maxBytes: int, items: seq<Item>,
      skipped: seq<nat>): Response
    requires index <= |agents|
    decreases |agents| - index
  {
    if index == |agents| then Response(items, skipped, None)
    else
      match Read(agents[index], inner, maxBytes)
      case Err(_) => Collect(agents, index + 1, None, maxBytes, items, skipped + [index])
      case Ok(page) =>
        var more := items + [Item(index, page)];
        if page.hasMore && page.nextCursor.Some? then
          Response(more, skipped, Some(PrintBulk(agents[index].id, page.nextCursor.value)))
        else if |more| >= PAGE_ITEMS then
          Response(more, skipped, if index + 1 < |agents| then Some(PrintBulk(agents[index + 1].id, "")) else None)
        else Collect(agents, index + 1, None, maxBytes, more, skipped)
  }

  function Respond(agents: seq<Agent>, cursor: Option<string>, maxBytes: int): Result<Response> {
    if maxBytes < MIN_PAGE || maxBytes > MAX_PAGE then Err(BadPageSize)
    else
      match ParseBulk(cursor)
      case Start => Ok(Collect(agents, 0, None, maxBytes, [], []))
      case Malformed => Err(InvalidCursor)
      case AtAgent(id, inner) =>
        var i := FindAgent(agents, id);
        if i == |agents| then Err(InvalidCursor) else Ok(Collect(agents, i, inner, maxBytes, [], []))
  }

  /** `readAgentResults` */
  method ReadAgentResults(agents: seq<Agent>, cursor: Option<string>, maxBytes: int) returns (r: Result<Response>)
    ensures r == Respond(agents, cursor, maxBytes)
  {
    if maxBytes < MIN_PAGE || maxBytes > MAX_PAGE {
      return Err(BadPageSize);
    }
    var parsed := ParseBulk(cursor);
    if parsed.Malformed? {
      return Err(InvalidCursor);
    }
    var start := 0;
    if parsed.AtAgent? {
      start := FindAgent(agents, parsed.id);
      if start == |agents| {
        return Err(InvalidCursor);
      }
    }
    var inner := if parsed.AtAgent? then parsed.inner else None;
    var items: seq<Item> := [];
    var skipped: seq<nat> := [];
    var index := start;
    while index < |agents|
      invariant start <= index <= |agents|
      invariant Respond(agents, cursor, maxBytes) ==
        Ok(Collect(agents, index, if index == start then inner else None, maxBytes, items, skipped))
    {
      var page := Read(agents[index], if index == start then inner else None, maxBytes);
      if page.Err? {
        skipped := skipped + [index];
      } else {
        items := items + [Item(index, page.value)];
        if page.value.hasMore && page.value.nextCursor.Some? {
          return Ok(Response(items, skipped, Some(PrintBulk(agents[index].id, page.value.nextCursor.value))));
        }
        if |items| >= PAGE_ITEMS {
          return Ok(Response(items, skipped, if index + 1 < |agents| then Some(PrintBulk(agents[index + 1].id, ""))
            else None));
        }
      }
      index := index + 1;
    }
    r := Ok(Response(items, skipped, None));
  }

  // ---------------------------------------------------------------------------------------------
  // The whole walk
  // ---------------------------------------------------------------------------------------------

  ghost predicate Listing(agents: seq<Agent>) {
    && (forall i :: 0 <= i < |agents| ==> AgentId(agents[i].id) && (agents[i].damaged || Sound(agents[i].artifact)))
    && (forall i, j :: 0 <= i < j < |agents| ==> agents[i].id != agents[j].id)
  }

  /** The pages of one agent from an offset. */
  function Tagged(i: nat, pages: seq<Page>): seq<Item> {
    if pages == [] then [] else [Item(i, pages[0])] + Tagged(i, pages[1..])
  }

  function AgentPages(agents: seq<Agent>, i: nat, from: nat, maxBytes: nat): seq<Item>
    requires i < |agents|
  {
    if agents[i].damaged then [] else Tagged(i, Walk(agents[i].artifact, from, maxBytes))
  }

  /** Everything there is to read from agent `i` at offset `from`: that agent's pages, then all pages of
      the later agents in order. */
  function Stream(agents: seq<Agent>, i: nat, from: nat, maxBytes: nat): seq<Item>
    requires i <= |agents|
    decreases |agents| - i
  {
    if i == |agents| then [] else AgentPages(agents, i, from, maxBytes) + Stream(agents, i + 1, 0, maxBytes)
  }

  /** Where a caller stands. */
  datatype Place = Place(agent: nat, from: nat)

  ghost predicate At(agents: seq<Agent>, p: Place) {
    p.agent < |agents| && (p.from == 0 ||
      (!agents[p.agent].damaged && Boundary(agents[p.agent].artifact.bytes, p.from)))
  }

  /** A cursor that names a place. */
  ghost predicate Names(agents: seq<Agent>, cursor: string, p: Place)
    requires p.agent < |agents|
  {
    cursor == PrintBulk(agents[p.agent].id, if p.from == 0 then ""
      else PrintCursor(agents[p.agent].artifact.checksum, p.from))
  }

  function InnerOf(agents: seq<Agent>, p: Place): Option<string>
    requires p.agent < |agents|
  {
    if p.from == 0 then None else Some(PrintCursor(agents[p.agent].artifact.checksum, p.from))
  }

  lemma PrintedHasNoBreak(checksum: string, offset: nat)
    requires HexDigits(checksum)
    ensures forall i :: 0 <= i < |PrintCursor(checksum, offset)| ==> !LineBreak(PrintCursor(checksum, offset)[i])
  {
    var s, d := PrintCursor(checksum, offset), Decimal(offset);
    forall i | 0 <= i < |s| ensures !LineBreak(s[i]) {
      if 3 <= i < 67 {
        assert s[i] == checksum[i - 3] && checksum[i - 3] in checksum;
      } else if i >= 68 {
        assert s[i] == d[i - 68] && d[i - 68] in d;
      }
    }
  }

  lemma FoundAgent(agents: seq<Agent>, i: nat)
    requires Listing(agents) && i < |agents|
    ensures FindAgent(agents, agents[i].id) == i
  {
  }

  /** Continuing at a printed cursor is continuing at its place. */
  lemma CursorContinues(agents: seq<Agent>, cursor: string, p: Place, maxBytes: nat)
    requires Listing(agents) && At(agents, p) && Names(agents, cursor, p) && MIN_PAGE <= maxBytes <= MAX_PAGE
    ensures Respond(agents, Some(cursor), maxBytes) ==
      Ok(Collect(agents, p.agent, InnerOf(agents, p), maxBytes, [], []))
  {
    var a := agents[p.agent];
    if p.from > 0 {
      PrintedHasNoBreak(a.artifact.checksum, p.from);
      BulkRoundTrip(a.id, PrintCursor(a.artifact.checksum, p.from));
    } else {
      BulkRoundTrip(a.id, "");
    }
    FoundAgent(agents, p.agent);
  }

  lemma TaggedPush(i: nat, page: Page, rest: seq<Page>)
    ensures Tagged(i, [page] + rest) == [Item(i, page)] + Tagged(i, rest)
  {
    assert ([page] + rest)[1..] == rest;
  }

  /** One page off an agent's pages. */
  lemma PagesStep(i: nat, pages: seq<Page>, page: Page, rest: seq<Page>)
    requires pages == if page.hasMore then [page] + rest else [page]
    ensures Tagged(i, pages) == [Item(i, page)] + if page.hasMore then Tagged(i, rest) else []
  {
    TaggedPush(i, page, if page.hasMore then rest else []);
    assert [page] + [] == [page];
  }

  /** Reading an undamaged agent at a place yields the first page of its walk. */
  lemma ReadAtPlace(agents: seq<Agent>, p: Place, maxBytes: nat)
    requires Listing(agents) && At(agents, p) && !agents[p.agent].damaged && MIN_PAGE <= maxBytes <= MAX_PAGE
    ensures var a := agents[p.agent].artifact; var r := Read(agents[p.agent], InnerOf(agents, p), maxBytes);
      && r == PageAt(a, p.from, maxBytes) && r.Ok?
      && (r.value.hasMore ==>
            (p.from < r.value.toByte < |a.bytes| && Boundary(a.bytes, r.value.toByte)
              && r.value.nextCursor == Some(PrintCursor(a.checksum, r.value.toByte))))
      && AgentPages(agents, p.agent, p.from, maxBytes) ==
           [Item(p.agent, r.value)] + if r.value.hasMore then AgentPages(agents, p.agent, r.value.toByte, maxBytes)
             else []
  {
    var a := agents[p.agent].artifact;
    if p.from > 0 {
      CursorRoundTrip(a, PrintCursor(a.checksum, p.from), p.from);
    }
    assert Boundary(a.bytes, p.from) by {
      assert a.bytes[..0] == [];
    }
    if p.from < |a.bytes| {
      PageFromBoundary(a, p.from, maxBytes);
    }
    var page := PageAt(a, p.from, maxBytes).value;
    PagesStep(p.agent, Walk(a, p.from, maxBytes), page, Walk(a, page.toByte, maxBytes));
  }

  lemma PutItem(item: Item, items: seq<Item>, later: seq<Item>)
    ensures [item] + items + later == [item] + (items + later) && [] + later == later
  {
  }

  /** One page off the stream. */
  lemma StreamStep(agents: seq<Agent>, p: Place, page: Page, maxBytes: nat)
    requires p.agent < |agents|
    requires AgentPages(agents, p.agent, p.from, maxBytes) ==
      [Item(p.agent, page)] + if page.hasMore then AgentPages(agents, p.agent, page.toByte, maxBytes) else []
    ensures Stream(agents, p.agent, p.from, maxBytes) == [Item(p.agent, page)] +
      if page.hasMore then Stream(agents, p.agent, page.toByte, maxBytes) else Stream(agents, p.agent + 1, 0, maxBytes)
  {
    var rest := if page.hasMore then AgentPages(agents, p.agent, page.toByte, maxBytes) else [];
    PutItem(Item(p.agent, page), rest, Stream(agents, p.agent + 1, 0, maxBytes));
  }

  /** Where the next call continues, or the end. */
  ghost predicate Continues(agents: seq<Agent>, next: Option<string>, p: Place) {
    if p.agent == |agents| then next.None? else At(agents, p) && next.Some? && Names(agents, next.value, p)
  }

  /** The measure a walk decreases: agents left, then bytes left in the current one. */
  predicate Before(p: Place, q: Place) {
    p.agent < q.agent || (p.agent == q.agent && p.from < q.from)
  }

  /** What one call delivers: the items up to a later place, and the cursor that names it. */
  ghost predicate Delivers(agents: seq<Agent>, p: Place, r: Response, items: seq<Item>, maxBytes: nat, q: Place) {
    && p.agent <= |agents| && q.agent <= |agents|
    && Continues(agents, r.nextCursor, q)
    && r.items + Stream(agents, q.agent, q.from, maxBytes) == items + Stream(agents, p.agent, p.from, maxBytes)
    && (if p.agent < |agents| then Before(p, q) else q == p)
  }

  lemma Transitive(agents: seq<Agent>, p: Place, o: Place, r: Response, items: seq<Item>, more: seq<Item>,
      maxBytes: nat, q: Place)
    requires Delivers(agents, o, r, more, maxBytes, q) && p.agent < |agents| && o.agent == p.agent + 1
    requires more + Stream(agents, o.agent, o.from, maxBytes) == items + Stream(agents, p.agent, p.from, maxBytes)
    ensures Delivers(agents, p, r, items, maxBytes, q)
  {
  }

  lemma Regroup(items: seq<Item>, item: Item, rest: seq<Item>)
    ensures items + [item] + rest == items + ([item] + rest)
  {
  }

  lemma {:induction false} CollectDelivers(agents: seq<Agent>, p: Place, maxBytes: nat, items: seq<Item>,
      skipped: seq<nat>) returns (q: Place)
    requires Listing(agents) && MIN_PAGE <= maxBytes <= MAX_PAGE && (At(agents, p) || p == Place(|agents|, 0))
    ensures Delivers(agents, p,
      Collect(agents, p.agent, if p.agent < |agents| then InnerOf(agents, p) else None, maxBytes, items, skipped),
      items, maxBytes, q)
    decreases |agents| - p.agent
  {
    if p.agent == |agents| {
      q := p;
    } else {
      var next := Place(p.agent + 1, 0);
      var r := Collect(agents, p.agent, InnerOf(agents, p), maxBytes, items, skipped);
      if agents[p.agent].damaged {
        q := CollectDelivers(agents, next, maxBytes, items, skipped + [p.agent]);
        assert [] + Stream(agents, next.agent, 0, maxBytes) == Stream(agents, next.agent, 0, maxBytes);
        Transitive(agents, p, next, r, items, items, maxBytes, q);
      } else {
        ReadAtPlace(agents, p, maxBytes);
        var page := Read(agents[p.agent], InnerOf(agents, p), maxBytes).value;
        var more := items + [Item(p.agent, page)];
        StreamStep(agents, p, page, maxBytes);
        if page.hasMore {
          q := Place(p.agent, page.toByte);
          Regroup(items, Item(p.agent, page), Stream(agents, q.agent, q.from, maxBytes));
        } else {
          Regroup(items, Item(p.agent, page), Stream(agents, next.agent, 0, maxBytes));
          if |more| >= PAGE_ITEMS {
            q := next;
          } else {
            q := CollectDelivers(agents, next, maxBytes, more, skipped);
            Transitive(agents, p, next, r, items, more, maxBytes, q);
          }
        }
      }
    }
  }

  lemma CallAdvances(agents: seq<Agent>, p: Place, maxBytes: nat)
    requires Listing(agents) && MIN_PAGE <= maxBytes <= MAX_PAGE && At(agents, p)
    ensures exists q: Place ::
      Delivers(agents, p, Collect(agents, p.agent, InnerOf(agents, p), maxBytes, [], []), [], maxBytes, q)
  {
    var q := CollectDelivers(agents, p, maxBytes, [], []);
  }

  /** Bytes left in the agent a place is in. */
  function Left(agents: seq<Agent>, p: Place): nat {
    if p.agent < |agents| && p.from <= |agents[p.agent].artifact.bytes| then
      |agents[p.agent].artifact.bytes| - p.from + 1 else 0
  }

  /** Everything a caller receives by following `nextCursor` from a place until there is none. */
  ghost function Received(agents: seq<Agent>, p: Place, maxBytes: nat): seq<Item>
    requires Listing(agents) && MIN_PAGE <= maxBytes <= MAX_PAGE && (At(agents, p) || p == Place(|agents|, 0))
    decreases |agents| - p.agent, Left(agents, p)
  {
    if p.agent == |agents| then []
    else
      var r := Collect(agents, p.agent, InnerOf(agents, p), maxBytes, [], []);
      CallAdvances(agents, p, maxBytes);
      var q: Place :| Delivers(agents, p, r, [], maxBytes, q);
      r.items + (if r.nextCursor.None? then [] else Received(agents, q, maxBytes))
  }

  lemma {:induction false} ReceivedIsStream(agents: seq<Agent>, p: Place, maxBytes: nat)
    requires Listing(agents) && MIN_PAGE <= maxBytes <= MAX_PAGE && (At(agents, p) || p == Place(|agents|, 0))
    ensures Received(agents, p, maxBytes) == Stream(agents, p.agent, p.from, maxBytes)
    decreases |agents| - p.agent, Left(agents, p)
  {
    if p.agent < |agents| {
      var r := Collect(agents, p.agent, InnerOf(agents, p), maxBytes, [], []);
      CallAdvances(agents, p, maxBytes);
      var q: Place :| Delivers(agents, p, r, [], maxBytes, q) && Received(agents, p, maxBytes) ==
        r.items + (if r.nextCursor.None? then [] else Received(agents, q, maxBytes));
      assert [] + Stream(agents, p.agent, p.from, maxBytes) == Stream(agents, p.agent, p.from, maxBytes);
      if r.nextCursor.Some? {
        ReceivedIsStream(agents, q, maxBytes);
      }
    }
  }

  // ---------------------------------------------------------------------------------------------
  // What the stream holds
  // ---------------------------------------------------------------------------------------------

  /** The bytes of agent `i` in a list of items. */
  function BytesOf(items: seq<Item>, i: nat): Bytes {
    if items == [] then []
    else (if items[0].agent == i then items[0].page.content else []) + BytesOf(items[1..], i)
  }

  lemma ConcatIsAssociative(x: Bytes, y: Bytes, z: Bytes)
    ensures x + (y + z) == x + y + z
  {
  }

  lemma {:induction false} BytesOfAppend(a: seq<Item>, b: seq<Item>, i: nat)
    ensures BytesOf(a + b, i) == BytesOf(a, i) + BytesOf(b, i)
    decreases |a|
  {
    if a == [] {
      assert a + b == b;
    } else {
      BytesOfAppend(a[1..], b, i);
      assert (a + b)[1..] == a[1..] + b;
      ConcatIsAssociative(if a[0].agent == i then a[0].page.content else [], BytesOf(a[1..], i), BytesOf(b, i));
    }
  }

  lemma {:induction false} BytesOfTagged(k: nat, pages: seq<Page>, i: nat)
    ensures BytesOf(Tagged(k, pages), i) == if k == i then Contents(pages) else []
    decreases |pages|
  {
    if pages != [] {
      BytesOfTagged(k, pages[1..], i);
      assert Tagged(k, pages)[1..] == Tagged(k, pages[1..]);
    }
  }

  /** Each agent that can be read contributes exactly its bytes, and no other agent contributes any. */
  lemma {:induction false} StreamBytes(agents: seq<Agent>, k: nat, maxBytes: nat, i: nat)
    requires Listing(agents) && MIN_PAGE <= maxBytes && k <= |agents| && i < |agents|
    ensures BytesOf(Stream(agents, k, 0, maxBytes), i) == if k <= i && !agents[i].damaged then
      agents[i].artifact.bytes else []
    decreases |agents| - k
  {
    if k < |agents| {
      StreamBytes(agents, k + 1, maxBytes, i);
      BytesOfAppend(AgentPages(agents, k, 0, maxBytes), Stream(agents, k + 1, 0, maxBytes), i);
      if !agents[k].damaged {
        var a := agents[k].artifact;
        assert a.bytes[..0] == [] && a.bytes[0..] == a.bytes;
        WalkIsLossless(a, 0, maxBytes);
        BytesOfTagged(k, Walk(a, 0, maxBytes), i);
      }
    }
  }

  ghost predicate InOrder(items: seq<Item>, from: nat) {
    && (forall x :: 0 <= x < |items| ==> items[x].agent >= from)
    && (forall x, y :: 0 <= x < y < |items| ==> items[x].agent <= items[y].agent)
  }

  lemma {:induction false} TaggedAgent(k: nat, pages: seq<Page>)
    ensures |Tagged(k, pages)| == |pages| && forall x :: 0 <= x < |pages| ==> Tagged(k, pages)[x] == Item(k, pages[x])
    decreases |pages|
  {
    if pages != [] {
      TaggedAgent(k, pages[1..]);
    }
  }

  lemma {:induction false} StreamInOrder(agents: seq<Agent>, k: nat, from: nat, maxBytes: nat)
    requires k <= |agents|
    ensures InOrder(Stream(agents, k, from, maxBytes), k)
    decreases |agents| - k
  {
    if k < |agents| {
      StreamInOrder(agents, k + 1, 0, maxBytes);
      TaggedAgent(k, Walk(agents[k].artifact, from, maxBytes));
    }
  }

  /** The bulk walk is lossless: following `nextCursor` ends, delivers every undamaged agent's bytes
      exactly once and in one contiguous block, and visits agents in listing order. */
  lemma BulkWalkIsLossless(agents: seq<Agent>, maxBytes: nat, i: nat)
    requires Listing(agents) && agents != [] && MIN_PAGE <= maxBytes <= MAX_PAGE && i < |agents|
    ensures var items := Received(agents, Place(0, 0), maxBytes);
      && BytesOf(items, i) == (if agents[i].damaged then [] else agents[i].artifact.bytes)
      && InOrder(items, 0)
  {
    ReceivedIsStream(agents, Place(0, 0), maxBytes);
    StreamBytes(agents, 0, maxBytes, i);
    StreamInOrder(agents, 0, 0, maxBytes);
  }
}
