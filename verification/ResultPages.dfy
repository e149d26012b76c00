/**
  Paging a stored result, src/fileWorkflowStore.ts:845-935 and 2004-2176: cursors, pages cut at
  code-point boundaries, and the walk a caller makes by following `nextCursor`.
 */
module ResultPages {
  import opened Common
  import opened Utf8

  const MIN_PAGE := 4
  const MAX_PAGE := 64 * 1024

  datatype Error = InvalidCursor | CorruptStore | BadPageSize

  datatype Result<T> = Ok(value: T) | Err(error: Error)

  /** The stored bytes, and the size and checksum that the metadata promises. */
  datatype Artifact = Artifact(bytes: Bytes, sizeBytes: nat, checksum: string)

  /** Decoding is injective, so a page's text is kept as its bytes. */
  datatype Page = Page(fromByte: nat, toByte: nat, content: Bytes, hasMore: bool, nextCursor: Option<string>)

  // ---------------------------------------------------------------------------------------------
  // Cursors
  // ---------------------------------------------------------------------------------------------

  predicate Digit(c: char) {
    '0' <= c <= '9'
  }

  function DigitOf(n: nat): char
    requires n < 10
  {
    '0' + n as char
  }

  function Decimal(n: nat): (s: string)
    ensures s != [] && (forall c :: c in s ==> Digit(c))
  {
    if n < 10 then [DigitOf(n)] else Decimal(n / 10) + [DigitOf(n - 10 * (n / 10))]
  }

  function Value(c: char): nat
    requires Digit(c)
  {
    c as int - '0' as int
  }

  function Number(s: string): nat
    requires forall c :: c in s ==> Digit(c)
  {
    if s == [] then 0
    else
      assert s[|s| - 1] in s && forall c :: c in s[..|s| - 1] ==> c in s;
      10 * Number(s[..|s| - 1]) + Value(s[|s| - 1])
  }

  /** `0|[1-9][0-9]*` */
  predicate Canonical(s: string) {
    s != [] && (forall c :: c in s ==> Digit(c)) && (s[0] == '0' ==> |s| == 1)
  }

  predicate HexDigits(s: string) {
    |s| == 64 && forall c :: c in s ==> Digit(c) || 'a' <= c <= 'f'
  }

  const VERSION := "v1."

  function PrintCursor(checksum: string, offset: nat): string {
    VERSION + checksum + "." + Decimal(offset)
  }

  /** The offset, or `None` for a malformed or stale cursor. */
  function ParseCursor(cursor: Option<string>, a: Artifact): Option<nat> {
    match cursor
    case None => Some(0)
    case Some(s) =>
      if |s| < 68 || s[..3] != VERSION || s[67] != '.' || s[3..67] != a.checksum || !Canonical(s[68..]) then None
      else if Number(s[68..]) > a.sizeBytes then None
      else Some(Number(s[68..]))
  }

  lemma {:induction false} NumberOfDecimal(n: nat)
    ensures Number(Decimal(n)) == n && Canonical(Decimal(n)) && (n > 0 ==> Decimal(n)[0] != '0')
    decreases n
  {
    var s := Decimal(n);
    if n >= 10 {
      NumberOfDecimal(n / 10);
      assert s[..|s| - 1] == Decimal(n / 10);
      assert s[0] == Decimal(n / 10)[0];
    } else {
      assert s[..0] == [];
    }
  }

  lemma DecimalPush(k: nat, d: nat)
    requires k > 0 && d < 10
    ensures Decimal(10 * k + d) == Decimal(k) + [DigitOf(d)]
  {
    assert (10 * k + d) / 10 == k;
  }

  lemma {:induction false} DecimalOfNumber(s: string)
    requires Canonical(s)
    ensures Decimal(Number(s)) == s && (s[0] != '0' ==> Number(s) > 0)
    decreases |s|
  {
    var n := |s| - 1;
    var last := s[n];
    assert last in s;
    if n == 0 {
      assert s[..0] == [];
    } else {
      var init := s[..n];
      assert forall c :: c in init ==> c in s;
      assert init[0] == s[0];
      DecimalOfNumber(init);
      DecimalPush(Number(init), Value(last));
      assert s == init + [last];
    }
  }

  /** Parsing undoes printing, and accepts nothing else: a cursor is valid exactly when it is the printed
      form of an offset into this very content. */
  lemma CursorRoundTrip(a: Artifact, s: string, offset: nat)
    requires HexDigits(a.checksum)
    ensures ParseCursor(Some(s), a) == Some(offset) <==> s == PrintCursor(a.checksum, offset) && offset <= a.sizeBytes
  {
    var t := PrintCursor(a.checksum, offset);
    NumberOfDecimal(offset);
    assert t[..3] == VERSION && t[3..67] == a.checksum && t[67] == '.' && t[68..] == Decimal(offset);
    if ParseCursor(Some(s), a) == Some(offset) {
      DecimalOfNumber(s[68..]);
      assert s == s[..3] + s[3..67] + [s[67]] + s[68..];
    }
  }

  // ---------------------------------------------------------------------------------------------
  // Pages
  // ---------------------------------------------------------------------------------------------

  /** The longest valid prefix among those `trim`, `trim + 1`, … at most 3 bytes short. */
  function Prefix(t: Bytes, trim: nat): (n: Option<nat>)
    requires trim <= 4
    ensures n.Some? ==> n.value <= |t|
    decreases 4 - trim
  {
    if trim > 3 || trim > |t| then None
    else if Valid(t[..|t| - trim]) then Some(|t| - trim)
    else Prefix(t, trim + 1)
  }

  /** `decodeCompleteUtf8Prefix` */
  method DecodeCompletePrefix(t: Bytes) returns (n: Option<nat>)
    ensures n == Prefix(t, 0)
  {
    var trim := 0;
    while trim <= 3 && trim <= |t|
      invariant trim <= 4 && Prefix(t, 0) == Prefix(t, trim)
    {
      if Valid(t[..|t| - trim]) {
        return Some(|t| - trim);
      }
      trim := trim + 1;
    }
    n := None;
  }

  function Min(a: nat, b: nat): nat {
    if a <= b then a else b
  }

  /** The bytes a page is cut from. */
  function Window(a: Artifact, from: nat, maxBytes: nat): (t: Bytes)
    requires from <= |a.bytes|
    ensures |t| == Min(maxBytes, |a.bytes| - from)
  {
    a.bytes[from..from + Min(maxBytes, |a.bytes| - from)]
  }

  /** The page of the first `n` bytes of the window. */
  function Cut(a: Artifact, from: nat, window: Bytes, n: nat): Page
    requires n <= |window|
  {
    var to := from + n;
    Page(from, to, window[..n], to < a.sizeBytes, if to < a.sizeBytes then Some(PrintCursor(a.checksum, to)) else None)
  }

  function PageAt(a: Artifact, from: nat, maxBytes: nat): Result<Page> {
    if |a.bytes| != a.sizeBytes then Err(CorruptStore)
    else if from >= a.sizeBytes then Ok(Page(from, from, [], false, None))
    else
      var window := Window(a, from, maxBytes);
      if window == [] then Err(CorruptStore)
      else if Continuation(window[0]) then Err(InvalidCursor)
      else
        var n := Prefix(window, 0);
        if n.None? || n.value == 0 then Err(CorruptStore) else Ok(Cut(a, from, window, n.value))
  }

  function ReadResult(a: Artifact, cursor: Option<string>, maxBytes: int): Result<Page> {
    if maxBytes < MIN_PAGE || maxBytes > MAX_PAGE then Err(BadPageSize)
    else
      var from := ParseCursor(cursor, a);
      if from.None? then Err(InvalidCursor) else PageAt(a, from.value, maxBytes)
  }

  /** The same, reading the window and trimming it as the store does. */
  method ReadPage(a: Artifact, cursor: Option<string>, maxBytes: int) returns (r: Result<Page>)
    ensures r == ReadResult(a, cursor, maxBytes)
  {
    if maxBytes < MIN_PAGE || maxBytes > MAX_PAGE {
      return Err(BadPageSize);
    }
    var from := ParseCursor(cursor, a);
    if from.None? {
      return Err(InvalidCursor);
    }
    if |a.bytes| != a.sizeBytes {
      return Err(CorruptStore);
    }
    if from.value >= a.sizeBytes {
      return Ok(Page(from.value, from.value, [], false, None));
    }
    var window := Window(a, from.value, maxBytes);
    if Continuation(window[0]) {
      return Err(InvalidCursor);
    }
    var n := DecodeCompletePrefix(window);
    if n.None? || n.value == 0 {
      return Err(CorruptStore);
    }
    r := Ok(Cut(a, from.value, window, n.value));
  }

  // ---------------------------------------------------------------------------------------------
  // Valid content
  // ---------------------------------------------------------------------------------------------

  /** Stored as written: valid UTF-8 of the promised size. */
  ghost predicate Sound(a: Artifact) {
    |a.bytes| == a.sizeBytes && Valid(a.bytes) && HexDigits(a.checksum)
  }

  predicate Boundary(t: Bytes, i: nat) {
    i <= |t| && Valid(t[..i])
  }

  lemma {:induction false} PrefixIs(t: Bytes, b: nat, trim: nat)
    requires trim <= 3 && b + trim <= |t| <= b + 3 && Boundary(t, b)
    requires forall j :: b < j <= |t| ==> !Boundary(t, j)
    ensures Prefix(t, trim) == Some(b)
    decreases |t| - trim - b
  {
    if |t| - trim != b {
      assert !Boundary(t, |t| - trim);
      PrefixIs(t, b, trim + 1);
    }
  }

  lemma NearBoundary(t: Bytes, size: nat) returns (b: nat)
    requires Valid(t) && size <= |t|
    ensures b <= size <= b + 3 && Boundary(t, b) && forall j :: b < j <= size ==> !Boundary(t, j)
  {
    b := BoundaryNear(t, size);
  }

  /** Boundaries of the window are boundaries of the content. */
  lemma SelectedBoundaries(t: Bytes, from: nat, window: Bytes)
    requires from + |window| <= |t| && window == t[from..from + |window|] && Valid(t[..from])
    ensures forall j :: 0 <= j <= |window| ==> (Boundary(window, j) <==> Boundary(t[from..], j))
    ensures forall j :: 0 <= j <= |window| ==> (Boundary(t[from..], j) <==> Boundary(t, from + j))
  {
    forall j | 0 <= j <= |window|
      ensures Boundary(window, j) <==> Boundary(t[from..], j)
      ensures Boundary(t[from..], j) <==> Boundary(t, from + j)
    {
      assert window[..j] == t[from..][..j];
      assert t[..from + j][..from] == t[..from] && t[..from + j][from..] == t[from..][..j];
      ValidSplit(t[..from + j], from);
    }
  }

  lemma NoLaterBoundary(t: Bytes, from: nat, window: Bytes, b: nat)
    requires from + |window| <= |t| && window == t[from..from + |window|] && Valid(t[..from])
    requires b <= |window| && forall j :: b < j <= |window| ==> !Boundary(t[from..], j)
    ensures forall j :: from + b < j <= from + |window| ==> !Boundary(t, j)
    ensures forall j :: b < j <= |window| ==> !Boundary(window, j)
  {
    SelectedBoundaries(t, from, window);
    forall j | from + b < j <= from + |window| ensures !Boundary(t, j) {
      var i := j - from;
      assert Boundary(t[from..], i) <==> Boundary(t, from + i);
    }
  }

  /** A window that reaches the end of the content, or holds four bytes, holds a whole code point. */
  lemma EndIsBoundary(t: Bytes, from: nat, size: nat, b: nat)
    requires from + size <= |t| && Valid(t[from..]) && (size >= MIN_PAGE || from + size == |t|) && size > 0
    requires b <= size <= b + 3 && forall j :: b < j <= size ==> !Boundary(t[from..], j)
    ensures b > 0
  {
    if from + size == |t| {
      assert t[from..][..size] == t[from..];
      assert Boundary(t[from..], size);
    }
  }

  /** The window's longest valid prefix within reach of the trims is its last boundary. */
  lemma LastBoundary(t: Bytes, from: nat, window: Bytes) returns (b: nat)
    requires Valid(t) && Boundary(t, from) && from + |window| <= |t| && window == t[from..from + |window|]
    requires window != [] && (|window| >= MIN_PAGE || from + |window| == |t|)
    ensures 0 < b <= |window| && Prefix(window, 0) == Some(b)
    ensures Boundary(t, from + b) && Boundary(window, b)
    ensures forall j :: from + b < j <= from + |window| ==> !Boundary(t, j)
  {
    ValidSplit(t, from);
    b := NearBoundary(t[from..], |window|);
    EndIsBoundary(t, from, |window|, b);
    NoLaterBoundary(t, from, window, b);
    SelectedBoundaries(t, from, window);
    PrefixIs(window, b, 0);
  }

  /** A page from a boundary: it ends at the last boundary within its size, so it is a whole number of
      code points, it is not empty, and more remains exactly when it does not reach the end. */
  lemma PageFromBoundary(a: Artifact, from: nat, maxBytes: nat)
    requires Sound(a) && maxBytes >= MIN_PAGE && Boundary(a.bytes, from) && from < |a.bytes|
    ensures var r := PageAt(a, from, maxBytes);
      && r.Ok? && r.value.fromByte == from && from < r.value.toByte <= Min(|a.bytes|, from + maxBytes)
      && Boundary(a.bytes, r.value.toByte)
      && r.value.content == a.bytes[from..r.value.toByte] && Valid(r.value.content)
      && r.value.hasMore == (r.value.toByte < |a.bytes|)
      && r.value.nextCursor == (if r.value.hasMore then Some(PrintCursor(a.checksum, r.value.toByte)) else None)
      && (forall j :: r.value.toByte < j <= Min(|a.bytes|, from + maxBytes) ==> !Boundary(a.bytes, j))
  {
    var t, window := a.bytes, Window(a, from, maxBytes);
    BoundaryIff(t, from);
    assert window[0] == t[from];
    var b := LastBoundary(t, from, window);
    assert window[..b] == t[from..from + b];
  }

  /** A cursor off every boundary is refused. */
  lemma OffBoundaryRefused(a: Artifact, from: nat, maxBytes: nat)
    requires Sound(a) && maxBytes > 0 && from < |a.bytes|
    ensures !Boundary(a.bytes, from) <==> PageAt(a, from, maxBytes) == Err(InvalidCursor)
  {
    BoundaryIff(a.bytes, from);
  }

  // ---------------------------------------------------------------------------------------------
  // The walk
  // ---------------------------------------------------------------------------------------------

  /** The pages a caller sees by following `nextCursor` from an offset. */
  function Walk(a: Artifact, from: nat, maxBytes: nat): seq<Page>
    decreases a.sizeBytes - from
  {
    var r := PageAt(a, from, maxBytes);
    if r.Err? then []
    else if r.value.hasMore && from < r.value.toByte <= a.sizeBytes then [r.value] + Walk(a, r.value.toByte, maxBytes)
    else [r.value]
  }

  function Contents(pages: seq<Page>): Bytes {
    if pages == [] then [] else pages[0].content + Contents(pages[1..])
  }

  /** Each page starts where the one before ended, on a boundary; each but the last names the next. */
  ghost predicate Linked(a: Artifact, pages: seq<Page>) {
    forall i :: 0 <= i < |pages| ==>
      && Boundary(a.bytes, pages[i].fromByte) && Boundary(a.bytes, pages[i].toByte) && Valid(pages[i].content)
      && (pages[i].hasMore <==> i + 1 < |pages|)
      && (i + 1 < |pages| ==>
            pages[i + 1].fromByte == pages[i].toByte &&
              pages[i].nextCursor == Some(PrintCursor(a.checksum, pages[i].toByte)))
  }

  lemma PutPage(a: Artifact, page: Page, more: seq<Page>)
    requires Linked(a, more) && more != []
    requires Boundary(a.bytes, page.fromByte) && Boundary(a.bytes, page.toByte) && Valid(page.content) && page.hasMore
    requires more[0].fromByte == page.toByte && page.nextCursor == Some(PrintCursor(a.checksum, page.toByte))
    ensures Linked(a, [page] + more)
  {
    var pages := [page] + more;
    forall i | 0 < i < |pages| ensures pages[i] == more[i - 1] {
    }
  }

  lemma LastPage(a: Artifact, from: nat, page: Page)
    requires Sound(a) && Boundary(a.bytes, from) && page.fromByte == from && page.toByte == |a.bytes| && !page.hasMore
    requires page.content == a.bytes[from..] && Valid(page.content)
    ensures Linked(a, [page]) && Contents([page]) == a.bytes[from..]
  {
    assert a.bytes[..|a.bytes|] == a.bytes;
    assert [page][1..] == [] && page.content + [] == page.content;
  }

  lemma MorePages(a: Artifact, page: Page, more: seq<Page>)
    requires Linked(a, more) && more != [] && page.fromByte <= page.toByte <= |a.bytes| && page.hasMore
    requires Boundary(a.bytes, page.fromByte) && Boundary(a.bytes, page.toByte) && Valid(page.content)
    requires more[0].fromByte == page.toByte && page.nextCursor == Some(PrintCursor(a.checksum, page.toByte))
    requires page.content == a.bytes[page.fromByte..page.toByte] && Contents(more) == a.bytes[page.toByte..]
    ensures Linked(a, [page] + more) && Contents([page] + more) == a.bytes[page.fromByte..]
  {
    PutPage(a, page, more);
    assert ([page] + more)[1..] == more;
    assert a.bytes[page.fromByte..] == a.bytes[page.fromByte..page.toByte] + a.bytes[page.toByte..];
  }

  /** Paging is lossless: the walk ends, every page is a whole number of code points, and the pages
      concatenate to the content from where the walk began. */
  lemma {:induction false} WalkIsLossless(a: Artifact, from: nat, maxBytes: nat)
    requires Sound(a) && maxBytes >= MIN_PAGE && Boundary(a.bytes, from)
    ensures var pages := Walk(a, from, maxBytes);
      && pages != [] && pages[0].fromByte == from && Linked(a, pages)
      && Contents(pages) == a.bytes[from..]
    decreases |a.bytes| - from
  {
    if from == |a.bytes| {
      LastPage(a, from, Page(from, from, [], false, None));
    } else {
      PageFromBoundary(a, from, maxBytes);
      var page := PageAt(a, from, maxBytes).value;
      if page.hasMore {
        WalkIsLossless(a, page.toByte, maxBytes);
        MorePages(a, page, Walk(a, page.toByte, maxBytes));
      } else {
        LastPage(a, from, page);
      }
    }
  }

  /** Each step of the walk is what the store returns for the cursor of the page before. */
  lemma NextCursorContinues(a: Artifact, from: nat, maxBytes: nat)
    requires Sound(a) && MIN_PAGE <= maxBytes <= MAX_PAGE && Boundary(a.bytes, from) && from < |a.bytes|
    ensures var r := PageAt(a, from, maxBytes);
      r.Ok? && (r.value.hasMore ==> ReadResult(a, r.value.nextCursor, maxBytes) == PageAt(a, r.value.toByte, maxBytes))
  {
    PageFromBoundary(a, from, maxBytes);
    var page := PageAt(a, from, maxBytes).value;
    if page.hasMore {
      CursorRoundTrip(a, PrintCursor(a.checksum, page.toByte), page.toByte);
    }
  }
}
