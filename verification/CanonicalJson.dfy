/**
  The stable JSON text inside journal keys: `canonicalize` and `canonicalizeJournalValue` of
  src/workflowJournal.ts, over JavaScript strings as sequences of UTF-16 code units.

  Main results: reading the text gives the value back, so equal texts mean equal canonical values; the
  text never contains NUL; and the order in which an object's properties were created does not matter.
 */
module CanonicalJson {
  import opened Common

  newtype Unit = x: int | 0 <= x < 0x1_0000

  type JsString = seq<Unit>

  /** A character of a printed number: digits, sign, point and exponent. */
  predicate NumberUnit(u: Unit) {
    0x30 <= u <= 0x39 || u == 0x2D || u == 0x2B || u == 0x2E || u == 0x65
  }

  /** The text JavaScript prints for a finite number; it determines the number. */
  type NumberText = s: JsString | s != [] && (forall u :: u in s ==> NumberUnit(u)) witness [0x30]

  /** A value an author may pass as an option. Cyclic values are not part of this model. */
  datatype JsValue =
    | Null
    | Boolean(b: bool)
    | Finite(digits: NumberText)
    | NegativeZero
    | NotFinite
    | Characters(s: JsString)
    | Unprintable            // undefined, functions and symbols
    | BigInt
    | List(items: seq<JsValue>)
    | Record(fields: seq<Field>)

  /** An own enumerable property, in creation order. */
  datatype Field = Field(name: JsString, value: JsValue)

  datatype Json =
    | JNull
    | JBool(b: bool)
    | JNum(digits: NumberText)
    | JStr(s: JsString)
    | JArr(items: seq<Json>)
    | JObj(fields: seq<JField>)

  datatype JField = JField(name: JsString, value: Json)

  // ---------------------------------------------------------------------------------------------
  // Property order
  // ---------------------------------------------------------------------------------------------

  /** Raw UTF-16 order, as `sort()` without a locale compares. */
  predicate LexLess(a: JsString, b: JsString) {
    b != [] && (a == [] || a[0] < b[0] || (a[0] == b[0] && LexLess(a[1..], b[1..])))
  }

  predicate Digit(u: Unit) {
    0x30 <= u <= 0x39
  }

  const MAX_INDEX: JsString := [0x34, 0x32, 0x39, 0x34, 0x39, 0x36, 0x37, 0x32, 0x39, 0x34]

  /** An array index, at most 4294967294: objects list such properties first, in numeric order. */
  predicate IsIndex(s: JsString) {
    && 0 < |s| <= 10 && (forall u :: u in s ==> Digit(u)) && (s[0] == 0x30 ==> |s| == 1)
    && (|s| == 10 ==> !LexLess(MAX_INDEX, s))
  }

  /** The order in which JSON.stringify lists the properties of the canonical object. */
  predicate Before(a: JsString, b: JsString) {
    if IsIndex(a) != IsIndex(b) then IsIndex(a)
    else if IsIndex(a) && |a| != |b| then |a| < |b|
    else LexLess(a, b)
  }

  lemma {:induction false} LexTrichotomy(a: JsString, b: JsString)
    ensures a == b || LexLess(a, b) || LexLess(b, a)
    ensures !(LexLess(a, b) && LexLess(b, a)) && (LexLess(a, b) ==> a != b)
    decreases |a|
  {
    if a != [] && b != [] && a[0] == b[0] {
      LexTrichotomy(a[1..], b[1..]);
      assert a == [a[0]] + a[1..] && b == [b[0]] + b[1..];
    }
  }

  lemma {:induction false} LexTransitive(a: JsString, b: JsString, c: JsString)
    requires LexLess(a, b) && LexLess(b, c)
    ensures LexLess(a, c)
    decreases |a|
  {
    if a != [] && a[0] == b[0] == c[0] {
      LexTransitive(a[1..], b[1..], c[1..]);
    }
  }

  lemma BeforeIsTotalOrder(a: JsString, b: JsString, c: JsString)
    ensures a == b || Before(a, b) || Before(b, a)
    ensures !(Before(a, b) && Before(b, a)) && !Before(a, a)
    ensures Before(a, b) && Before(b, c) ==> Before(a, c)
  {
    LexTrichotomy(a, b);
    LexTrichotomy(a, a);
    if LexLess(a, b) && LexLess(b, c) {
      LexTransitive(a, b, c);
    }
  }

  // ---------------------------------------------------------------------------------------------
  // Canonicalization
  // ---------------------------------------------------------------------------------------------

  /** A canonical value, nothing to print, or the TypeError for a bigint. */
  datatype Canonical = Printed(json: Json) | Nothing | Refused

  function Inserted(f: JField, fields: seq<JField>): seq<JField> {
    if fields == [] || Before(f.name, fields[0].name) then [f] + fields else [fields[0]] + Inserted(f, fields[1..])
  }

  function Sorted(fields: seq<JField>): seq<JField> {
    if fields == [] then [] else Inserted(fields[0], Sorted(fields[1..]))
  }

  function Canonicalize(v: JsValue): Canonical
    decreases v, 1
  {
    match v
    case Null => Printed(JNull)
    case Boolean(b) => Printed(JBool(b))
    case Finite(digits) => Printed(JNum(digits))
    case NegativeZero => Printed(JNum([0x30]))
    case NotFinite => Printed(JNull)
    case Characters(s) => Printed(JStr(s))
    case Unprintable => Nothing
    case BigInt => Refused
    case List(items) =>
      var printed := CanonicalItems(items);
      if printed.None? then Refused else Printed(JArr(printed.value))
    case Record(fields) =>
      var printed := CanonicalFields(fields);
      if printed.None? then Refused else Printed(JObj(Sorted(printed.value)))
  }

  /** An array keeps its positions: what has no text becomes null. */
  function CanonicalItems(items: seq<JsValue>): Option<seq<Json>>
    decreases items, 0
  {
    if items == [] then Some([])
    else
      var first := Canonicalize(items[0]);
      var rest := CanonicalItems(items[1..]);
      if first.Refused? || rest.None? then None
      else Some([if first.Nothing? then JNull else first.json] + rest.value)
  }

  /** An object drops the properties that have no text. */
  function CanonicalFields(fields: seq<Field>): Option<seq<JField>>
    decreases fields, 0
  {
    if fields == [] then Some([])
    else
      var first := CanonicalField(fields[0]);
      var rest := CanonicalFields(fields[1..]);
      if first.Refused? || rest.None? then None
      else Some((if first.Nothing? then [] else [JField(fields[0].name, first.json)]) + rest.value)
  }

  function CanonicalField(field: Field): Canonical
    decreases field, 0
  {
    Canonicalize(field.value)
  }

  // ---------------------------------------------------------------------------------------------
  // Text
  // ---------------------------------------------------------------------------------------------

  predicate HighSurrogate(u: Unit) {
    0xD800 <= u <= 0xDBFF
  }

  predicate LowSurrogate(u: Unit) {
    0xDC00 <= u <= 0xDFFF
  }

  function HexDigit(n: int): Unit
    requires 0 <= n < 16
  {
    if n < 10 then (0x30 + n) as Unit else (0x61 + n - 10) as Unit
  }

  /** `\uXXXX` */
  function UnicodeEscape(u: Unit): JsString {
    var n := u as int;
    var tens, hundreds, thousands := n / 16, n / 256, n / 4096;
    [0x5C, 0x75, HexDigit(thousands), HexDigit(hundreds - 16 * thousands), HexDigit(tens - 16 * hundreds),
      HexDigit(n - 16 * tens)]
  }

  /** One code unit that is not part of a surrogate pair. */
  function EscapeOne(u: Unit): JsString {
    if u == 0x22 || u == 0x5C then [0x5C, u]
    else if u == 0x08 then [0x5C, 0x62]
    else if u == 0x09 then [0x5C, 0x74]
    else if u == 0x0A then [0x5C, 0x6E]
    else if u == 0x0C then [0x5C, 0x66]
    else if u == 0x0D then [0x5C, 0x72]
    else if u < 0x20 || HighSurrogate(u) || LowSurrogate(u) then UnicodeEscape(u)
    else [u]
  }

  predicate PairAt(s: JsString) {
    |s| > 1 && HighSurrogate(s[0]) && LowSurrogate(s[1])
  }

  function Escape(s: JsString): JsString {
    if s == [] then [] else if PairAt(s) then s[..2] + Escape(s[2..]) else EscapeOne(s[0]) + Escape(s[1..])
  }

  /** The rest of a string literal after its opening quote. */
  function Quoted(s: JsString): JsString {
    Escape(s) + [0x22]
  }

  const TRUE_TEXT: JsString := [0x74, 0x72, 0x75, 0x65]
  const FALSE_TEXT: JsString := [0x66, 0x61, 0x6C, 0x73, 0x65]
  const NULL_TEXT: JsString := [0x6E, 0x75, 0x6C, 0x6C]

  function Print(j: Json): JsString
    decreases j, 1
  {
    match j
    case JNull => NULL_TEXT
    case JBool(b) => if b then TRUE_TEXT else FALSE_TEXT
    case JNum(digits) => digits
    case JStr(s) => [0x22] + Quoted(s)
    case JArr(items) => if items == [] then [0x5B, 0x5D] else [0x5B] + Print(items[0]) + PrintMore(items[1..])
    case JObj(fields) =>
      if fields == [] then [0x7B, 0x7D] else [0x7B] + PrintField(fields[0]) + PrintMoreFields(fields[1..])
  }

  function PrintMore(items: seq<Json>): JsString
    decreases items, 0
  {
    if items == [] then [0x5D] else [0x2C] + Print(items[0]) + PrintMore(items[1..])
  }

  function PrintField(f: JField): JsString
    decreases f, 0
  {
    [0x22] + Quoted(f.name) + [0x3A] + Print(f.value)
  }

  function PrintMoreFields(fields: seq<JField>): JsString
    decreases fields, 0
  {
    if fields == [] then [0x7D] else [0x2C] + PrintField(fields[0]) + PrintMoreFields(fields[1..])
  }

  // ---------------------------------------------------------------------------------------------
  // Reading the text back
  // ---------------------------------------------------------------------------------------------

  datatype Read<T> = Got(value: T, rest: JsString) | Bad

  function HexValue(u: Unit): int {
    if 0x30 <= u <= 0x39 then u as int - 0x30 else if 0x61 <= u <= 0x66 then u as int - 0x61 + 10 else 0
  }

  function FromHex(a: int, b: int, c: int, d: int): Unit {
    var n := 4096 * a + 256 * b + 16 * c + d;
    if 0 <= n < 0x1_0000 then n as Unit else 0
  }

  function Unescaped(u: Unit): Unit {
    if u == 0x62 then 0x08 else if u == 0x74 then 0x09 else if u == 0x6E then 0x0A
    else if u == 0x66 then 0x0C else if u == 0x72 then 0x0D else u
  }

  /** The units the text begins with, and how many text units they took; 0 when malformed. */
  function ReadUnits(t: JsString): (r: (JsString, nat))
    requires t != []
    ensures r.1 <= |t|
  {
    if t[0] == 0x5C then
      if |t| > 1 && t[1] != 0x75 then ([Unescaped(t[1])], 2)
      else if |t| >= 6 then ([FromHex(HexValue(t[2]), HexValue(t[3]), HexValue(t[4]), HexValue(t[5]))], 6)
      else ([], 0)
    else if HighSurrogate(t[0]) && |t| > 1 then (t[..2], 2)
    else ([t[0]], 1)
  }

  function ReadString(t: JsString): (r: Read<JsString>)
    ensures r.Got? ==> |r.rest| < |t|
    decreases |t|
  {
    if t == [] then Bad
    else if t[0] == 0x22 then Got([], t[1..])
    else
      var (units, n) := ReadUnits(t);
      if n == 0 then Bad
      else
        var more := ReadString(t[n..]);
        if more.Bad? then Bad else Got(units + more.value, more.rest)
  }

  function NumberLength(t: JsString): (n: nat)
    ensures n <= |t| && (forall u :: u in t[..n] ==> NumberUnit(u)) && (n < |t| ==> !NumberUnit(t[n]))
  {
    if t == [] || !NumberUnit(t[0]) then 0
    else
      var n := 1 + NumberLength(t[1..]);
      assert t[..n] == [t[0]] + t[1..][..n - 1];
      n
  }

  function ReadLiteral(t: JsString, word: JsString, j: Json): (r: Read<Json>)
    requires word != []
    ensures r.Got? ==> |r.rest| < |t|
  {
    if word <= t then Got(j, t[|word|..]) else Bad
  }

  function ReadValue(t: JsString): (r: Read<Json>)
    ensures r.Got? ==> |r.rest| < |t|
    decreases |t|, 1
  {
    if t == [] then Bad
    else if t[0] == 0x22 then
      var s := ReadString(t[1..]);
      if s.Bad? then Bad else Got(JStr(s.value), s.rest)
    else if t[0] == 0x5B then
      if |t| > 1 && t[1] == 0x5D then Got(JArr([]), t[2..])
      else
        var first := ReadValue(t[1..]);
        if first.Bad? then Bad
        else
          var more := ReadMore(first.rest);
          if more.Bad? then Bad else Got(JArr([first.value] + more.value), more.rest)
    else if t[0] == 0x7B then
      if |t| > 1 && t[1] == 0x7D then Got(JObj([]), t[2..])
      else
        var first := ReadField(t[1..]);
        if first.Bad? then Bad
        else
          var more := ReadMoreFields(first.rest);
          if more.Bad? then Bad else Got(JObj([first.value] + more.value), more.rest)
    else if t[0] == 0x6E then ReadLiteral(t, NULL_TEXT, JNull)
    else if t[0] == 0x74 then ReadLiteral(t, TRUE_TEXT, JBool(true))
    else if t[0] == 0x66 then ReadLiteral(t, FALSE_TEXT, JBool(false))
    else
      var n := NumberLength(t);
      if n == 0 then Bad else Got(JNum(t[..n]), t[n..])
  }

  function ReadMore(t: JsString): (r: Read<seq<Json>>)
    ensures r.Got? ==> |r.rest| < |t|
    decreases |t|, 0
  {
    if t == [] then Bad
    else if t[0] == 0x5D then Got([], t[1..])
    else
      var first := ReadValue(t[1..]);
      if t[0] != 0x2C || first.Bad? then Bad
      else
        var more := ReadMore(first.rest);
        if more.Bad? then Bad else Got([first.value] + more.value, more.rest)
  }

  function ReadField(t: JsString): (r: Read<JField>)
    ensures r.Got? ==> |r.rest| < |t|
    decreases |t|, 0
  {
    if t == [] || t[0] != 0x22 then Bad
    else
      var name := ReadString(t[1..]);
      if name.Bad? || name.rest == [] || name.rest[0] != 0x3A then Bad
      else
        var value := ReadValue(name.rest[1..]);
        if value.Bad? then Bad else Got(JField(name.value, value.value), value.rest)
  }

  function ReadMoreFields(t: JsString): (r: Read<seq<JField>>)
    ensures r.Got? ==> |r.rest| < |t|
    decreases |t|, 0
  {
    if t == [] then Bad
    else if t[0] == 0x7D then Got([], t[1..])
    else
      var first := ReadField(t[1..]);
      if t[0] != 0x2C || first.Bad? then Bad
      else
        var more := ReadMoreFields(first.rest);
        if more.Bad? then Bad else Got([first.value] + more.value, more.rest)
  }

  lemma HexDigitReads(n: int)
    requires 0 <= n < 16
    ensures HexValue(HexDigit(n)) == n
  {
  }

  lemma UnicodeEscapeReads(u: Unit, more: JsString)
    ensures ReadUnits(UnicodeEscape(u) + more) == ([u], 6)
  {
    var n := u as int;
    var tens, hundreds, thousands := n / 16, n / 256, n / 4096;
    HexDigitReads(thousands);
    HexDigitReads(hundreds - 16 * thousands);
    HexDigitReads(tens - 16 * hundreds);
    HexDigitReads(n - 16 * tens);
    assert FromHex(thousands, hundreds - 16 * thousands, tens - 16 * hundreds, n - 16 * tens) == u;
  }

  lemma EscapeOneReads(u: Unit, more: JsString)
    ensures var t := EscapeOne(u) + more; t[0] != 0x22 && ReadUnits(t) == ([u], |EscapeOne(u)|)
  {
    UnicodeEscapeReads(u, more);
  }

  lemma StringStep(head: JsString, units: JsString, more: JsString, tail: JsString, x: JsString)
    requires head != [] && head[0] != 0x22
    requires ReadUnits(head + more) == (units, |head|) && ReadString(more) == Got(tail, x)
    ensures ReadString(head + more) == Got(units + tail, x)
  {
    assert (head + more)[|head|..] == more;
  }

  lemma Reassociate(a: JsString, b: JsString, c: JsString)
    ensures a + b + c == a + (b + c)
  {
  }

  lemma QuotedUnfolds(head: JsString, tail: JsString, x: JsString)
    ensures head + Escape(tail) + [0x22] + x == head + (Quoted(tail) + x)
  {
    Reassociate(head, Escape(tail), [0x22]);
    Reassociate(head, Quoted(tail), x);
  }

  lemma PairStep(s: JsString, x: JsString)
    requires PairAt(s) && ReadString(Quoted(s[2..]) + x) == Got(s[2..], x)
    ensures ReadString(Quoted(s) + x) == Got(s, x)
  {
    var more := Quoted(s[2..]) + x;
    QuotedUnfolds(s[..2], s[2..], x);
    assert (s[..2] + more)[..2] == s[..2];
    StringStep(s[..2], s[..2], more, s[2..], x);
    assert s == s[..2] + s[2..];
  }

  lemma UnitStep(s: JsString, x: JsString)
    requires s != [] && !PairAt(s) && ReadString(Quoted(s[1..]) + x) == Got(s[1..], x)
    ensures ReadString(Quoted(s) + x) == Got(s, x)
  {
    var more := Quoted(s[1..]) + x;
    QuotedUnfolds(EscapeOne(s[0]), s[1..], x);
    EscapeOneReads(s[0], more);
    StringStep(EscapeOne(s[0]), [s[0]], more, s[1..], x);
    assert s == [s[0]] + s[1..];
  }

  lemma {:induction false} QuotedReads(s: JsString, x: JsString)
    ensures ReadString(Quoted(s) + x) == Got(s, x)
    decreases |s|
  {
    if s == [] {
      assert Quoted(s) + x == [0x22] + x;
    } else if PairAt(s) {
      QuotedReads(s[2..], x);
      PairStep(s, x);
    } else {
      QuotedReads(s[1..], x);
      UnitStep(s, x);
    }
  }

  /** What may follow a printed value: nothing, or a unit that cannot continue a number. */
  predicate Ends(x: JsString) {
    x == [] || !NumberUnit(x[0])
  }

  lemma {:induction false} NumberReads(digits: JsString, x: JsString)
    requires Ends(x) && forall u :: u in digits ==> NumberUnit(u)
    ensures NumberLength(digits + x) == |digits|
    decreases |digits|
  {
    if digits == [] {
      assert digits + x == x;
    } else {
      assert digits[0] in digits && (digits + x)[0] == digits[0];
      assert (digits + x)[1..] == digits[1..] + x;
      NumberReads(digits[1..], x);
    }
  }

  // ---------------------------------------------------------------------------------------------
  // Round trip
  // ---------------------------------------------------------------------------------------------

  /** What a printed value starts with: never a closing bracket, a closing brace or a comma. */
  lemma PrintStarts(j: Json)
    ensures Print(j) != [] && Print(j)[0] !in {0x5D, 0x7D, 0x2C, 0x3A}
  {
    if j.JNum? {
      assert j.digits[0] in j.digits;
    }
  }

  lemma StringReads(s: JsString, x: JsString)
    ensures ReadValue(Print(JStr(s)) + x) == Got(JStr(s), x)
  {
    QuotedReads(s, x);
    Reassociate([0x22], Quoted(s), x);
    assert ([0x22] + (Quoted(s) + x))[1..] == Quoted(s) + x;
  }

  lemma EmptyReads(x: JsString)
    ensures ReadValue(Print(JArr([])) + x) == Got(JArr([]), x)
    ensures ReadValue(Print(JObj([])) + x) == Got(JObj([]), x)
  {
    assert ([0x5B, 0x5D] + x)[2..] == x && ([0x7B, 0x7D] + x)[2..] == x;
  }

  lemma LiteralReads(word: JsString, j: Json, x: JsString)
    requires (word, j) in {(NULL_TEXT, JNull), (TRUE_TEXT, JBool(true)), (FALSE_TEXT, JBool(false))}
    ensures ReadValue(word + x) == Got(j, x)
  {
    assert word <= word + x && (word + x)[|word|..] == x;
    assert (word + x)[0] == word[0];
  }

  lemma PrintedNumberReads(digits: NumberText, x: JsString)
    requires Ends(x)
    ensures ReadValue(digits + x) == Got(JNum(digits), x)
  {
    NumberReads(digits, x);
    assert digits[0] in digits && (digits + x)[0] == digits[0];
    assert (digits + x)[..|digits|] == digits && (digits + x)[|digits|..] == x;
  }

  lemma ArrayStep(items: seq<Json>, more: JsString, x: JsString)
    requires items != [] && more == PrintMore(items[1..]) + x
    requires ReadValue(Print(items[0]) + more) == Got(items[0], more) && ReadMore(more) == Got(items[1..], x)
    ensures ReadValue(Print(JArr(items)) + x) == Got(JArr(items), x)
  {
    var t := Print(items[0]) + more;
    PrintStarts(items[0]);
    Reassociate([0x5B] + Print(items[0]), PrintMore(items[1..]), x);
    Reassociate([0x5B], Print(items[0]), more);
    assert Print(JArr(items)) + x == [0x5B] + t;
    assert ([0x5B] + t)[1..] == t && ([0x5B] + t)[1] == t[0];
    assert items == [items[0]] + items[1..];
  }

  lemma ObjectStep(fields: seq<JField>, more: JsString, x: JsString)
    requires fields != [] && more == PrintMoreFields(fields[1..]) + x
    requires ReadField(PrintField(fields[0]) + more) == Got(fields[0], more) &&
      ReadMoreFields(more) == Got(fields[1..], x)
    ensures ReadValue(Print(JObj(fields)) + x) == Got(JObj(fields), x)
  {
    var t := PrintField(fields[0]) + more;
    Reassociate([0x7B] + PrintField(fields[0]), PrintMoreFields(fields[1..]), x);
    Reassociate([0x7B], PrintField(fields[0]), more);
    assert Print(JObj(fields)) + x == [0x7B] + t;
    assert ([0x7B] + t)[1..] == t && ([0x7B] + t)[1] == t[0];
    assert fields == [fields[0]] + fields[1..];
  }

  lemma {:induction false} PrintReads(j: Json, x: JsString)
    requires Ends(x)
    ensures ReadValue(Print(j) + x) == Got(j, x)
    decreases j, 1
  {
    match j
    case JNull => LiteralReads(NULL_TEXT, JNull, x);
    case JBool(b) => LiteralReads(if b then TRUE_TEXT else FALSE_TEXT, j, x);
    case JNum(digits) => PrintedNumberReads(digits, x);
    case JStr(s) => StringReads(s, x);
    case JArr(items) =>
      if items == [] {
        EmptyReads(x);
      } else {
        var more := PrintMore(items[1..]) + x;
        PrintMoreReads(items[1..], x);
        PrintReads(items[0], more);
        ArrayStep(items, more, x);
      }
    case JObj(fields) =>
      if fields == [] {
        EmptyReads(x);
      } else {
        var more := PrintMoreFields(fields[1..]) + x;
        PrintMoreFieldsReads(fields[1..], x);
        PrintFieldReads(fields[0], more);
        ObjectStep(fields, more, x);
      }
  }

  lemma {:induction false} PrintMoreReads(items: seq<Json>, x: JsString)
    ensures ReadMore(PrintMore(items) + x) == Got(items, x) && Ends(PrintMore(items) + x)
    decreases items, 0
  {
    if items == [] {
      assert PrintMore(items) + x == [0x5D] + x;
    } else {
      var more := PrintMore(items[1..]) + x;
      PrintMoreReads(items[1..], x);
      PrintReads(items[0], more);
      var t := Print(items[0]) + more;
      Reassociate([0x2C] + Print(items[0]), PrintMore(items[1..]), x);
      Reassociate([0x2C], Print(items[0]), more);
      assert ([0x2C] + t)[1..] == t;
      assert items == [items[0]] + items[1..];
    }
  }

  lemma FieldUnfolds(f: JField, x: JsString)
    ensures PrintField(f) + x == [0x22] + (Quoted(f.name) + ([0x3A] + (Print(f.value) + x)))
  {
    Reassociate([0x22] + Quoted(f.name) + [0x3A], Print(f.value), x);
    Reassociate([0x22] + Quoted(f.name), [0x3A], Print(f.value) + x);
    Reassociate([0x22], Quoted(f.name), [0x3A] + (Print(f.value) + x));
  }

  lemma FieldStep(t: JsString, f: JField, value: JsString, x: JsString)
    requires ReadString(t) == Got(f.name, [0x3A] + value) && ReadValue(value) == Got(f.value, x)
    ensures ReadField([0x22] + t) == Got(f, x)
  {
    assert ([0x22] + t)[1..] == t && ([0x3A] + value)[1..] == value;
  }

  lemma {:induction false} PrintFieldReads(f: JField, x: JsString)
    requires Ends(x)
    ensures ReadField(PrintField(f) + x) == Got(f, x)
    decreases f, 0
  {
    var value := Print(f.value) + x;
    PrintReads(f.value, x);
    QuotedReads(f.name, [0x3A] + value);
    FieldUnfolds(f, x);
    FieldStep(Quoted(f.name) + ([0x3A] + value), f, value, x);
  }

  lemma {:induction false} PrintMoreFieldsReads(fields: seq<JField>, x: JsString)
    ensures ReadMoreFields(PrintMoreFields(fields) + x) == Got(fields, x) && Ends(PrintMoreFields(fields) + x)
    decreases fields, 0
  {
    if fields == [] {
      assert PrintMoreFields(fields) + x == [0x7D] + x;
    } else {
      var more := PrintMoreFields(fields[1..]) + x;
      PrintMoreFieldsReads(fields[1..], x);
      PrintFieldReads(fields[0], more);
      var t := PrintField(fields[0]) + more;
      Reassociate([0x2C] + PrintField(fields[0]), PrintMoreFields(fields[1..]), x);
      Reassociate([0x2C], PrintField(fields[0]), more);
      assert ([0x2C] + t)[1..] == t;
      assert fields == [fields[0]] + fields[1..];
    }
  }

  /** Equal texts come from equal canonical values. */
  lemma PrintIsInjective(a: Json, b: Json)
    requires Print(a) == Print(b)
    ensures a == b
  {
    PrintReads(a, []);
    PrintReads(b, []);
    assert Print(a) + [] == Print(a) && Print(b) + [] == Print(b);
  }

  // ---------------------------------------------------------------------------------------------
  // What the text is made of
  // ---------------------------------------------------------------------------------------------

  predicate Surrogate(u: Unit) {
    HighSurrogate(u) || LowSurrogate(u)
  }

  /** No control character, so no NUL; and surrogates only in pairs, so UTF-8 keeps every unit. */
  predicate Clean(t: JsString) {
    t == [] || (PairAt(t) && Clean(t[2..])) || (t[0] >= 0x20 && !Surrogate(t[0]) && Clean(t[1..]))
  }

  lemma {:induction false} CleanAppend(a: JsString, b: JsString)
    requires Clean(a) && Clean(b)
    ensures Clean(a + b)
    decreases |a|
  {
    if a == [] {
      assert a + b == b;
    } else if PairAt(a) {
      CleanAppend(a[2..], b);
      assert (a + b)[2..] == a[2..] + b;
    } else {
      CleanAppend(a[1..], b);
      assert (a + b)[1..] == a[1..] + b;
    }
  }

  lemma {:induction false} PlainIsClean(t: JsString)
    requires forall u :: u in t ==> 0x20 <= u < 0xD800
    ensures Clean(t)
    decreases |t|
  {
    if t != [] {
      assert t[0] in t;
      forall u | u in t[1..] ensures u in t {
        assert t == [t[0]] + t[1..];
      }
      PlainIsClean(t[1..]);
    }
  }

  lemma EscapeOneIsClean(u: Unit)
    ensures Clean(EscapeOne(u))
  {
    if EscapeOne(u) == [u] {
      assert Clean([]);
    } else {
      PlainIsClean(EscapeOne(u));
    }
  }

  lemma {:induction false} EscapeIsClean(s: JsString)
    ensures Clean(Escape(s))
    decreases |s|
  {
    if s == [] {
    } else if PairAt(s) {
      EscapeIsClean(s[2..]);
      assert Escape(s)[2..] == Escape(s[2..]);
    } else {
      EscapeIsClean(s[1..]);
      EscapeOneIsClean(s[0]);
      CleanAppend(EscapeOne(s[0]), Escape(s[1..]));
    }
  }

  lemma QuotedIsClean(s: JsString)
    ensures Clean([0x22] + Quoted(s))
  {
    EscapeIsClean(s);
    PlainIsClean([0x22]);
    CleanAppend(Escape(s), [0x22]);
    CleanAppend([0x22], Quoted(s));
  }

  lemma BracketsAreClean(open: Unit, middle: JsString, more: JsString)
    requires 0x20 <= open < 0x7F && Clean(middle) && Clean(more)
    ensures Clean([open] + middle + more)
  {
    PlainIsClean([open]);
    CleanAppend([open], middle);
    CleanAppend([open] + middle, more);
  }

  lemma {:induction false} PrintIsClean(j: Json)
    ensures Clean(Print(j))
    decreases j, 1
  {
    match j
    case JNull => PlainIsClean(Print(j));
    case JBool(_) => PlainIsClean(Print(j));
    case JNum(_) => PlainIsClean(Print(j));
    case JStr(s) => QuotedIsClean(s);
    case JArr(items) =>
      if items == [] {
        PlainIsClean(Print(j));
      } else {
        PrintIsClean(items[0]);
        PrintMoreIsClean(items[1..]);
        BracketsAreClean(0x5B, Print(items[0]), PrintMore(items[1..]));
      }
    case JObj(fields) =>
      if fields == [] {
        PlainIsClean(Print(j));
      } else {
        PrintFieldIsClean(fields[0]);
        PrintMoreFieldsIsClean(fields[1..]);
        BracketsAreClean(0x7B, PrintField(fields[0]), PrintMoreFields(fields[1..]));
      }
  }

  lemma {:induction false} PrintMoreIsClean(items: seq<Json>)
    ensures Clean(PrintMore(items))
    decreases items, 0
  {
    if items == [] {
      PlainIsClean([0x5D]);
    } else {
      PrintIsClean(items[0]);
      PrintMoreIsClean(items[1..]);
      BracketsAreClean(0x2C, Print(items[0]), PrintMore(items[1..]));
    }
  }

  lemma {:induction false} PrintFieldIsClean(f: JField)
    ensures Clean(PrintField(f))
    decreases f, 0
  {
    QuotedIsClean(f.name);
    PrintIsClean(f.value);
    PlainIsClean([0x3A]);
    CleanAppend([0x22] + Quoted(f.name), [0x3A]);
    CleanAppend([0x22] + Quoted(f.name) + [0x3A], Print(f.value));
  }

  lemma {:induction false} PrintMoreFieldsIsClean(fields: seq<JField>)
    ensures Clean(PrintMoreFields(fields))
    decreases fields, 0
  {
    if fields == [] {
      PlainIsClean([0x7D]);
    } else {
      PrintFieldIsClean(fields[0]);
      PrintMoreFieldsIsClean(fields[1..]);
      BracketsAreClean(0x2C, PrintField(fields[0]), PrintMoreFields(fields[1..]));
    }
  }

  // ---------------------------------------------------------------------------------------------
  // The order of properties does not matter
  // ---------------------------------------------------------------------------------------------

  /** Strictly increasing in property order, so names are distinct. */
  predicate Ordered(fields: seq<JField>) {
    forall i, j :: 0 <= i < j < |fields| ==> Before(fields[i].name, fields[j].name)
  }

  lemma PutFirst(f: JField, fields: seq<JField>)
    requires Ordered(fields) && forall g :: g in fields ==> Before(f.name, g.name)
    ensures Ordered([f] + fields)
  {
  }

  lemma {:induction false} InsertedKeepsOrder(f: JField, fields: seq<JField>)
    requires Ordered(fields) && forall g :: g in fields ==> g.name != f.name
    ensures Ordered(Inserted(f, fields))
    ensures forall g :: g in Inserted(f, fields) <==> g == f || g in fields
    decreases |fields|
  {
    if fields == [] {
    } else if Before(f.name, fields[0].name) {
      forall g | g in fields ensures Before(f.name, g.name) {
        BeforeIsTotalOrder(f.name, fields[0].name, g.name);
      }
      PutFirst(f, fields);
    } else {
      assert fields == [fields[0]] + fields[1..];
      InsertedKeepsOrder(f, fields[1..]);
      BeforeIsTotalOrder(f.name, fields[0].name, f.name);
      assert fields[0] in fields && Before(fields[0].name, f.name);
      PutFirst(fields[0], Inserted(f, fields[1..]));
    }
  }

  predicate DistinctNames(fields: seq<JField>) {
    forall i, j :: 0 <= i < j < |fields| ==> fields[i].name != fields[j].name
  }

  lemma {:induction false} SortedIsOrdered(fields: seq<JField>)
    requires DistinctNames(fields)
    ensures Ordered(Sorted(fields)) && (forall g :: g in Sorted(fields) <==> g in fields)
    decreases |fields|
  {
    if fields != [] {
      SortedIsOrdered(fields[1..]);
      assert fields == [fields[0]] + fields[1..];
      InsertedKeepsOrder(fields[0], Sorted(fields[1..]));
    }
  }

  /** The least field of an ordered list is its first. */
  lemma FirstsAgree(a: seq<JField>, b: seq<JField>)
    requires Ordered(a) && Ordered(b) && a != [] && forall g :: g in a <==> g in b
    ensures b != [] && a[0] == b[0]
  {
    assert a[0] in b;
    assert b[0] in a;
    BeforeIsTotalOrder(a[0].name, b[0].name, a[0].name);
  }

  lemma OrderedRest(a: seq<JField>, g: JField)
    requires Ordered(a) && a != []
    ensures g in a[1..] <==> g in a && g != a[0]
  {
    BeforeIsTotalOrder(a[0].name, a[0].name, a[0].name);
    assert a == [a[0]] + a[1..];
  }

  lemma RestsAgree(a: seq<JField>, b: seq<JField>)
    requires Ordered(a) && Ordered(b) && a != [] && b != [] && a[0] == b[0] && forall g :: g in a <==> g in b
    ensures forall g :: g in a[1..] <==> g in b[1..]
  {
    forall g ensures g in a[1..] <==> g in b[1..] {
      OrderedRest(a, g);
      OrderedRest(b, g);
    }
  }

  lemma {:induction false} OrderedIsUnique(a: seq<JField>, b: seq<JField>)
    requires Ordered(a) && Ordered(b) && forall g :: g in a <==> g in b
    ensures a == b
    decreases |a|
  {
    if a == [] {
      if b != [] {
        FirstsAgree(b, a);
      }
    } else {
      FirstsAgree(a, b);
      RestsAgree(a, b);
      OrderedIsUnique(a[1..], b[1..]);
      assert a == [a[0]] + a[1..] && b == [b[0]] + b[1..];
    }
  }

  /** No object has two properties of one name. */
  predicate Tidy(v: JsValue) {
    match v
    case List(items) => forall i :: 0 <= i < |items| ==> Tidy(items[i])
    case Record(fields) =>
      && (forall i, j :: 0 <= i < j < |fields| ==> fields[i].name != fields[j].name)
      && (forall i :: 0 <= i < |fields| ==> Tidy(fields[i].value))
    case _ => true
  }

  /** The same value up to the creation order of properties, at every depth. */
  ghost predicate Alike(v: JsValue, w: JsValue) {
    match (v, w)
    case (List(a), List(b)) => |a| == |b| && forall i :: 0 <= i < |a| ==> Alike(a[i], b[i])
    case (Record(a), Record(b)) => CoveredBy(a, b) && CoversBy(a, b)
    case _ => v == w
  }

  ghost predicate CoveredBy(a: seq<Field>, b: seq<Field>) {
    forall i :: 0 <= i < |a| ==> exists j :: 0 <= j < |b| && AlikeField(a[i], b[j])
  }

  ghost predicate AlikeField(f: Field, g: Field) {
    f.name == g.name && Alike(f.value, g.value)
  }

  ghost predicate CoversBy(a: seq<Field>, b: seq<Field>) {
    forall j :: 0 <= j < |b| ==> exists i :: 0 <= i < |a| && AlikeField(a[i], b[j])
  }

  predicate Prints(f: Field, g: JField) {
    f.name == g.name && Canonicalize(f.value) == Printed(g.value)
  }

  lemma {:induction false} CanonicalFieldsHold(fields: seq<Field>)
    ensures CanonicalFields(fields).None? <==> exists i :: 0 <= i < |fields| && Canonicalize(fields[i].value).Refused?
    ensures CanonicalFields(fields).Some? ==> forall g :: g in CanonicalFields(fields).value <==>
      exists i :: 0 <= i < |fields| && Prints(fields[i], g)
    decreases |fields|
  {
    if fields != [] {
      CanonicalFieldsHold(fields[1..]);
      assert fields == [fields[0]] + fields[1..];
    }
  }

  lemma CanonicalNamesAreDistinct(fields: seq<Field>)
    requires Tidy(Record(fields)) && CanonicalFields(fields).Some?
    ensures DistinctNames(CanonicalFields(fields).value)
    decreases |fields|
  {
    if fields != [] {
      var rest := CanonicalFields(fields[1..]).value;
      CanonicalNamesAreDistinct(fields[1..]);
      CanonicalFieldsHold(fields[1..]);
      forall k | 0 <= k < |rest| ensures rest[k].name != fields[0].name {
        assert rest[k] in rest;
      }
    }
  }

  predicate SameField(f: Field, g: Field) {
    f.name == g.name && Canonicalize(f.value) == Canonicalize(g.value)
  }

  predicate HasMatch(f: Field, b: seq<Field>) {
    exists j :: 0 <= j < |b| && SameField(f, b[j])
  }

  predicate Matched(a: seq<Field>, b: seq<Field>) {
    forall i :: 0 <= i < |a| ==> HasMatch(a[i], b)
  }

  lemma MatchedPrints(a: seq<Field>, b: seq<Field>)
    requires Matched(a, b)
    ensures CanonicalFields(a).None? ==> CanonicalFields(b).None?
    ensures (CanonicalFields(a).Some? && CanonicalFields(b).Some?) ==>
      (forall g :: g in CanonicalFields(a).value ==> g in CanonicalFields(b).value)
  {
    CanonicalFieldsHold(a);
    CanonicalFieldsHold(b);
    if CanonicalFields(a).None? {
      var i :| 0 <= i < |a| && Canonicalize(a[i].value).Refused?;
      var j :| 0 <= j < |b| && SameField(a[i], b[j]);
      assert Canonicalize(b[j].value).Refused?;
    } else if CanonicalFields(b).Some? {
      forall g | g in CanonicalFields(a).value ensures g in CanonicalFields(b).value {
        var i :| 0 <= i < |a| && Prints(a[i], g);
        var j :| 0 <= j < |b| && SameField(a[i], b[j]);
        assert Prints(b[j], g);
      }
    }
  }

  lemma MatchedIsCanonical(a: seq<Field>, b: seq<Field>)
    requires Tidy(Record(a)) && Tidy(Record(b)) && Matched(a, b) && Matched(b, a)
    ensures Canonicalize(Record(a)) == Canonicalize(Record(b))
  {
    MatchedPrints(a, b);
    MatchedPrints(b, a);
    var (x, y) := (CanonicalFields(a), CanonicalFields(b));
    if x.Some? {
      CanonicalNamesAreDistinct(a);
      CanonicalNamesAreDistinct(b);
      SortedIsOrdered(x.value);
      SortedIsOrdered(y.value);
      OrderedIsUnique(Sorted(x.value), Sorted(y.value));
    }
  }

  /** Creation order is invisible: alike values have the same canonical value, hence the same text. */
  lemma {:induction false} AlikeIsCanonical(v: JsValue, w: JsValue)
    requires Tidy(v) && Tidy(w) && Alike(v, w)
    ensures Canonicalize(v) == Canonicalize(w)
    decreases v, 3
  {
    match (v, w)
    case (List(a), List(b)) => AlikeItems(a, b);
    case (Record(a), Record(b)) =>
      FieldsHaveMatches(a, b);
      FieldsAreMatches(a, b);
      MatchedIsCanonical(a, b);
    case _ =>
  }

  lemma {:induction false} AlikeItems(a: seq<JsValue>, b: seq<JsValue>)
    requires Tidy(List(a)) && Tidy(List(b)) && Alike(List(a), List(b))
    ensures CanonicalItems(a) == CanonicalItems(b)
    decreases a, 0
  {
    if a != [] {
      AlikeIsCanonical(a[0], b[0]);
      AlikeItems(a[1..], b[1..]);
    }
  }

  lemma {:induction false} FieldHasMatch(a: seq<Field>, b: seq<Field>, i: nat)
    requires Tidy(Record(a)) && Tidy(Record(b)) && CoveredBy(a, b) && i < |a|
    ensures HasMatch(a[i], b)
    decreases a, 0
  {
    var j :| 0 <= j < |b| && AlikeField(a[i], b[j]);
    AlikeIsCanonical(a[i].value, b[j].value);
    assert SameField(a[i], b[j]);
  }

  lemma {:induction false} FieldIsMatch(a: seq<Field>, b: seq<Field>, j: nat)
    requires Tidy(Record(a)) && Tidy(Record(b)) && CoversBy(a, b) && j < |b|
    ensures HasMatch(b[j], a)
    decreases a, 0
  {
    var i :| 0 <= i < |a| && AlikeField(a[i], b[j]);
    AlikeIsCanonical(a[i].value, b[j].value);
    assert SameField(b[j], a[i]);
  }

  lemma {:induction false} FieldsHaveMatches(a: seq<Field>, b: seq<Field>)
    requires Tidy(Record(a)) && Tidy(Record(b)) && CoveredBy(a, b)
    ensures Matched(a, b)
    decreases a, 1
  {
    forall i | 0 <= i < |a| ensures HasMatch(a[i], b) {
      FieldHasMatch(a, b, i);
    }
  }

  lemma {:induction false} FieldsAreMatches(a: seq<Field>, b: seq<Field>)
    requires Tidy(Record(a)) && Tidy(Record(b)) && CoversBy(a, b)
    ensures Matched(b, a)
    decreases a, 1
  {
    forall j | 0 <= j < |b| ensures HasMatch(b[j], a) {
      FieldIsMatch(a, b, j);
    }
  }
}
