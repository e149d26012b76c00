/** The canonical text in the notation of RFC 8259: literals, brackets with comma-separated parts, and the escapes of
    its section 7. */
module CanonicalText {
  import opened Common
  import opened CanonicalJson

  /** The units of a text of ASCII characters. */
  function Ascii(text: string): (s: JsString)
    requires forall i :: 0 <= i < |text| ==> text[i] < '\U{80}'
    ensures |s| == |text| && forall i :: 0 <= i < |s| ==> s[i] as int == text[i] as int
  {
    seq(|text|, i requires 0 <= i < |text| => text[i] as int as Unit)
  }

  /** Texts with commas between them. */
  function Joined(parts: seq<JsString>): JsString {
    if parts == [] then []
    else if |parts| == 1 then parts[0]
    else parts[0] + Ascii(",") + Joined(parts[1..])
  }

  function Printed(items: seq<Json>): seq<JsString> {
    seq(|items|, i requires 0 <= i < |items| => Print(items[i]))
  }

  function PrintedFields(fields: seq<JField>): seq<JsString> {
    seq(|fields|, i requires 0 <= i < |fields| =>
      Print(JStr(fields[i].name)) + Ascii(":") + Print(fields[i].value))
  }

  lemma {:induction false} MoreAreJoined(items: seq<Json>)
    ensures PrintMore(items) == (if items == [] then [] else Ascii(",") + Joined(Printed(items))) + Ascii("]")
  {
    if items != [] {
      assert Printed(items)[1..] == Printed(items[1..]);
      MoreAreJoined(items[1..]);
    }
  }

  lemma FieldIs(f: JField)
    ensures PrintField(f) == Print(JStr(f.name)) + Ascii(":") + Print(f.value)
  {
  }

  lemma {:induction false} MoreFieldsAreJoined(fields: seq<JField>)
    ensures PrintMoreFields(fields) ==
      (if fields == [] then [] else Ascii(",") + Joined(PrintedFields(fields))) + Ascii("}")
  {
    if fields != [] {
      assert PrintedFields(fields)[1..] == PrintedFields(fields[1..]);
      FieldIs(fields[0]);
      MoreFieldsAreJoined(fields[1..]);
    }
  }

  lemma ListIsSpelled(items: seq<Json>)
    ensures Print(JArr(items)) == Ascii("[") + Joined(Printed(items)) + Ascii("]")
  {
    if items != [] {
      MoreAreJoined(items[1..]);
      assert Printed(items)[1..] == Printed(items[1..]);
    }
  }

  lemma RecordIsSpelled(fields: seq<JField>)
    ensures Print(JObj(fields)) == Ascii("{") + Joined(PrintedFields(fields)) + Ascii("}")
  {
    if fields != [] {
      MoreFieldsAreJoined(fields[1..]);
      FieldIs(fields[0]);
      assert PrintedFields(fields)[1..] == PrintedFields(fields[1..]);
    }
  }

  /** How each value is written. */
  lemma ValuesAreSpelled(b: bool, digits: NumberText, s: JsString, items: seq<Json>, fields: seq<JField>)
    ensures Print(JNull) == Ascii("null") && Print(JBool(true)) == Ascii("true") &&
      Print(JBool(false)) == Ascii("false")
    ensures Print(JNum(digits)) == digits
    ensures Print(JStr(s)) == Ascii("\"") + Escape(s) + Ascii("\"")
    ensures Print(JArr(items)) == Ascii("[") + Joined(Printed(items)) + Ascii("]")
    ensures Print(JObj(fields)) == Ascii("{") + Joined(PrintedFields(fields)) + Ascii("}")
  {
    ListIsSpelled(items);
    RecordIsSpelled(fields);
  }

  /** A lower-case hexadecimal digit. */
  function Hex(n: Unit): Unit
    requires n < 16
  {
    Ascii("0123456789abcdef")[n]
  }

  /** Which units are escaped, and how: quotes, backslashes, control characters, and surrogates outside a pair. */
  lemma EscapesAre(u: Unit)
    ensures u == 0x22 ==> EscapeOne(u) == Ascii("\\\"")
    ensures u == 0x5C ==> EscapeOne(u) == Ascii("\\\\")
    ensures u == 0x08 ==> EscapeOne(u) == Ascii("\\b")
    ensures u == 0x09 ==> EscapeOne(u) == Ascii("\\t")
    ensures u == 0x0A ==> EscapeOne(u) == Ascii("\\n")
    ensures u == 0x0C ==> EscapeOne(u) == Ascii("\\f")
    ensures u == 0x0D ==> EscapeOne(u) == Ascii("\\r")
    ensures EscapeOne(u) == [u] <==> u >= 0x20 && u != 0x22 && u != 0x5C && !(0xD800 <= u < 0xE000)
    ensures u < 0x10 && u !in {0x08, 0x09, 0x0A, 0x0C, 0x0D} ==> EscapeOne(u) == Ascii("\\u000") + [Hex(u)]
    ensures 0x10 <= u < 0x20 ==> EscapeOne(u) == Ascii("\\u001") + [Hex(u - 0x10)]
  {
  }

  /** What numbers are written with. */
  lemma NumberUnits(u: Unit)
    ensures NumberUnit(u) <==> u in Ascii("0123456789+-.e")
  {
    var units := Ascii("0123456789+-.e");
    if NumberUnit(u) {
      var i := if u == 0x2B then 10 else if u == 0x2D then 11 else if u == 0x2E then 12 else if u == 0x65 then 13
        else u as int - 0x30;
      assert units[i] == u;
    }
  }
}
