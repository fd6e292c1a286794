/** `json.dumps(value, ensure_ascii=True, separators=(",", ":"))`, to the extent that framing depends on it. */
module Json {
  import opened Common

  predicate IsPrintable(s: string) {
    forall i :: 0 <= i < |s| ==> ' ' <= s[i] <= '~'
  }

  /** Digits, sign, point and exponent, and the letters of NaN and Infinity. */
  predicate IsNumberChar(c: char) {
    '0' <= c <= '9' || c == '-' || c == '+' || c == '.' || 'a' <= c <= 'z' || 'A' <= c <= 'Z'
  }

  predicate IsNumberText(s: string) {
    && |s| > 0 && ('0' <= s[0] <= '9' || s[0] == '-' || s[0] == 'N' || s[0] == 'I')
    && forall i :: 0 <= i < |s| ==> IsNumberChar(s[i])
  }

  type NumberText = s: string | IsNumberText(s) witness "0"

  datatype Json =
    | JNull
    | JBool(b: bool)
    | JNumber(text: NumberText)
    | JString(s: string)
    | JArray(items: seq<Json>)
    | JObject(fields: seq<(string, Json)>)

  function Hex(d: nat): char
    requires d < 16
  {
    "0123456789abcdef"[d]
  }

  /** A four-digit escape of one UTF-16 code unit. */
  function Unit(n: nat): string
    requires n < 0x1_0000
  {
    var high, low := n / 256, n % 256;
    ['\\', 'u', Hex(high / 16), Hex(high % 16), Hex(low / 16), Hex(low % 16)]
  }

  /** The characters with a two-character escape. */
  function ShortEscape(c: char): Option<char> {
    if c == '"' || c == '\\' then Some(c)
    else if c == '\n' then Some('n')
    else if c == '\r' then Some('r')
    else if c == '\t' then Some('t')
    else if c as int == 8 then Some('b')
    else if c as int == 12 then Some('f')
    else None
  }

  /** Section 7 of RFC 8259, with everything outside printable ASCII escaped. */
  function EscapeChar(c: char): string {
    if ShortEscape(c).Some? then ['\\', ShortEscape(c).value]
    else if ' ' <= c <= '~' then [c]
    else if c as int < 0x1_0000 then Unit(c as int)
    else Pair(c as int - 0x1_0000)
  }

  /** A surrogate pair, for characters outside the basic plane. */
  function Pair(v: nat): string {
    Unit(High(v)) + Unit(Low(v))
  }

  function High(v: nat): (r: nat)
    ensures 0xD800 <= r < 0xDC00
  {
    0xD800 + v / 1024 % 1024
  }

  function Low(v: nat): (r: nat)
    ensures 0xDC00 <= r < 0xE000
  {
    0xDC00 + v % 1024
  }

  function EscapeAll(s: string): string {
    if s == "" then "" else EscapeChar(s[0]) + EscapeAll(s[1..])
  }

  function Quote(s: string): string {
    ['"'] + EscapeAll(s) + ['"']
  }

  function Dump(j: Json): string
    decreases j, 1
  {
    match j
    case JNull => "null"
    case JBool(b) => if b then "true" else "false"
    case JNumber(text) => text
    case JString(s) => Quote(s)
    case JArray(items) => ['['] + DumpItems(items) + [']']
    case JObject(fields) => ['{'] + DumpFields(fields) + ['}']
  }

  function DumpItems(items: seq<Json>): string
    decreases items, 0
  {
    if items == [] then ""
    else if |items| == 1 then Dump(items[0])
    else Dump(items[0]) + [','] + DumpItems(items[1..])
  }

  function DumpField(field: (string, Json)): string
    decreases field, 2
  {
    assert field.1 < field;
    Quote(field.0) + [':'] + Dump(field.1)
  }

  function DumpFields(fields: seq<(string, Json)>): string
    decreases fields, 0
  {
    if fields == [] then "" else
    if |fields| == 1 then DumpField(fields[0]) else DumpField(fields[0]) + [','] + DumpFields(fields[1..])
  }

  // ------------------------------------------------------------------
  // No output can be broken by its own content

  lemma UnitPrintable(n: nat)
    requires n < 0x1_0000
    ensures IsPrintable(Unit(n))
  {
    var high, low := n / 256, n % 256;
    HexPrintable(high / 16);
    HexPrintable(high % 16);
    HexPrintable(low / 16);
    HexPrintable(low % 16);
  }

  lemma HexPrintable(d: nat)
    requires d < 16
    ensures ' ' <= Hex(d) <= '~'
  {
  }

  lemma ShortPrintable(c: char)
    requires ShortEscape(c).Some?
    ensures IsPrintable(['\\', ShortEscape(c).value])
  {
    assert ' ' <= ShortEscape(c).value <= '~';
  }

  lemma LongPrintable(c: char)
    requires ShortEscape(c).None? && !(' ' <= c <= '~')
    ensures IsPrintable(EscapeChar(c))
  {
    if c as int < 0x1_0000 { UnitPrintable(c as int); } else { PairPrintable(c as int - 0x1_0000); }
  }

  lemma EscapeCharPrintable(c: char)
    ensures IsPrintable(EscapeChar(c))
  {
    if ShortEscape(c).Some? {
      ShortPrintable(c);
    } else if !(' ' <= c <= '~') {
      LongPrintable(c);
    }
  }

  lemma PairPrintable(v: nat)
    ensures IsPrintable(Pair(v))
  {
    UnitPrintable(High(v));
    UnitPrintable(Low(v));
    PrintableConcat(Unit(High(v)), Unit(Low(v)));
  }

  lemma PrintableConcat(a: string, b: string)
    requires IsPrintable(a) && IsPrintable(b)
    ensures IsPrintable(a + b)
  {
  }

  lemma {:induction false} EscapeAllPrintable(s: string)
    ensures IsPrintable(EscapeAll(s))
  {
    if s != "" {
      EscapeCharPrintable(s[0]);
      EscapeAllPrintable(s[1..]);
      PrintableConcat(EscapeChar(s[0]), EscapeAll(s[1..]));
    }
  }

  /** Every character of the output is printable ASCII, so no newline is among them. */
  lemma {:induction false} DumpPrintable(j: Json)
    ensures IsPrintable(Dump(j))
    decreases j, 1
  {
    match j
    case JString(s) => EscapeAllPrintable(s);
    case JArray(items) => DumpItemsPrintable(items);
    case JObject(fields) => DumpFieldsPrintable(fields);
    case _ =>
  }

  lemma {:induction false} DumpItemsPrintable(items: seq<Json>)
    ensures IsPrintable(DumpItems(items))
    decreases items, 0
  {
    if items != [] {
      DumpPrintable(items[0]);
      DumpItemsPrintable(items[1..]);
    }
  }

  lemma {:induction false} DumpFieldsPrintable(fields: seq<(string, Json)>)
    ensures IsPrintable(DumpFields(fields))
    decreases fields, 0
  {
    if fields != [] {
      EscapeAllPrintable(fields[0].0);
      assert fields[0].1 < fields[0];
      DumpPrintable(fields[0].1);
      DumpFieldsPrintable(fields[1..]);
    }
  }

  // ------------------------------------------------------------------
  // Reading the text back

  datatype Read<+T> = Unreadable | Got(value: T, rest: string)

  function HexValue(c: char): int {
    if '0' <= c <= '9' then c as int - '0' as int
    else if 'a' <= c <= 'f' then c as int - 'a' as int + 10
    else -1
  }

  function ReadUnit(s: string): (r: Read<nat>)
    ensures r.Got? ==> r.value < 0x1_0000 && |r.rest| < |s|
  {
    if |s| < 4 then Unreadable else
    var a, b, c, d := HexValue(s[0]), HexValue(s[1]), HexValue(s[2]), HexValue(s[3]);
    if a < 0 || b < 0 || c < 0 || d < 0 then Unreadable
    else Got((a * 16 + b) * 256 + (c * 16 + d), s[4..])
  }

  /** After a high surrogate: the low one must follow. */
  function ReadLow(high: nat, s: string): (r: Read<char>)
    requires 0xD800 <= high < 0xDC00
    ensures r.Got? ==> |r.rest| < |s|
  {
    if |s| < 2 || s[0] != '\\' || s[1] != 'u' then Unreadable else
    var low := ReadUnit(s[2..]);
    if low.Unreadable? || !(0xDC00 <= low.value < 0xE000) then Unreadable
    else Got((0x1_0000 + (high - 0xD800) * 1024 + (low.value - 0xDC00)) as char, low.rest)
  }

  function ReadChar(s: string): (r: Read<char>)
    requires |s| > 0
    ensures r.Got? ==> |r.rest| < |s|
  {
    if s[0] != '\\' then Got(s[0], s[1..])
    else if |s| < 2 then Unreadable
    else if s[1] == '"' || s[1] == '\\' then Got(s[1], s[2..])
    else if s[1] == 'n' then Got('\n', s[2..])
    else if s[1] == 'r' then Got('\r', s[2..])
    else if s[1] == 't' then Got('\t', s[2..])
    else if s[1] == 'b' then Got(8 as char, s[2..])
    else if s[1] == 'f' then Got(12 as char, s[2..])
    else if s[1] != 'u' then Unreadable
    else
      var unit := ReadUnit(s[2..]);
      if unit.Unreadable? then Unreadable
      else if 0xD800 <= unit.value < 0xDC00 then ReadLow(unit.value, unit.rest)
      else if 0xDC00 <= unit.value < 0xE000 then Unreadable
      else Got(unit.value as char, unit.rest)
  }

  /** The characters up to the closing quote. */
  function ReadChars(s: string): (r: Read<string>)
    ensures r.Got? ==> |r.rest| < |s|
    decreases |s|
  {
    if s == "" then Unreadable
    else if s[0] == '"' then Got("", s[1..])
    else
      var c := ReadChar(s);
      if c.Unreadable? then Unreadable else
      var more := ReadChars(c.rest);
      if more.Unreadable? then Unreadable else Got([c.value] + more.value, more.rest)
  }

  function NumberEnd(s: string): (n: nat)
    ensures n <= |s|
  {
    if s == "" || !IsNumberChar(s[0]) then 0 else 1 + NumberEnd(s[1..])
  }

  function ReadValue(s: string): (r: Read<Json>)
    ensures r.Got? ==> |r.rest| < |s|
    decreases |s|, 0
  {
    if s == "" then Unreadable
    else if s[0] == '"' then
      var t := ReadChars(s[1..]);
      if t.Got? then Got(JString(t.value), t.rest) else Unreadable
    else if s[0] == '[' then
      if |s| > 1 && s[1] == ']' then Got(JArray([]), s[2..]) else
      var t := ReadItems(s[1..]);
      if t.Got? then Got(JArray(t.value), t.rest) else Unreadable
    else if s[0] == '{' then
      if |s| > 1 && s[1] == '}' then Got(JObject([]), s[2..]) else
      var t := ReadFields(s[1..]);
      if t.Got? then Got(JObject(t.value), t.rest) else Unreadable
    else ReadWord(s)
  }

  function ReadWord(s: string): (r: Read<Json>)
    requires |s| > 0
    ensures r.Got? ==> |r.rest| < |s|
  {
    if "null" <= s then Got(JNull, s[4..])
    else if "true" <= s then Got(JBool(true), s[4..])
    else if "false" <= s then Got(JBool(false), s[5..])
    else
      var n := NumberEnd(s);
      if n > 0 && IsNumberText(s[..n]) then Got(JNumber(s[..n]), s[n..]) else Unreadable
  }

  /** One or more items and the closing bracket. */
  function ReadItems(s: string): (r: Read<seq<Json>>)
    ensures r.Got? ==> |r.rest| < |s|
    decreases |s|, 1
  {
    var first := ReadValue(s);
    if first.Unreadable? || first.rest == "" then Unreadable
    else if first.rest[0] == ']' then Got([first.value], first.rest[1..])
    else if first.rest[0] != ',' then Unreadable
    else
      var more := ReadItems(first.rest[1..]);
      if more.Got? then Got([first.value] + more.value, more.rest) else Unreadable
  }

  function ReadField(s: string): (r: Read<(string, Json)>)
    ensures r.Got? ==> |r.rest| < |s|
    decreases |s|, 1
  {
    if s == "" || s[0] != '"' then Unreadable else
    var key := ReadChars(s[1..]);
    if key.Unreadable? || key.rest == "" || key.rest[0] != ':' then Unreadable else
    var value := ReadValue(key.rest[1..]);
    if value.Got? then Got((key.value, value.value), value.rest) else Unreadable
  }

  function ReadFields(s: string): (r: Read<seq<(string, Json)>>)
    ensures r.Got? ==> |r.rest| < |s|
    decreases |s|, 2
  {
    var first := ReadField(s);
    if first.Unreadable? || first.rest == "" then Unreadable
    else if first.rest[0] == '}' then Got([first.value], first.rest[1..])
    else if first.rest[0] != ',' then Unreadable
    else
      var more := ReadFields(first.rest[1..]);
      if more.Got? then Got([first.value] + more.value, more.rest) else Unreadable
  }

  /** `json.loads` on text without spaces. */
  function Load(s: string): Option<Json> {
    var r := ReadValue(s);
    if r.Got? && r.rest == "" then Some(r.value) else None
  }
}
