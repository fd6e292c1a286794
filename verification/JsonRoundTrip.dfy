/** Every value that is dumped is read back unchanged. */
module JsonRoundTrip {
  import opened Common
  import opened Json

  lemma HexBack(d: nat)
    requires d < 16
    ensures HexValue(Hex(d)) == d
  {
  }

  lemma UnitBack(n: nat, rest: string)
    requires n < 0x1_0000
    ensures ReadUnit(Unit(n)[2..] + rest) == Got(n, rest)
  {
    var high, low := n / 256, n % 256;
    HexBack(high / 16);
    HexBack(high % 16);
    HexBack(low / 16);
    HexBack(low % 16);
    var s := Unit(n)[2..] + rest;
    assert s[4..] == rest;
    assert s[0] == Hex(high / 16) && s[1] == Hex(high % 16) && s[2] == Hex(low / 16) && s[3] == Hex(low % 16);
  }

  lemma CharBack(c: char, rest: string)
    ensures EscapeChar(c) != "" && EscapeChar(c)[0] != '"'
    ensures ReadChar(EscapeChar(c) + rest) == Got(c, rest)
  {
    if c as int >= 0x1_0000 {
      PairBack(c, rest);
    } else if |EscapeChar(c)| == 6 {
      UnitCharBack(c, rest);
    } else {
      ShortCharBack(c, rest);
    }
  }

  lemma ShortCharBack(c: char, rest: string)
    requires |EscapeChar(c)| <= 2
    ensures EscapeChar(c) != "" && EscapeChar(c)[0] != '"'
    ensures ReadChar(EscapeChar(c) + rest) == Got(c, rest)
  {
    var s := EscapeChar(c) + rest;
    if |EscapeChar(c)| == 2 { assert s[2..] == rest; } else { assert s[1..] == rest; }
  }

  lemma UnitCharBack(c: char, rest: string)
    requires c as int < 0x1_0000 && EscapeChar(c) == Unit(c as int)
    ensures EscapeChar(c)[0] != '"'
    ensures ReadChar(EscapeChar(c) + rest) == Got(c, rest)
  {
    UnitShape(c as int, rest);
    UnitBack(c as int, rest);
  }

  /** A character outside the basic plane is written as a surrogate pair. */
  lemma PairBack(c: char, rest: string)
    requires c as int >= 0x1_0000
    ensures EscapeChar(c) != "" && EscapeChar(c)[0] != '"'
    ensures ReadChar(EscapeChar(c) + rest) == Got(c, rest)
  {
    var v := c as int - 0x1_0000;
    assert EscapeChar(c) == Pair(v);
    PairReads(v, rest);
    LowBack(c, rest);
  }

  lemma PairReads(v: nat, rest: string)
    ensures Pair(v) != "" && Pair(v)[0] == '\\'
    ensures ReadChar(Pair(v) + rest) == ReadLow(High(v), Unit(Low(v)) + rest)
  {
    var high, low := High(v), Low(v);
    ConcatAssoc(Unit(high), Unit(low), rest);
    UnitShape(high, Unit(low) + rest);
    UnitBack(high, Unit(low) + rest);
    ReadHigh(Unit(high) + (Unit(low) + rest), high, Unit(low) + rest);
  }

  lemma ReadHigh(s: string, high: nat, tail: string)
    requires |s| > 2 && s[0] == '\\' && s[1] == 'u' && 0xD800 <= high < 0xDC00
    requires ReadUnit(s[2..]) == Got(high, tail)
    ensures ReadChar(s) == ReadLow(high, tail)
  {
  }

  lemma UnitShape(n: nat, rest: string)
    requires n < 0x1_0000
    ensures var s := Unit(n) + rest; |s| > 2 && s[0] == '\\' && s[1] == 'u' && s[2..] == Unit(n)[2..] + rest
  {
  }

  lemma LowBack(c: char, rest: string)
    requires c as int >= 0x1_0000
    ensures var v := c as int - 0x1_0000;
            ReadLow(High(v), Unit(Low(v)) + rest) == Got(c, rest)
  {
    var v := c as int - 0x1_0000;
    var low := Low(v);
    UnitShape(low, rest);
    UnitBack(low, rest);
    Surrogates(v);
  }

  lemma Surrogates(v: nat)
    requires v < 0x10_0000
    ensures (High(v) - 0xD800) * 1024 + (Low(v) - 0xDC00) == v
  {
    assert v / 1024 < 1024;
  }

  lemma {:induction false} CharsBack(t: string, rest: string)
    ensures ReadChars(EscapeAll(t) + ['"'] + rest) == Got(t, rest)
  {
    var s := EscapeAll(t) + ['"'] + rest;
    if t == "" {
      assert s == ['"'] + rest;
      assert s[1..] == rest;
    } else {
      var more := EscapeAll(t[1..]) + ['"'] + rest;
      assert s == EscapeChar(t[0]) + more;
      CharBack(t[0], more);
      CharsBack(t[1..], rest);
      assert [t[0]] + t[1..] == t;
    }
  }

  lemma AfterFirst(c: char, s: string)
    ensures ([c] + s)[0] == c && ([c] + s)[1..] == s
  {
  }

  lemma Regroup(a: string, b: string, c: string, d: string)
    ensures a + b + c + d == a + (b + (c + d))
  {
  }

  lemma RegroupMore(a: string, b: string, c: string, d: string, e: string)
    ensures a + b + c + d + e == a + (b + (c + d + e))
  {
  }

  /** Where a value may end: at the end of the text or before a delimiter. */
  predicate Delimited(rest: string) {
    rest == "" || rest[0] == ',' || rest[0] == ']' || rest[0] == '}'
  }

  lemma QuoteBack(t: string, rest: string)
    ensures Quote(t) + rest != "" && (Quote(t) + rest)[0] == '"'
    ensures ReadChars((Quote(t) + rest)[1..]) == Got(t, rest)
  {
    CharsBack(t, rest);
    Regroup(['"'], EscapeAll(t), ['"'], rest);
    ConcatAssoc(EscapeAll(t), ['"'], rest);
    AfterFirst('"', EscapeAll(t) + ['"'] + rest);
  }

  lemma {:induction false} NumberEnds(text: string, rest: string)
    requires Delimited(rest) && forall i :: 0 <= i < |text| ==> IsNumberChar(text[i])
    ensures NumberEnd(text + rest) == |text|
  {
    if text == "" {
      assert text + rest == rest;
    } else {
      assert (text + rest)[1..] == text[1..] + rest;
      NumberEnds(text[1..], rest);
    }
  }

  lemma WordBack(j: Json, rest: string)
    requires Delimited(rest) && (j.JNull? || j.JBool? || j.JNumber?)
    ensures ReadValue(Dump(j) + rest) == Got(j, rest)
  {
    var s := Dump(j) + rest;
    match j
    case JNull => assert s[..4] == "null" && s[4..] == rest;
    case JBool(b) =>
      if b { assert s[..4] == "true" && s[4..] == rest; } else { assert s[..5] == "false" && s[5..] == rest; }
    case JNumber(text) =>
      NumberEnds(text, rest);
      assert s[0] == text[0];
      assert s[..|text|] == text && s[|text|..] == rest;
    case _ =>
  }

  /** The text of a value never starts with a closing bracket. */
  lemma StartsOpen(j: Json)
    ensures Dump(j) != "" && Dump(j)[0] != ']' && Dump(j)[0] != '}'
  {
  }

  lemma {:induction false} ValueBack(j: Json, rest: string)
    requires Delimited(rest)
    ensures ReadValue(Dump(j) + rest) == Got(j, rest)
    decreases j, 1
  {
    match j
    case JString(t) => QuoteBack(t, rest);
    case JArray(items) => ArrayBack(items, rest);
    case JObject(fields) => ObjectBack(fields, rest);
    case _ => WordBack(j, rest);
  }

  lemma {:induction false} ArrayBack(items: seq<Json>, rest: string)
    ensures ReadValue(Dump(JArray(items)) + rest) == Got(JArray(items), rest)
    decreases items, 1
  {
    var inner := DumpItems(items) + [']'] + rest;
    Regroup(['['], DumpItems(items), [']'], rest);
    ConcatAssoc(DumpItems(items), [']'], rest);
    AfterFirst('[', inner);
    if items == [] {
      assert inner == [']'] + rest;
      assert (['['] + inner)[2..] == rest;
    } else {
      ItemsBack(items, rest);
      StartsOpen(items[0]);
      assert inner[0] == Dump(items[0])[0];
    }
  }

  lemma {:induction false} ObjectBack(fields: seq<(string, Json)>, rest: string)
    ensures ReadValue(Dump(JObject(fields)) + rest) == Got(JObject(fields), rest)
    decreases fields, 1
  {
    var inner := DumpFields(fields) + ['}'] + rest;
    Regroup(['{'], DumpFields(fields), ['}'], rest);
    ConcatAssoc(DumpFields(fields), ['}'], rest);
    AfterFirst('{', inner);
    if fields == [] {
      assert inner == ['}'] + rest;
      assert (['{'] + inner)[2..] == rest;
    } else {
      FieldsBack(fields, rest);
      FieldsStart(fields);
      assert inner[0] == '"';
    }
  }

  lemma ItemsLast(s: string, v: Json, t: string)
    requires ReadValue(s) == Got(v, [']'] + t)
    ensures ReadItems(s) == Got([v], t)
  {
    AfterFirst(']', t);
  }

  lemma ItemsStep(s: string, v: Json, t: string)
    requires ReadValue(s) == Got(v, [','] + t) && ReadItems(t).Got?
    ensures ReadItems(s) == Got([v] + ReadItems(t).value, ReadItems(t).rest)
  {
    AfterFirst(',', t);
  }

  lemma FieldsStart(fields: seq<(string, Json)>)
    requires fields != []
    ensures DumpFields(fields) != "" && DumpFields(fields)[0] == '"'
  {
    assert DumpField(fields[0])[0] == '"';
  }

  lemma FieldsLast(s: string, f: (string, Json), t: string)
    requires ReadField(s) == Got(f, ['}'] + t)
    ensures ReadFields(s) == Got([f], t)
  {
    AfterFirst('}', t);
  }

  lemma FieldsStep(s: string, f: (string, Json), t: string)
    requires ReadField(s) == Got(f, [','] + t) && ReadFields(t).Got?
    ensures ReadFields(s) == Got([f] + ReadFields(t).value, ReadFields(t).rest)
  {
    AfterFirst(',', t);
  }

  lemma {:induction false} ItemsBack(items: seq<Json>, rest: string)
    requires items != []
    ensures ReadItems(DumpItems(items) + [']'] + rest) == Got(items, rest)
    decreases items, 0
  {
    var s := DumpItems(items) + [']'] + rest;
    if |items| == 1 {
      var after := [']'] + rest;
      ValueBack(items[0], after);
      ConcatAssoc(Dump(items[0]), [']'], rest);
      ItemsLast(s, items[0], rest);
      assert items == [items[0]];
    } else {
      var more := DumpItems(items[1..]) + [']'] + rest;
      var after := [','] + more;
      ValueBack(items[0], after);
      ItemsBack(items[1..], rest);
      RegroupMore(Dump(items[0]), [','], DumpItems(items[1..]), [']'], rest);
      ItemsStep(s, items[0], more);
      assert items == [items[0]] + items[1..];
    }
  }

  lemma {:induction false} FieldBack(field: (string, Json), rest: string)
    requires Delimited(rest)
    ensures ReadField(DumpField(field) + rest) == Got(field, rest)
    decreases field, 2
  {
    var s := DumpField(field) + rest;
    var after := [':'] + (Dump(field.1) + rest);
    QuoteBack(field.0, after);
    Regroup(Quote(field.0), [':'], Dump(field.1), rest);
    assert field.1 < field;
    ValueBack(field.1, rest);
    assert after[1..] == Dump(field.1) + rest;
  }

  lemma {:induction false} FieldsBack(fields: seq<(string, Json)>, rest: string)
    requires fields != []
    ensures ReadFields(DumpFields(fields) + ['}'] + rest) == Got(fields, rest)
    decreases fields, 0
  {
    if |fields| == 1 {
      FieldBack(fields[0], ['}'] + rest);
      LastFieldBack(fields, DumpField(fields[0]), rest);
    } else {
      var more := DumpFields(fields[1..]);
      FieldBack(fields[0], [','] + (more + ['}'] + rest));
      FieldsBack(fields[1..], rest);
      NextFieldBack(fields, DumpField(fields[0]), more, rest);
    }
  }

  lemma LastFieldBack(fields: seq<(string, Json)>, first: string, rest: string)
    requires |fields| == 1 && ReadField(first + (['}'] + rest)) == Got(fields[0], ['}'] + rest)
    ensures ReadFields(first + ['}'] + rest) == Got(fields, rest)
  {
    ConcatAssoc(first, ['}'], rest);
    FieldsLast(first + ['}'] + rest, fields[0], rest);
    assert fields == [fields[0]];
  }

  lemma NextFieldBack(fields: seq<(string, Json)>, first: string, more: string, rest: string)
    requires |fields| > 1
    requires ReadField(first + ([','] + (more + ['}'] + rest))) == Got(fields[0], [','] + (more + ['}'] + rest))
    requires ReadFields(more + ['}'] + rest) == Got(fields[1..], rest)
    ensures ReadFields(first + [','] + more + ['}'] + rest) == Got(fields, rest)
  {
    RegroupMore(first, [','], more, ['}'], rest);
    FieldsStep(first + [','] + more + ['}'] + rest, fields[0], more + ['}'] + rest);
    assert fields == [fields[0]] + fields[1..];
  }

  lemma LoadDump(j: Json)
    ensures Load(Dump(j)) == Some(j)
  {
    ValueBack(j, "");
    assert Dump(j) + "" == Dump(j);
  }
}
