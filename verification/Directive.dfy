/**
 The directive line appended to a declared module's working copy, and the
 loader that compiles the module from what precedes it.
 */
module Directive {
  import opened Common
  import opened PyAst
  import opened Instrumentation

  newtype byte = b: int | 0 <= b < 256

  type Bytes = seq<byte>

  const NEWLINE: byte := 10

  /** `b"#__launcher_test_proof__ "` */
  const MARKER: Bytes :=
    [35, 95, 95, 108, 97, 117, 110, 99, 104, 101, 114, 95, 116, 101, 115, 116, 95, 112, 114, 111, 111, 102, 95, 95, 32]

  datatype DirectiveData = DirectiveData(originalBytes: int, probes: Probes, mutation: Option<Mutation>)

  /** Reads a directive's JSON text; None stands for ValueError, KeyError and TypeError. */
  type Decoder = Bytes -> Option<DirectiveData>

  datatype Split = Split(original: Bytes, directive: DirectiveData)

  /** `rfind(b"\n") + 1`: where the last line starts. */
  function LastLineStart(body: Bytes): (start: nat)
    ensures start <= |body|
    ensures start > 0 ==> body[start - 1] == NEWLINE
    ensures forall i :: start <= i < |body| ==> body[i] != NEWLINE
  {
    if body == [] then 0
    else if body[|body| - 1] == NEWLINE then |body|
    else LastLineStart(body[..|body| - 1])
  }

  function WithoutFinalNewline(data: Bytes): Bytes {
    if |data| > 0 && data[|data| - 1] == NEWLINE then data[..|data| - 1] else data
  }

  /** Python's `data[:n]` for any integer n. */
  function Prefix(data: Bytes, n: int): Bytes {
    if n >= 0 then data[..Min(n, |data|)]
    else if |data| + n >= 0 then data[..|data| + n]
    else []
  }

  function SplitDirective(load: Decoder, data: Bytes): Option<Split> {
    var body := WithoutFinalNewline(data);
    var start := LastLineStart(body);
    if !(MARKER <= body[start..]) then None else
    match load(body[start + |MARKER|..])
    case None => None
    case Some(d) =>
      var original := Prefix(data, d.originalBytes);
      if |original| != d.originalBytes || start < |original| then None else Some(Split(original, d))
  }

  /** Everything returned is a prefix that ends no later than the final marker line. */
  lemma SplitSound(load: Decoder, data: Bytes)
    requires SplitDirective(load, data).Some?
    ensures var r := SplitDirective(load, data).value;
            var start := LastLineStart(WithoutFinalNewline(data));
            && r.original <= data
            && |r.original| == r.directive.originalBytes
            && |r.original| <= start
            && MARKER <= data[start..]
  {
    var body := WithoutFinalNewline(data);
    var start := LastLineStart(body);
    assert MARKER <= body[start..];
    assert body[start..] <= data[start..];
  }

  /** A module with a directive line after it, with or without a final newline. */
  function Appended(original: Bytes, separator: Bytes, payload: Bytes, terminated: bool): Bytes {
    original + separator + MARKER + payload + (if terminated then [NEWLINE] else [])
  }

  predicate EndsLine(b: Bytes) {
    b == [] || b[|b| - 1] == NEWLINE
  }

  lemma MarkerIsOneLine()
    ensures |MARKER| == 25 && MARKER[24] != NEWLINE
    ensures forall i :: 0 <= i < |MARKER| ==> MARKER[i] != NEWLINE
  {
  }

  lemma MarkerSpells()
    ensures var text := "#__launcher_test_proof__ ";
            |MARKER| == |text| && forall i :: 0 <= i < |text| ==> MARKER[i] as int == text[i] as int
  {
  }

  lemma LastLineStartAt(body: Bytes, start: nat)
    requires start <= |body|
    requires start > 0 ==> body[start - 1] == NEWLINE
    requires forall i :: start <= i < |body| ==> body[i] != NEWLINE
    ensures LastLineStart(body) == start
  {
    var s := LastLineStart(body);
    assert s < start ==> s <= start - 1 < |body|;
    assert start < s ==> start <= s - 1 < |body|;
  }

  lemma AppendedLine(original: Bytes, separator: Bytes, payload: Bytes, terminated: bool)
    requires NEWLINE !in payload
    requires EndsLine(original + separator)
    ensures var data := Appended(original, separator, payload, terminated);
            && WithoutFinalNewline(data) == original + separator + MARKER + payload
            && LastLineStart(WithoutFinalNewline(data)) == |original + separator|
  {
    var data := Appended(original, separator, payload, terminated);
    var head := original + separator;
    var body := head + MARKER + payload;
    MarkerIsOneLine();
    if terminated {
      assert data[..|data| - 1] == body;
    } else {
      assert data == body;
      assert payload == [] ==> body[|body| - 1] == MARKER[24];
    }
    forall i | |head| <= i < |body|
      ensures body[i] != NEWLINE
    {
      if i < |head| + |MARKER| {
        assert body[i] == MARKER[i - |head|];
      } else {
        assert body[i] == payload[i - |head| - |MARKER|];
        assert body[i] in payload;
      }
    }
    LastLineStartAt(body, |head|);
  }

  /** Round trip: a newline-free directive line that records the original's length is found again, exactly. */
  lemma DirectiveRoundTrip(load: Decoder, original: Bytes, separator: Bytes, payload: Bytes, terminated: bool)
    requires NEWLINE !in payload
    requires separator == [] || separator == [NEWLINE]
    requires EndsLine(original + separator)
    requires load(payload).Some? && load(payload).value.originalBytes == |original|
    ensures SplitDirective(load, Appended(original, separator, payload, terminated))
         == Some(Split(original, load(payload).value))
  {
    var data := Appended(original, separator, payload, terminated);
    var head := original + separator;
    AppendedLine(original, separator, payload, terminated);
    var body := WithoutFinalNewline(data);
    AfterHead(head, MARKER, payload);
    assert data[..|original|] == original;
  }

  lemma AfterHead(head: Bytes, marker: Bytes, payload: Bytes)
    ensures var body := head + marker + payload;
            body[|head|..] == marker + payload && body[|head| + |marker|..] == payload && marker <= body[|head|..]
  {
  }

  /** Without a separator the directive is found exactly when the original ends a line. */
  lemma UnseparatedExactly(load: Decoder, original: Bytes, payload: Bytes, terminated: bool)
    requires NEWLINE !in payload
    requires load(payload).Some? && load(payload).value.originalBytes == |original|
    ensures SplitDirective(load, Appended(original, [], payload, terminated))
              == Some(Split(original, load(payload).value))
       <==> EndsLine(original)
  {
    assert original + [] == original;
    if EndsLine(original) {
      DirectiveRoundTrip(load, original, [], payload, terminated);
    } else {
      var data := Appended(original, [], payload, terminated);
      if SplitDirective(load, data) == Some(Split(original, load(payload).value)) {
        SplitSound(load, data);
        var body := WithoutFinalNewline(data);
        var start := LastLineStart(body);
        TailHasNoNewline(original, payload, terminated, start);
        assert false;
      }
    }
  }

  lemma TailHasNoNewline(original: Bytes, payload: Bytes, terminated: bool, start: nat)
    requires NEWLINE !in payload && !EndsLine(original)
    requires start == LastLineStart(WithoutFinalNewline(Appended(original, [], payload, terminated)))
    ensures start < |original|
  {
    var data := Appended(original, [], payload, terminated);
    var body := original + MARKER + payload;
    MarkerIsOneLine();
    assert WithoutFinalNewline(data) == body by {
      if terminated { assert data[..|data| - 1] == body; } else { assert data == body; }
    }
    forall i | |original| - 1 <= i < |body|
      ensures body[i] != NEWLINE
    {
      if i < |original| {
      } else if i < |original| + |MARKER| {
        assert body[i] == MARKER[i - |original|];
      } else {
        assert body[i] == payload[i - |original| - |MARKER|];
        assert body[i] in payload;
      }
    }
  }

  // ------------------------------------------------------------------
  // InstrumentedLoader.get_code

  /** Python's parser (None: SyntaxError) and SHA-256, both arbitrary. */
  datatype Toolchain = Toolchain(load: Decoder, parse: Bytes -> Option<Module>, digest: Bytes -> string)

  datatype Refusal = LacksInstrumentation | SourceMoved | SyntaxError | FunctionWithoutProbe | ReturnNotFound

  /** When the loader compiles the module, and not before. */
  ghost predicate Compiles(t: Toolchain, data: Bytes, expected: string) {
    var split := SplitDirective(t.load, data);
    && split.Some?
    && t.digest(split.value.original) == expected
    && t.parse(split.value.original).Some?
    && var body := t.parse(split.value.original).value.body;
       && AllTokened(split.value.directive.probes, FunctionsOf(body))
       && (split.value.directive.mutation.Some? ==> AnySubstitutes(split.value.directive.mutation, body))
  }

  /** The first thing that is wrong. */
  ghost predicate Refuses(t: Toolchain, data: Bytes, expected: string, why: Refusal) {
    var split := SplitDirective(t.load, data);
    match why
    case LacksInstrumentation => split.None?
    case SourceMoved => split.Some? && t.digest(split.value.original) != expected
    case SyntaxError =>
      split.Some? && t.digest(split.value.original) == expected && t.parse(split.value.original).None?
    case FunctionWithoutProbe =>
      && split.Some? && t.parse(split.value.original).Some?
      && !AllTokened(split.value.directive.probes, FunctionsOf(t.parse(split.value.original).value.body))
    case ReturnNotFound =>
      && split.Some? && t.parse(split.value.original).Some? && split.value.directive.mutation.Some?
      && !AnySubstitutes(split.value.directive.mutation, t.parse(split.value.original).value.body)
  }

  method GetCode(t: Toolchain, data: Bytes, expected: string) returns (r: Result<Module, Refusal>)
    ensures r.Ok? <==> Compiles(t, data, expected)
    ensures r.Fail? ==> Refuses(t, data, expected, r.error)
    ensures r.Ok? ==>
      var split := SplitDirective(t.load, data).value;
      var tree := t.parse(split.original).value;
      && r.value == InstModule(split.directive.probes, split.directive.mutation, tree)
      && EraseBlock(r.value.body) == MutateBlock(split.directive.mutation, tree.body)
  {
    var split := SplitDirective(t.load, data);
    if split.None? {
      return Fail(LacksInstrumentation);
    }
    var Split(source, directive) := split.value;
    if t.digest(source) != expected {
      return Fail(SourceMoved);
    }
    var parsed := t.parse(source);
    if parsed.None? {
      return Fail(SyntaxError);
    }
    var transformer := new ModuleInstrumentation(directive.probes, directive.mutation);
    var tree := transformer.VisitModule(parsed.value);
    UntokenedIff(directive.probes, FunctionsOf(parsed.value.body));
    if transformer.unprobed != [] {
      return Fail(FunctionWithoutProbe);
    }
    if directive.mutation.Some? && !transformer.substituted {
      return Fail(ReturnNotFound);
    }
    MutationKeepsTokens(directive.probes, directive.mutation, parsed.value.body);
    EraseInst(directive.probes, MutateBlock(directive.mutation, parsed.value.body));
    return Ok(tree);
  }
}
