/**
 The stestr observer's source transformer: an entry probe at the start of every
 function body, and the declared scalar return replaced.

 The first half gives the transformation as functions on trees; the class below
 is the visitor itself, which walks in the visitor's order, updates its
 `substituted` and `unprobed` fields, and is proved to compute those functions.
 */
module Instrumentation {
  import opened Common
  import opened PyAst
  import PyEval

  /** Tokens by "line:name"; only string tokens are usable. */
  type Probes = map<string, Const>

  datatype Mutation = Mutation(functionName: string, line: nat, replacement: Const)

  function ProbeKey(line: nat, name: string): string {
    Decimal(line) + ":" + name
  }

  /** What precedes the first colon, and what follows it. */
  function BeforeColon(s: string): string {
    if s == "" || s[0] == ':' then "" else [s[0]] + BeforeColon(s[1..])
  }

  lemma {:induction false} ColonSplits(a: string, b: string)
    requires ':' !in a
    ensures BeforeColon(a + ":" + b) == a
  {
    if a == "" {
      assert a + ":" + b == ":" + b;
    } else {
      assert (a + ":" + b)[1..] == a[1..] + ":" + b;
      ColonSplits(a[1..], b);
    }
  }

  /** Read up to its first colon, a key gives back its line, and after it the name. */
  lemma KeyReadsBack(line: nat, name: string)
    ensures var key := ProbeKey(line, name);
            var number := BeforeColon(key);
            && ParseInt(number) == line && |number| < |key| && key[|number| + 1..] == name
  {
    var number := Decimal(line);
    assert ':' !in number;
    ColonSplits(number, name);
    ParseIntDecimal(line);
  }

  predicate HasToken(p: Probes, fn: Function) {
    ProbeKey(fn.lineno, fn.name) in p && p[ProbeKey(fn.lineno, fn.name)].StrConst?
  }

  function ProbeCall(token: Const): Stmt {
    ExprStmt(Call(Name(PyEval.REACH_NAME), [Constant(token)]))
  }

  /** After a docstring that does not stand alone, otherwise first. */
  function ProbeIndex(body: seq<Stmt>): (i: nat)
    ensures i <= |body|
  {
    if |body| > 1 && IsStringStmt(body[0]) then 1 else 0
  }

  function InsertProbe(p: Probes, fn: Function): Function {
    if HasToken(p, fn) then
      var i := ProbeIndex(fn.body);
      fn.(body := fn.body[..i] + [ProbeCall(p[ProbeKey(fn.lineno, fn.name)])] + fn.body[i..])
    else fn
  }

  function InstFunction(p: Probes, fn: Function): Function
    decreases fn, 1
  {
    InsertProbe(p, fn.(body := InstBlock(p, fn.body)))
  }

  function InstStmt(p: Probes, s: Stmt): Stmt
    decreases s, 1
  {
    match s
    case If(t, a, b) => If(t, InstBlock(p, a), InstBlock(p, b))
    case While(c, a) => While(c, InstBlock(p, a))
    case Try(a, c, h, f) => Try(InstBlock(p, a), c, InstBlock(p, h), InstBlock(p, f))
    case FunctionDef(fn) => FunctionDef(InstFunction(p, fn))
    case ClassDef(n, a) => ClassDef(n, InstBlock(p, a))
    case _ => s
  }

  function InstBlock(p: Probes, b: seq<Stmt>): (r: seq<Stmt>)
    ensures |r| == |b|
    decreases b, 0
  {
    if b == [] then [] else [InstStmt(p, b[0])] + InstBlock(p, b[1..])
  }

  /** Every function with a token, async or not, gets its probe first, or second after a docstring that has company. */
  lemma ProbeInPlace(p: Probes, fn: Function)
    requires HasToken(p, fn)
    ensures var b := InstFunction(p, fn).body;
            var i := if |fn.body| >= 2 && IsStringStmt(fn.body[0]) then 1 else 0;
            && |b| == |fn.body| + 1 && b[i] == ProbeCall(p[ProbeKey(fn.lineno, fn.name)])
            && b[..i] + b[i + 1..] == InstBlock(p, fn.body)
  {
    VisitedIndex(p, fn.body);
    Inserted(InstBlock(p, fn.body), ProbeIndex(fn.body), ProbeCall(p[ProbeKey(fn.lineno, fn.name)]));
  }

  lemma VisitedIndex(p: Probes, body: seq<Stmt>)
    ensures ProbeIndex(InstBlock(p, body)) == ProbeIndex(body)
  {
    if |body| > 0 { assert InstBlock(p, body)[0] == InstStmt(p, body[0]); }
  }

  lemma Inserted(b: seq<Stmt>, i: nat, s: Stmt)
    requires i <= |b|
    ensures var c := b[..i] + [s] + b[i..]; |c| == |b| + 1 && c[i] == s && c[..i] + c[i + 1..] == b
  {
    var c := b[..i] + [s] + b[i..];
    assert c[..i] == b[..i] && c[i + 1..] == b[i..];
  }

  // ------------------------------------------------------------------
  // The scalar substitution

  /** The statements that are not bare strings. */
  function Executable(body: seq<Stmt>): seq<Stmt> {
    if body == [] then []
    else (if IsStringStmt(body[0]) then [] else [body[0]]) + Executable(body[1..])
  }

  predicate Substitutable(body: seq<Stmt>) {
    |Executable(body)| == 1 && IsConstantReturn(Executable(body)[0])
  }

  function Substitute(body: seq<Stmt>, replacement: Const): (r: seq<Stmt>)
    ensures |r| == |body|
  {
    seq(|body|, i requires 0 <= i < |body| =>
      if IsStringStmt(body[i]) then body[i] else Return(Some(Constant(replacement))))
  }

  predicate Selects(mutation: Option<Mutation>, fn: Function) {
    mutation.Some? && !fn.isAsync && fn.name == mutation.value.functionName && fn.lineno == mutation.value.line
  }

  function MutateFunction(mutation: Option<Mutation>, fn: Function): Function {
    if Selects(mutation, fn) && Substitutable(fn.body)
    then fn.(body := Substitute(fn.body, mutation.value.replacement))
    else fn
  }

  /** Only functions directly in the module body are candidates. */
  function MutateTop(mutation: Option<Mutation>, s: Stmt): Stmt {
    if s.FunctionDef? then FunctionDef(MutateFunction(mutation, s.fn)) else s
  }

  function MutateBlock(mutation: Option<Mutation>, b: seq<Stmt>): (r: seq<Stmt>)
    ensures |r| == |b|
    ensures forall i :: 0 <= i < |b| ==> r[i] == MutateTop(mutation, b[i])
  {
    seq(|b|, i requires 0 <= i < |b| => MutateTop(mutation, b[i]))
  }

  predicate SubstitutesIn(mutation: Option<Mutation>, s: Stmt) {
    s.FunctionDef? && Selects(mutation, s.fn) && Substitutable(s.fn.body)
  }

  predicate AnySubstitutes(mutation: Option<Mutation>, b: seq<Stmt>) {
    exists i :: 0 <= i < |b| && SubstitutesIn(mutation, b[i])
  }

  /** The transformer's result: substitute in the original tree, then probe every function. */
  function InstModule(p: Probes, mutation: Option<Mutation>, m: Module): Module {
    Module(InstBlock(p, MutateBlock(mutation, m.body)))
  }

  // ------------------------------------------------------------------
  // Every function of a block at any nesting, in the order the visitor leaves them

  function FunctionsOfFunction(fn: Function): seq<Function>
    decreases fn, 1
  {
    FunctionsOf(fn.body) + [fn]
  }

  function FunctionsOfStmt(s: Stmt): seq<Function>
    decreases s, 1
  {
    match s
    case If(_, a, b) => FunctionsOf(a) + FunctionsOf(b)
    case While(_, a) => FunctionsOf(a)
    case Try(a, _, h, f) => FunctionsOf(a) + FunctionsOf(h) + FunctionsOf(f)
    case FunctionDef(fn) => FunctionsOfFunction(fn)
    case ClassDef(_, a) => FunctionsOf(a)
    case _ => []
  }

  function FunctionsOf(b: seq<Stmt>): seq<Function>
    decreases b, 0
  {
    if b == [] then [] else FunctionsOfStmt(b[0]) + FunctionsOf(b[1..])
  }

  /** The names of the functions that have no token. */
  function Untokened(p: Probes, fns: seq<Function>): seq<string> {
    if fns == [] then []
    else (if HasToken(p, fns[0]) then [] else [fns[0].name]) + Untokened(p, fns[1..])
  }

  predicate AllTokened(p: Probes, fns: seq<Function>) {
    forall i :: 0 <= i < |fns| ==> HasToken(p, fns[i])
  }

  lemma {:induction false} UntokenedIff(p: Probes, fns: seq<Function>)
    ensures Untokened(p, fns) == [] <==> AllTokened(p, fns)
  {
    if fns != [] {
      UntokenedIff(p, fns[1..]);
      assert AllTokened(p, fns) <==> HasToken(p, fns[0]) && AllTokened(p, fns[1..]) by {
        assert forall i :: 0 < i < |fns| ==> fns[i] == fns[1..][i - 1];
      }
    }
  }

  lemma {:induction false} UntokenedConcat(p: Probes, a: seq<Function>, b: seq<Function>)
    ensures Untokened(p, a + b) == Untokened(p, a) + Untokened(p, b)
  {
    if a == [] {
      assert a + b == b;
    } else {
      assert (a + b)[1..] == a[1..] + b;
      UntokenedConcat(p, a[1..], b);
    }
  }

  lemma {:induction false} FunctionsOfConcat(a: seq<Stmt>, b: seq<Stmt>)
    ensures FunctionsOf(a + b) == FunctionsOf(a) + FunctionsOf(b)
  {
    if a == [] {
      assert a + b == b;
    } else {
      assert (a + b)[1..] == a[1..] + b;
      FunctionsOfConcat(a[1..], b);
    }
  }

  lemma {:induction false} InstBlockConcat(p: Probes, a: seq<Stmt>, b: seq<Stmt>)
    ensures InstBlock(p, a + b) == InstBlock(p, a) + InstBlock(p, b)
  {
    if a == [] {
      assert a + b == b;
    } else {
      assert (a + b)[1..] == a[1..] + b;
      InstBlockConcat(p, a[1..], b);
    }
  }

  lemma {:induction false} InstBlockAt(p: Probes, b: seq<Stmt>, i: nat)
    requires i < |b|
    ensures InstBlock(p, b)[i] == InstStmt(p, b[i])
  {
    if i > 0 { InstBlockAt(p, b[1..], i - 1); }
  }

  // ------------------------------------------------------------------
  // Substituting in a visited body is visiting a substituted body

  lemma {:induction false} ExecutableVisited(p: Probes, body: seq<Stmt>)
    ensures Executable(InstBlock(p, body)) == InstBlock(p, Executable(body))
  {
    if body != [] {
      ExecutableVisited(p, body[1..]);
      assert InstBlock(p, body)[1..] == InstBlock(p, body[1..]);
      var rest := Executable(body[1..]);
      if IsStringStmt(body[0]) {
        assert [] + rest == rest && [] + InstBlock(p, rest) == InstBlock(p, rest);
      } else {
        assert ([body[0]] + rest)[1..] == rest;
      }
    }
  }

  /** A single executable statement is the only one that is not a bare string. */
  lemma {:induction false} ExecutableAt(body: seq<Stmt>, i: nat)
    requires i < |body| && |Executable(body)| == 1 && !IsStringStmt(body[i])
    ensures Executable(body)[0] == body[i]
  {
    if i == 0 {
    } else if IsStringStmt(body[0]) {
      ExecutableAt(body[1..], i - 1);
    } else {
      ExecutableNonempty(body[1..], i - 1);
    }
  }

  lemma {:induction false} ExecutableNonempty(body: seq<Stmt>, i: nat)
    requires i < |body| && !IsStringStmt(body[i])
    ensures |Executable(body)| > 0
  {
    if i > 0 { ExecutableNonempty(body[1..], i - 1); }
  }

  lemma SubstitutableVisited(p: Probes, body: seq<Stmt>)
    ensures Substitutable(InstBlock(p, body)) <==> Substitutable(body)
  {
    ExecutableVisited(p, body);
    if |Executable(body)| == 1 { InstBlockAt(p, Executable(body), 0); }
  }

  lemma MutateVisited(p: Probes, mutation: Option<Mutation>, fn: Function)
    ensures MutateFunction(mutation, fn.(body := InstBlock(p, fn.body)))
         == MutateFunction(mutation, fn).(body := InstBlock(p, MutateFunction(mutation, fn).body))
  {
    SubstitutableVisited(p, fn.body);
    if Selects(mutation, fn) && Substitutable(fn.body) {
      var sub := Substitute(fn.body, mutation.value.replacement);
      var visited := InstBlock(p, fn.body);
      forall i | 0 <= i < |sub|
        ensures InstBlock(p, sub)[i] == Substitute(visited, mutation.value.replacement)[i]
      {
        InstBlockAt(p, sub, i);
        InstBlockAt(p, fn.body, i);
      }
      assert InstBlock(p, sub) == Substitute(visited, mutation.value.replacement);
    }
  }

  // ------------------------------------------------------------------
  // Erasing the probes

  /** Drops the statement where a probe would have been inserted. */
  function RemoveProbe(body: seq<Stmt>): seq<Stmt> {
    if |body| > 1 && IsStringStmt(body[0]) then body[..1] + body[2..]
    else if |body| > 0 then body[1..]
    else []
  }

  function EraseStmt(s: Stmt): Stmt
    decreases s, 1
  {
    match s
    case If(t, a, b) => If(t, EraseBlock(a), EraseBlock(b))
    case While(c, a) => While(c, EraseBlock(a))
    case Try(a, c, h, f) => Try(EraseBlock(a), c, EraseBlock(h), EraseBlock(f))
    case FunctionDef(fn) => FunctionDef(fn.(body := RemoveProbe(EraseBlock(fn.body))))
    case ClassDef(n, a) => ClassDef(n, EraseBlock(a))
    case _ => s
  }

  function EraseBlock(b: seq<Stmt>): (r: seq<Stmt>)
    ensures |r| == |b|
    decreases b, 0
  {
    if b == [] then [] else [EraseStmt(b[0])] + EraseBlock(b[1..])
  }

  lemma {:induction false} EraseBlockConcat(a: seq<Stmt>, b: seq<Stmt>)
    ensures EraseBlock(a + b) == EraseBlock(a) + EraseBlock(b)
  {
    if a == [] {
      assert a + b == b;
    } else {
      assert (a + b)[1..] == a[1..] + b;
      EraseBlockConcat(a[1..], b);
    }
  }

  lemma {:induction false} EraseInstFunction(p: Probes, fn: Function)
    requires AllTokened(p, FunctionsOfFunction(fn))
    ensures RemoveProbe(EraseBlock(InstFunction(p, fn).body)) == fn.body
    decreases fn, 1
  {
    var fns := FunctionsOf(fn.body);
    assert FunctionsOfFunction(fn)[|fns|] == fn;
    assert forall i :: 0 <= i < |fns| ==> fns[i] == FunctionsOfFunction(fn)[i];
    EraseInst(p, fn.body);
    var visited := InstBlock(p, fn.body);
    var i := ProbeIndex(visited);
    var probe := ProbeCall(p[ProbeKey(fn.lineno, fn.name)]);
    EraseInserted(visited, i, probe);
    if |fn.body| > 0 { assert visited[0] == InstStmt(p, fn.body[0]); }
    assert i == ProbeIndex(fn.body);
    RemoveInserted(fn.body, probe);
  }

  lemma EraseInserted(b: seq<Stmt>, i: nat, probe: Stmt)
    requires i <= |b| && EraseStmt(probe) == probe
    ensures EraseBlock(b[..i] + [probe] + b[i..]) == EraseBlock(b)[..i] + [probe] + EraseBlock(b)[i..]
  {
    EraseBlockConcat(b[..i] + [probe], b[i..]);
    EraseBlockConcat(b[..i], [probe]);
    EraseBlockConcat(b[..i], b[i..]);
    assert b[..i] + b[i..] == b;
    assert EraseBlock([probe]) == [probe] by { assert [probe][1..] == []; }
  }

  lemma RemoveInserted(body: seq<Stmt>, probe: Stmt)
    requires !IsStringStmt(probe)
    ensures var i := ProbeIndex(body); RemoveProbe(body[..i] + [probe] + body[i..]) == body
  {
  }

  lemma {:induction false} EraseInstStmt(p: Probes, s: Stmt)
    requires AllTokened(p, FunctionsOfStmt(s))
    ensures EraseStmt(InstStmt(p, s)) == s
    decreases s, 1
  {
    match s
    case If(_, a, b) =>
      TokenedParts(p, FunctionsOf(a), FunctionsOf(b));
      EraseInst(p, a);
      EraseInst(p, b);
    case While(_, a) => EraseInst(p, a);
    case Try(_, _, _, _) => EraseInstTry(p, s);
    case FunctionDef(fn) => EraseInstFunction(p, fn);
    case ClassDef(_, a) => EraseInst(p, a);
    case _ =>
  }

  lemma {:induction false} EraseInstTry(p: Probes, s: Stmt)
    requires s.Try? && AllTokened(p, FunctionsOfStmt(s))
    ensures EraseStmt(InstStmt(p, s)) == s
    decreases s, 0
  {
    TokenedParts(p, FunctionsOf(s.guarded) + FunctionsOf(s.handler), FunctionsOf(s.finalbody));
    TokenedParts(p, FunctionsOf(s.guarded), FunctionsOf(s.handler));
    EraseInst(p, s.guarded);
    EraseInst(p, s.handler);
    EraseInst(p, s.finalbody);
  }

  lemma TokenedParts(p: Probes, a: seq<Function>, b: seq<Function>)
    requires AllTokened(p, a + b)
    ensures AllTokened(p, a) && AllTokened(p, b)
  {
    assert forall i :: 0 <= i < |a| ==> (a + b)[i] == a[i];
    assert forall i :: 0 <= i < |b| ==> (a + b)[|a| + i] == b[i];
  }

  /** Erasing the probes gives back the tree, at any nesting. */
  lemma {:induction false} EraseInst(p: Probes, b: seq<Stmt>)
    requires AllTokened(p, FunctionsOf(b))
    ensures EraseBlock(InstBlock(p, b)) == b
    decreases b, 0
  {
    if b != [] {
      TokenedParts(p, FunctionsOfStmt(b[0]), FunctionsOf(b[1..]));
      EraseInstStmt(p, b[0]);
      EraseInst(p, b[1..]);
      assert InstBlock(p, b)[1..] == InstBlock(p, b[1..]);
    }
  }

  // ------------------------------------------------------------------
  // A substitution changes no function's token

  /** A substitutable body holds no function. */
  lemma {:induction false} NoFunctionsInside(body: seq<Stmt>)
    requires forall i :: 0 <= i < |body| ==> IsStringStmt(body[i]) || body[i].Return?
    ensures FunctionsOf(body) == []
  {
    if body != [] { NoFunctionsInside(body[1..]); }
  }

  lemma MutatedFunctions(mutation: Option<Mutation>, p: Probes, fn: Function)
    ensures Untokened(p, FunctionsOfFunction(MutateFunction(mutation, fn))) == Untokened(p, FunctionsOfFunction(fn))
  {
    if Selects(mutation, fn) && Substitutable(fn.body) {
      forall i | 0 <= i < |fn.body|
        ensures IsStringStmt(fn.body[i]) || fn.body[i].Return?
      {
        if !IsStringStmt(fn.body[i]) { ExecutableAt(fn.body, i); }
      }
      NoFunctionsInside(fn.body);
      NoFunctionsInside(MutateFunction(mutation, fn).body);
      assert HasToken(p, MutateFunction(mutation, fn)) <==> HasToken(p, fn);
    }
  }

  lemma {:induction false} MutatedUntokened(p: Probes, mutation: Option<Mutation>, b: seq<Stmt>)
    ensures Untokened(p, FunctionsOf(MutateBlock(mutation, b))) == Untokened(p, FunctionsOf(b))
  {
    if b != [] {
      MutatedUntokened(p, mutation, b[1..]);
      assert MutateBlock(mutation, b)[1..] == MutateBlock(mutation, b[1..]);
      var s, s' := b[0], MutateTop(mutation, b[0]);
      assert Untokened(p, FunctionsOfStmt(s')) == Untokened(p, FunctionsOfStmt(s)) by {
        if s.FunctionDef? { MutatedFunctions(mutation, p, s.fn); }
      }
      UntokenedConcat(p, FunctionsOfStmt(s), FunctionsOf(b[1..]));
      UntokenedConcat(p, FunctionsOfStmt(s'), FunctionsOf(MutateBlock(mutation, b[1..])));
    }
  }

  lemma MutationKeepsTokens(p: Probes, mutation: Option<Mutation>, b: seq<Stmt>)
    ensures AllTokened(p, FunctionsOf(MutateBlock(mutation, b))) <==> AllTokened(p, FunctionsOf(b))
  {
    MutatedUntokened(p, mutation, b);
    UntokenedIff(p, FunctionsOf(b));
    UntokenedIff(p, FunctionsOf(MutateBlock(mutation, b)));
  }

  // ------------------------------------------------------------------
  // The visitor

  class ModuleInstrumentation {
    const probes: Probes
    const mutation: Option<Mutation>
    var substituted: bool
    var unprobed: seq<string>

    constructor (probes: Probes, mutation: Option<Mutation>)
      ensures this.probes == probes && this.mutation == mutation
      ensures !substituted && unprobed == []
    {
      this.probes, this.mutation := probes, mutation;
      substituted, unprobed := false, [];
    }

    method Probe(node: Function) returns (r: Function)
      modifies this`unprobed
      ensures r == InsertProbe(probes, node)
      ensures unprobed == old(unprobed) + Untokened(probes, [node])
    {
      var key := ProbeKey(node.lineno, node.name);
      if !(key in probes && probes[key].StrConst?) {
        unprobed := unprobed + [node.name];
        return node;
      }
      var index := 0;
      if |node.body| > 1 && IsStringStmt(node.body[0]) {
        index := 1;
      }
      r := node.(body := node.body[..index] + [ProbeCall(probes[key])] + node.body[index..]);
    }

    method VisitFunction(node: Function, topLevel: bool) returns (r: Function)
      modifies this
      ensures topLevel ==> r == InstFunction(probes, MutateFunction(mutation, node))
      ensures !topLevel ==> r == InstFunction(probes, node)
      ensures unprobed == old(unprobed) + Untokened(probes, FunctionsOfFunction(node))
      ensures substituted == (old(substituted) || (topLevel && SubstitutesIn(mutation, FunctionDef(node))))
      decreases node, 1
    {
      var body := VisitBlock(node.body);
      r := node.(body := body);
      if topLevel {
        r := SubstituteScalar(node, r);
      }
      SameToken(probes, r, node);
      r := Probe(r);
      UntokenedConcat(probes, FunctionsOf(node.body), [node]);
      ConcatAssoc(old(unprobed), Untokened(probes, FunctionsOf(node.body)), Untokened(probes, [node]));
    }

    /** The declared scalar return, replaced in a body that has been visited. */
    method SubstituteScalar(node: Function, visited: Function) returns (r: Function)
      requires visited == node.(body := InstBlock(probes, node.body))
      modifies this`substituted
      ensures r == MutateFunction(mutation, node).(body := InstBlock(probes, MutateFunction(mutation, node).body))
      ensures substituted == (old(substituted) || SubstitutesIn(mutation, FunctionDef(node)))
    {
      MutateVisited(probes, mutation, node);
      SubstitutableVisited(probes, node.body);
      r := visited;
      if mutation.Some? && !node.isAsync
         && node.name == mutation.value.functionName && node.lineno == mutation.value.line {
        var executable := Executable(r.body);
        if |executable| == 1 && IsConstantReturn(executable[0]) {
          r := r.(body := Substitute(r.body, mutation.value.replacement));
          substituted := true;
        }
      }
    }

    method VisitStmt(s: Stmt) returns (r: Stmt)
      modifies this
      ensures r == InstStmt(probes, s)
      ensures unprobed == old(unprobed) + Untokened(probes, FunctionsOfStmt(s))
      ensures substituted == old(substituted)
      decreases s, 1
    {
      match s
      case If(_, _, _) =>
        r := VisitIf(s);
      case While(c, a) =>
        var a' := VisitBlock(a);
        r := While(c, a');
      case Try(_, _, _, _) =>
        r := VisitTry(s);
      case FunctionDef(fn) =>
        var fn' := VisitFunction(fn, false);
        r := FunctionDef(fn');
      case ClassDef(n, a) =>
        var a' := VisitBlock(a);
        r := ClassDef(n, a');
      case _ =>
        r := s;
    }

    method VisitIf(s: Stmt) returns (r: Stmt)
      requires s.If?
      modifies this
      ensures r == InstStmt(probes, s)
      ensures unprobed == old(unprobed) + Untokened(probes, FunctionsOfStmt(s))
      ensures substituted == old(substituted)
      decreases s, 0
    {
      ghost var before, u := unprobed, Untokened(probes, FunctionsOf(s.body));
      ghost var v := Untokened(probes, FunctionsOf(s.orelse));
      var body := VisitBlock(s.body);
      var orelse := VisitBlock(s.orelse);
      ConcatAssoc(before, u, v);
      UntokenedConcat(probes, FunctionsOf(s.body), FunctionsOf(s.orelse));
      r := If(s.test, body, orelse);
    }

    method VisitTry(s: Stmt) returns (r: Stmt)
      requires s.Try?
      modifies this
      ensures r == InstStmt(probes, s)
      ensures unprobed == old(unprobed) + Untokened(probes, FunctionsOfStmt(s))
      ensures substituted == old(substituted)
      decreases s, 0
    {
      ghost var before, u, v, w := unprobed, Untokened(probes, FunctionsOf(s.guarded)),
        Untokened(probes, FunctionsOf(s.handler)), Untokened(probes, FunctionsOf(s.finalbody));
      var guarded := VisitBlock(s.guarded);
      var handler := VisitBlock(s.handler);
      var finalbody := VisitBlock(s.finalbody);
      ConcatAssoc(before, u, v);
      ConcatAssoc(before, u + v, w);
      UntokenedConcat(probes, FunctionsOf(s.guarded) + FunctionsOf(s.handler), FunctionsOf(s.finalbody));
      UntokenedConcat(probes, FunctionsOf(s.guarded), FunctionsOf(s.handler));
      r := Try(guarded, s.catches, handler, finalbody);
    }

    /** The generic visit of a statement list. */
    method VisitBlock(b: seq<Stmt>) returns (r: seq<Stmt>)
      modifies this
      ensures r == InstBlock(probes, b)
      ensures unprobed == old(unprobed) + Untokened(probes, FunctionsOf(b))
      ensures substituted == old(substituted)
      decreases b, 0
    {
      r := [];
      var index := 0;
      while index < |b|
        invariant 0 <= index <= |b|
        invariant r == InstBlock(probes, b[..index])
        invariant unprobed == old(unprobed) + Untokened(probes, FunctionsOf(b[..index]))
        invariant substituted == old(substituted)
      {
        Extend(probes, b, index);
        ConcatAssoc(old(unprobed), Untokened(probes, FunctionsOf(b[..index])),
                    Untokened(probes, FunctionsOfStmt(b[index])));
        var s := VisitStmt(b[index]);
        r := r + [s];
        index := index + 1;
      }
      assert b[..index] == b;
    }

    method VisitMember(statement: Stmt) returns (r: Stmt)
      modifies this
      ensures r == InstStmt(probes, MutateTop(mutation, statement))
      ensures unprobed == old(unprobed) + Untokened(probes, FunctionsOfStmt(statement))
      ensures substituted <==> old(substituted) || SubstitutesIn(mutation, statement)
    {
      if statement.FunctionDef? {
        var fn := VisitFunction(statement.fn, true);
        r := FunctionDef(fn);
      } else {
        r := VisitStmt(statement);
      }
    }

    /** `visit_Module`: only direct members can be the declared function. */
    method VisitModule(m: Module) returns (r: Module)
      modifies this
      ensures r == InstModule(probes, mutation, m)
      ensures unprobed == old(unprobed) + Untokened(probes, FunctionsOf(m.body))
      ensures substituted <==> old(substituted) || AnySubstitutes(mutation, m.body)
    {
      var body := [];
      var index := 0;
      while index < |m.body|
        invariant 0 <= index <= |m.body|
        invariant body == InstBlock(probes, MutateBlock(mutation, m.body[..index]))
        invariant unprobed == old(unprobed) + Untokened(probes, FunctionsOf(m.body[..index]))
        invariant substituted <==> old(substituted) || AnySubstitutes(mutation, m.body[..index])
      {
        Extend(probes, m.body, index);
        ExtendMutated(probes, mutation, m.body, index);
        AnyExtends(mutation, m.body, index);
        ConcatAssoc(old(unprobed), Untokened(probes, FunctionsOf(m.body[..index])),
                    Untokened(probes, FunctionsOfStmt(m.body[index])));
        var s := VisitMember(m.body[index]);
        body := body + [s];
        index := index + 1;
      }
      assert m.body[..index] == m.body;
      r := Module(body);
    }
  }

  lemma SameToken(p: Probes, a: Function, b: Function)
    requires a.name == b.name && a.lineno == b.lineno
    ensures Untokened(p, [a]) == Untokened(p, [b])
  {
    assert [a][1..] == [] && [b][1..] == [];
  }

  lemma AnyExtends(mutation: Option<Mutation>, b: seq<Stmt>, index: nat)
    requires index < |b|
    ensures AnySubstitutes(mutation, b[..index + 1])
       <==> AnySubstitutes(mutation, b[..index]) || SubstitutesIn(mutation, b[index])
  {
    assert forall i :: 0 <= i < index ==> b[..index + 1][i] == b[..index][i];
    assert b[..index + 1][index] == b[index];
  }

  lemma ExtendMutated(p: Probes, mutation: Option<Mutation>, b: seq<Stmt>, index: nat)
    requires index < |b|
    ensures InstBlock(p, MutateBlock(mutation, b[..index + 1]))
         == InstBlock(p, MutateBlock(mutation, b[..index])) + [InstStmt(p, MutateTop(mutation, b[index]))]
  {
    Extend(p, MutateBlock(mutation, b), index);
    assert MutateBlock(mutation, b[..index]) == MutateBlock(mutation, b)[..index];
    assert MutateBlock(mutation, b[..index + 1]) == MutateBlock(mutation, b)[..index + 1];
  }

  lemma Extend(p: Probes, b: seq<Stmt>, index: nat)
    requires index < |b|
    ensures InstBlock(p, b[..index + 1]) == InstBlock(p, b[..index]) + [InstStmt(p, b[index])]
    ensures Untokened(p, FunctionsOf(b[..index + 1]))
         == Untokened(p, FunctionsOf(b[..index])) + Untokened(p, FunctionsOfStmt(b[index]))
  {
    assert b[..index + 1] == b[..index] + [b[index]];
    InstBlockConcat(p, b[..index], [b[index]]);
    FunctionsOfConcat(b[..index], [b[index]]);
    assert FunctionsOf([b[index]]) == FunctionsOfStmt(b[index]);
    UntokenedConcat(p, FunctionsOf(b[..index]), FunctionsOfStmt(b[index]));
  }
}
