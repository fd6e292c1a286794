/**
 The pytest entry's own scalar-return falsifier, and its agreement with the
 stestr observer's transformer.
 */
module ScalarFault {
  import opened Common
  import opened PyAst
  import opened PyEval
  import opened Instrumentation
  import opened InstrumentationMeaning
  import opened Directive

  /** Positions of the accepted function in the module and of its return in the body. */
  datatype Selection = Selection(fnAt: nat, returnAt: nat)

  /** The positions at which the module body defines the name. */
  function Definitions(body: seq<Stmt>, name: string): (r: seq<nat>)
    ensures forall k :: 0 <= k < |r| ==> r[k] < |body| && body[r[k]].FunctionDef? && body[r[k]].fn.name == name
    ensures forall k, l :: 0 <= k < l < |r| ==> r[k] < r[l]
    ensures forall i :: 0 <= i < |body| && body[i].FunctionDef? && body[i].fn.name == name ==> i in r
  {
    if body == [] then [] else
    var n := |body| - 1;
    Definitions(body[..n], name) + (if body[n].FunctionDef? && body[n].fn.name == name then [n] else [])
  }

  predicate IsScalar(c: Const) {
    !c.OtherConst?
  }

  function ReturnAt(body: seq<Stmt>): nat {
    if |body| > 1 && IsStringStmt(body[0]) then 1 else 0
  }

  /** `_eligible_function`: which function is accepted, or why none is. */
  function Eligible(m: Module, name: string, replacement: Const): (r: Result<Selection, string>)
    ensures r.Ok? ==>
      && r.value.fnAt < |m.body| && m.body[r.value.fnAt].FunctionDef?
      && (forall i :: 0 <= i < |m.body| && m.body[i].FunctionDef? && m.body[i].fn.name == name ==> i == r.value.fnAt)
      && var fn := m.body[r.value.fnAt].fn;
         && fn.name == name && !fn.isAsync && fn.decorators == []
         && |fn.body| == r.value.returnAt + 1 && r.value.returnAt <= 1
         && (r.value.returnAt == 1 ==> IsStringStmt(fn.body[0]))
         && IsConstantReturn(fn.body[r.value.returnAt])
         && IsScalar(fn.body[r.value.returnAt].result.value.value)
         && fn.body[r.value.returnAt].result.value.value != replacement
  {
    var matches := Definitions(m.body, name);
    if matches == [] then Fail("function_absent")
    else if |matches| != 1 then Fail("function_not_unique")
    else Judge(m.body[matches[0]].fn, matches[0], replacement)
  }

  /** What is asked of the only function of the name. */
  function Judge(fn: Function, fnAt: nat, replacement: Const): (r: Result<Selection, string>)
    ensures r.Ok? ==>
      && r.value.fnAt == fnAt && !fn.isAsync && fn.decorators == []
      && |fn.body| == r.value.returnAt + 1 && r.value.returnAt <= 1
      && (r.value.returnAt == 1 ==> IsStringStmt(fn.body[0]))
      && IsConstantReturn(fn.body[r.value.returnAt])
      && IsScalar(fn.body[r.value.returnAt].result.value.value)
      && fn.body[r.value.returnAt].result.value.value != replacement
  {
    var at := ReturnAt(fn.body);
    if fn.isAsync then Fail("async_function_unsupported")
    else if fn.decorators != [] then Fail("decorated_function_unsupported")
    else if |fn.body| - at != 1 || !IsConstantReturn(fn.body[at]) then Fail("body_not_single_scalar_return")
    else
      var original := fn.body[at].result.value.value;
      if !IsScalar(original) then Fail("return_not_scalar")
      else if original == replacement then Fail("replacement_not_distinct")
      else Ok(Selection(fnAt, at))
  }

  predicate Selected(m: Module, sel: Selection) {
    && sel.fnAt < |m.body| && m.body[sel.fnAt].FunctionDef?
    && sel.returnAt < |m.body[sel.fnAt].fn.body|
  }

  /** The tree that is compiled: one return statement's constant replaced in place. */
  function MutatedTree(m: Module, sel: Selection, replacement: Const): Module
    requires Selected(m, sel)
  {
    var fn := m.body[sel.fnAt].fn;
    Module(m.body[sel.fnAt := FunctionDef(fn.(body := fn.body[sel.returnAt := Return(Some(Constant(replacement)))]))])
  }

  /** Accepted bodies are substitutable in the sense of the other transformer, with the same result. */
  lemma AcceptedBody(body: seq<Stmt>, replacement: Const)
    requires var at := ReturnAt(body); |body| == at + 1 && IsConstantReturn(body[at])
    ensures Substitutable(body)
    ensures Substitute(body, replacement) == body[ReturnAt(body) := Return(Some(Constant(replacement)))]
  {
    if ReturnAt(body) == 1 {
      assert body[1..][1..] == [];
      assert Executable(body[1..]) == [body[1]] + Executable(body[1..][1..]);
      assert Executable(body) == [] + Executable(body[1..]);
    } else {
      assert body[1..] == [];
      assert Executable(body) == [body[0]] + [];
    }
  }

  /**
   Whenever the pytest falsifier accepts a function, the stestr transformer
   given that function's name, line and replacement substitutes too, makes the
   same tree, and erasing its probes yields exactly that tree.
   */
  lemma FalsifiersAgree(p: Probes, m: Module, name: string, replacement: Const)
    requires Eligible(m, name, replacement).Ok?
    ensures var sel := Eligible(m, name, replacement).value;
            var mutation := Some(Mutation(name, m.body[sel.fnAt].fn.lineno, replacement));
            && AnySubstitutes(mutation, m.body)
            && MutateBlock(mutation, m.body) == MutatedTree(m, sel, replacement).body
            && (AllTokened(p, FunctionsOf(m.body)) ==>
                  EraseBlock(InstModule(p, mutation, m).body) == MutatedTree(m, sel, replacement).body)
  {
    var sel := Eligible(m, name, replacement).value;
    var fn := m.body[sel.fnAt].fn;
    var mutation := Some(Mutation(name, fn.lineno, replacement));
    AcceptedBody(fn.body, replacement);
    assert SubstitutesIn(mutation, m.body[sel.fnAt]);
    var tree := MutatedTree(m, sel, replacement).body;
    forall i | 0 <= i < |m.body|
      ensures MutateBlock(mutation, m.body)[i] == tree[i]
    {
      assert m.body[i].FunctionDef? && m.body[i].fn.name == name ==> i in Definitions(m.body, name);
    }
    assert MutateBlock(mutation, m.body) == tree;
    if AllTokened(p, FunctionsOf(m.body)) {
      MutationKeepsTokens(p, mutation, m.body);
      EraseInst(p, tree);
    }
  }

  /** The two falsified runs: one is the picture of the other, token by token. */
  lemma FalsifiedRunsAgree(
    p: Probes, docs: bool, m: Module, name: string, replacement: Const, machine: Machine, fuel: nat)
    requires Eligible(m, name, replacement).Ok?
    requires CleanBlock(p, docs, MutatedTree(m, Eligible(m, name, replacement).value, replacement).body)
    requires var tree := MutatedTree(m, Eligible(m, name, replacement).value, replacement);
             AllReach(RunModule(machine, fuel, tree).1.trace)
    ensures var sel := Eligible(m, name, replacement).value;
            var mutation := Some(Mutation(name, m.body[sel.fnAt].fn.lineno, replacement));
            var (o, st) := RunModule(machine, fuel, MutatedTree(m, sel, replacement));
            RunModule(machine, fuel, InstModule(p, mutation, m)) == (InstOutcome(p, o), InstState(p, st))
  {
    var sel := Eligible(m, name, replacement).value;
    var mutation := Some(Mutation(name, m.body[sel.fnAt].fn.lineno, replacement));
    FalsifiersAgree(p, m, name, replacement);
    assert Module(MutateBlock(mutation, m.body)) == MutatedTree(m, sel, replacement);
    MeaningPreserved(p, docs, mutation, machine, fuel, m);
  }

  /** The body is the return, optionally after one docstring. */
  predicate ReturnsOnly(body: seq<Stmt>) {
    || (|body| == 1 && IsConstantReturn(body[0]))
    || (|body| == 2 && IsStringStmt(body[0]) && IsConstantReturn(body[1]))
  }

  /** The function at this position is the only one of its name in the module body. */
  predicate OnlyDefinition(body: seq<Stmt>, at: nat, name: string) {
    forall i :: 0 <= i < |body| && body[i].FunctionDef? && body[i].fn.name == name ==> i == at
  }

  lemma OneDefinition(body: seq<Stmt>, at: nat, name: string)
    requires at < |body| && body[at].FunctionDef? && body[at].fn.name == name
    ensures |Definitions(body, name)| == 1 <==> OnlyDefinition(body, at, name)
    ensures OnlyDefinition(body, at, name) ==> Definitions(body, name) == [at]
  {
    var found := Definitions(body, name);
    assert at in found;
    assert |found| > 1 ==> found[0] < found[1];
    if |found| == 1 {
      forall i | 0 <= i < |body| && body[i].FunctionDef? && body[i].fn.name == name
        ensures i == at
      {
        assert i in found;
      }
    }
  }

  /** The verdict on one function, the first reason first. */
  ghost predicate Verdict(fn: Function, at: nat, replacement: Const, r: Result<Selection, string>) {
    if fn.isAsync then r == Fail("async_function_unsupported")
    else if fn.decorators != [] then r == Fail("decorated_function_unsupported")
    else if !ReturnsOnly(fn.body) then r == Fail("body_not_single_scalar_return")
    else
      var c := fn.body[|fn.body| - 1].result.value.value;
      if !(c.NoneConst? || c.BoolConst? || c.IntConst? || c.FloatConst? || c.StrConst?)
      then r == Fail("return_not_scalar")
      else if c == replacement then r == Fail("replacement_not_distinct")
      else r == Ok(Selection(at, |fn.body| - 1))
  }

  lemma JudgeIsVerdict(fn: Function, at: nat, replacement: Const)
    ensures Verdict(fn, at, replacement, Judge(fn, at, replacement))
  {
  }

  /** Why a function is refused; `at` is some definition of the name. */
  lemma RefusedBecause(m: Module, name: string, replacement: Const, at: nat)
    requires at < |m.body| && m.body[at].FunctionDef? && m.body[at].fn.name == name
    ensures if !OnlyDefinition(m.body, at, name) then Eligible(m, name, replacement) == Fail("function_not_unique")
            else Verdict(m.body[at].fn, at, replacement, Eligible(m, name, replacement))
  {
    OneDefinition(m.body, at, name);
    JudgeIsVerdict(m.body[at].fn, at, replacement);
  }

  /**
   The converse, exactly: of the functions the transformer substitutes, the
   falsifier accepts those that are the only definition of their name,
   undecorated, return after at most one docstring, and return a scalar other
   than the replacement.
   */
  lemma AgreementExactly(m: Module, at: nat, replacement: Const)
    requires at < |m.body| && m.body[at].FunctionDef?
    requires SubstitutesIn(Some(Mutation(m.body[at].fn.name, m.body[at].fn.lineno, replacement)), m.body[at])
    ensures var fn := m.body[at].fn;
            Eligible(m, fn.name, replacement).Ok?
            <==> && OnlyDefinition(m.body, at, fn.name) && fn.decorators == [] && ReturnsOnly(fn.body)
                 && var c := fn.body[|fn.body| - 1].result.value.value;
                    (c.NoneConst? || c.BoolConst? || c.IntConst? || c.FloatConst? || c.StrConst?) && c != replacement
  {
    RefusedBecause(m, m.body[at].fn.name, replacement, at);
  }

  lemma {:induction false} NoDefinitions(body: seq<Stmt>, name: string)
    requires forall i :: 0 <= i < |body| ==> !(body[i].FunctionDef? && body[i].fn.name == name)
    ensures Definitions(body, name) == []
  {
    if body != [] {
      var n := |body| - 1;
      assert forall i :: 0 <= i < n ==> body[..n][i] == body[i];
      NoDefinitions(body[..n], name);
    }
  }

  lemma RefusedAsAbsent(m: Module, name: string, replacement: Const)
    requires forall i :: 0 <= i < |m.body| ==> !(m.body[i].FunctionDef? && m.body[i].fn.name == name)
    ensures Eligible(m, name, replacement) == Fail("function_absent")
  {
    NoDefinitions(m.body, name);
  }

  /** The converse fails: a decorated function is substituted by one and refused by the other. */
  lemma InstrumentationAcceptsMore()
    ensures var fn := Function(false, 1, "f", [], [Name("d")], [Return(Some(Constant(IntConst(1))))]);
            var m := Module([FunctionDef(fn)]);
            && AnySubstitutes(Some(Mutation("f", 1, IntConst(2))), m.body)
            && Eligible(m, "f", IntConst(2)) == Fail("decorated_function_unsupported")
  {
    var fn := Function(false, 1, "f", [], [Name("d")], [Return(Some(Constant(IntConst(1))))]);
    var m := Module([FunctionDef(fn)]);
    AcceptedBody(fn.body, IntConst(2));
    assert SubstitutesIn(Some(Mutation("f", 1, IntConst(2))), m.body[0]);
    assert m.body[..0] == [];
    assert Definitions(m.body, "f") == [] + [0];
  }

  // ------------------------------------------------------------------
  // A tree is its constants and everything else

  function ConstantsOfExpr(e: Expr): seq<Const>
    decreases e, 1
  {
    match e
    case Constant(c) => [c]
    case Name(_) => []
    case Attribute(o, _) => ConstantsOfExpr(o)
    case BinOp(_, a, b) => ConstantsOfExpr(a) + ConstantsOfExpr(b)
    case Call(f, args) => ConstantsOfExpr(f) + ConstantsOfExprs(args)
  }

  function ConstantsOfExprs(es: seq<Expr>): seq<Const>
    decreases es, 0
  {
    if es == [] then [] else ConstantsOfExpr(es[0]) + ConstantsOfExprs(es[1..])
  }

  function ConstantsOfStmt(s: Stmt): seq<Const>
    decreases s, 1
  {
    match s
    case ExprStmt(e) => ConstantsOfExpr(e)
    case Assign(_, e) => ConstantsOfExpr(e)
    case Return(r) => if r.Some? then ConstantsOfExpr(r.value) else []
    case Raise(e) => ConstantsOfExpr(e)
    case If(t, a, b) => ConstantsOfExpr(t) + ConstantsOf(a) + ConstantsOf(b)
    case While(c, a) => ConstantsOfExpr(c) + ConstantsOf(a)
    case Try(a, _, h, f) => ConstantsOf(a) + ConstantsOf(h) + ConstantsOf(f)
    case FunctionDef(fn) => ConstantsOfExprs(fn.decorators) + ConstantsOf(fn.body)
    case ClassDef(_, a) => ConstantsOf(a)
  }

  /** Every constant of a block, in source order. */
  function ConstantsOf(b: seq<Stmt>): seq<Const>
    decreases b, 0
  {
    if b == [] then [] else ConstantsOfStmt(b[0]) + ConstantsOf(b[1..])
  }

  function ShapeOfExpr(e: Expr): Expr
    decreases e, 1
  {
    match e
    case Constant(_) => Constant(NoneConst)
    case Name(_) => e
    case Attribute(o, a) => Attribute(ShapeOfExpr(o), a)
    case BinOp(op, a, b) => BinOp(op, ShapeOfExpr(a), ShapeOfExpr(b))
    case Call(f, args) => Call(ShapeOfExpr(f), ShapeOfExprs(args))
  }

  function ShapeOfExprs(es: seq<Expr>): seq<Expr>
    decreases es, 0
  {
    if es == [] then [] else [ShapeOfExpr(es[0])] + ShapeOfExprs(es[1..])
  }

  function ShapeOfStmt(s: Stmt): Stmt
    decreases s, 1
  {
    match s
    case ExprStmt(e) => ExprStmt(ShapeOfExpr(e))
    case Assign(t, e) => Assign(t, ShapeOfExpr(e))
    case Return(r) => Return(if r.Some? then Some(ShapeOfExpr(r.value)) else None)
    case Raise(e) => Raise(ShapeOfExpr(e))
    case If(t, a, b) => If(ShapeOfExpr(t), ShapeOf(a), ShapeOf(b))
    case While(c, a) => While(ShapeOfExpr(c), ShapeOf(a))
    case Try(a, c, h, f) => Try(ShapeOf(a), c, ShapeOf(h), ShapeOf(f))
    case FunctionDef(fn) => FunctionDef(fn.(decorators := ShapeOfExprs(fn.decorators), body := ShapeOf(fn.body)))
    case ClassDef(n, a) => ClassDef(n, ShapeOf(a))
  }

  /** The block with its constants blanked out. */
  function ShapeOf(b: seq<Stmt>): seq<Stmt>
    decreases b, 0
  {
    if b == [] then [] else [ShapeOfStmt(b[0])] + ShapeOf(b[1..])
  }

  lemma {:induction false} ConstantsConcat(a: seq<Stmt>, b: seq<Stmt>)
    ensures ConstantsOf(a + b) == ConstantsOf(a) + ConstantsOf(b)
  {
    if a == [] {
      assert a + b == b;
    } else {
      assert (a + b)[1..] == a[1..] + b;
      ConstantsConcat(a[1..], b);
      ConcatAssoc(ConstantsOfStmt(a[0]), ConstantsOf(a[1..]), ConstantsOf(b));
    }
  }

  /** A block's constants are those before statement i, its own, and those after it. */
  lemma ConstantsAround(b: seq<Stmt>, i: nat)
    requires i < |b|
    ensures ConstantsOf(b) == ConstantsOf(b[..i]) + ConstantsOfStmt(b[i]) + ConstantsOf(b[i + 1..])
  {
    var one := [b[i]];
    SplitAt(b, i);
    ConstantsConcat(b[..i], one + b[i + 1..]);
    ConstantsConcat(one, b[i + 1..]);
    ConstantsOfOne(b[i]);
    ConcatAssoc(ConstantsOf(b[..i]), ConstantsOfStmt(b[i]), ConstantsOf(b[i + 1..]));
  }

  lemma SplitAt<T>(s: seq<T>, i: nat)
    requires i < |s|
    ensures s == s[..i] + ([s[i]] + s[i + 1..])
  {
  }

  lemma ConstantsOfOne(s: Stmt)
    ensures ConstantsOf([s]) == ConstantsOfStmt(s)
  {
    assert [s][1..] == [];
    assert ConstantsOf([s]) == ConstantsOfStmt(s) + ConstantsOf([s][1..]);
  }

  lemma ConstantsReplaced(b: seq<Stmt>, i: nat, s: Stmt)
    requires i < |b|
    ensures ConstantsOf(b[i := s]) == ConstantsOf(b[..i]) + ConstantsOfStmt(s) + ConstantsOf(b[i + 1..])
  {
    ConstantsAround(b[i := s], i);
    assert b[i := s][..i] == b[..i] && b[i := s][i + 1..] == b[i + 1..];
  }

  lemma {:induction false} ShapeReplaced(b: seq<Stmt>, i: nat, s: Stmt)
    requires i < |b| && ShapeOfStmt(s) == ShapeOfStmt(b[i])
    ensures ShapeOf(b[i := s]) == ShapeOf(b)
  {
    if i == 0 {
      assert b[i := s][1..] == b[1..];
    } else {
      assert b[i := s][1..] == b[1..][i - 1 := s];
      ShapeReplaced(b[1..], i - 1, s);
    }
  }

  /** One return's constant, inside its undecorated function. */
  lemma FunctionReplaced(fn: Function, i: nat, replacement: Const)
    requires fn.decorators == [] && i < |fn.body| && IsConstantReturn(fn.body[i])
    ensures var ret := Return(Some(Constant(replacement)));
            var fn' := fn.(body := fn.body[i := ret]);
            var before, after := ConstantsOf(fn.body[..i]), ConstantsOf(fn.body[i + 1..]);
            && ConstantsOfStmt(FunctionDef(fn)) == before + [fn.body[i].result.value.value] + after
            && ConstantsOfStmt(FunctionDef(fn')) == before + [replacement] + after
            && ShapeOfStmt(FunctionDef(fn')) == ShapeOfStmt(FunctionDef(fn))
  {
    var ret := Return(Some(Constant(replacement)));
    ConstantsAround(fn.body, i);
    ConstantsReplaced(fn.body, i, ret);
    ShapeReplaced(fn.body, i, ret);
    assert ConstantsOfExprs(fn.decorators) == [];
  }

  /** The falsified tree differs from the original in exactly one constant. */
  lemma OneConstantDiffers(m: Module, name: string, replacement: Const) returns (k: nat)
    requires Eligible(m, name, replacement).Ok?
    ensures var tree := MutatedTree(m, Eligible(m, name, replacement).value, replacement);
            && ShapeOf(tree.body) == ShapeOf(m.body)
            && k < |ConstantsOf(m.body)|
            && ConstantsOf(m.body)[k] != replacement
            && ConstantsOf(tree.body) == ConstantsOf(m.body)[k := replacement]
  {
    var sel := Eligible(m, name, replacement).value;
    k := ReplacedOnce(m.body, sel.fnAt, sel.returnAt, replacement);
  }

  lemma ReplacedOnce(b: seq<Stmt>, at: nat, i: nat, replacement: Const) returns (k: nat)
    requires at < |b| && b[at].FunctionDef? && b[at].fn.decorators == []
    requires i < |b[at].fn.body| && IsConstantReturn(b[at].fn.body[i])
    ensures var fn := b[at].fn;
            var b' := b[at := FunctionDef(fn.(body := fn.body[i := Return(Some(Constant(replacement)))]))];
            && ShapeOf(b') == ShapeOf(b)
            && k < |ConstantsOf(b)| && ConstantsOf(b)[k] == fn.body[i].result.value.value
            && ConstantsOf(b') == ConstantsOf(b)[k := replacement]
  {
    var fn := b[at].fn;
    var s := FunctionDef(fn.(body := fn.body[i := Return(Some(Constant(replacement)))]));
    FunctionReplaced(fn, i, replacement);
    ConstantsAround(b, at);
    ConstantsReplaced(b, at, s);
    ShapeReplaced(b, at, s);
    k := Spliced(ConstantsOf(b[..at]), ConstantsOf(fn.body[..i]), fn.body[i].result.value.value, replacement,
                 ConstantsOf(fn.body[i + 1..]), ConstantsOf(b[at + 1..]));
  }

  lemma Spliced<T>(a: seq<T>, b: seq<T>, x: T, y: T, c: seq<T>, d: seq<T>) returns (k: nat)
    ensures var s := a + (b + [x] + c) + d;
            k < |s| && s[k] == x && a + (b + [y] + c) + d == s[k := y]
  {
    k := |a| + |b|;
  }

  // ------------------------------------------------------------------
  // The falsifier's status

  datatype Status = NotImported | Unsupported(reason: string) | Applied

  class ScalarReturnFault {
    const functionName: string
    const replacement: Const
    const parse: Bytes -> Option<Module>
    const digest: Bytes -> string
    var status: Status
    var original: Const
    var lineno: Option<nat>
    var sourceDigest: Option<string>
    var compilations: nat

    constructor (functionName: string, replacement: Const, parse: Bytes -> Option<Module>, digest: Bytes -> string)
      ensures this.functionName == functionName && this.replacement == replacement
      ensures this.parse == parse && this.digest == digest
      ensures status == NotImported && lineno == None && sourceDigest == None && compilations == 0
    {
      this.functionName, this.replacement, this.parse, this.digest := functionName, replacement, parse, digest;
      status, original, lineno, sourceDigest, compilations := NotImported, NoneConst, None, None, 0;
    }

    /** The falsifier holds what it read from this source. */
    ghost predicate Accepted(source: Bytes)
      reads this
    {
      && sourceDigest == Some(digest(source))
      && IsScalar(replacement)
      && parse(source).Some?
      && Eligible(parse(source).value, functionName, replacement).Ok?
      && var sel := Eligible(parse(source).value, functionName, replacement).value;
         var fn := parse(source).value.body[sel.fnAt].fn;
         && lineno == Some(fn.lineno)
         && original == fn.body[sel.returnAt].result.value.value
    }

    /** `prevalidate`; None stands for a source that cannot be read. */
    method Prevalidate(source: Option<Bytes>) returns (ok: bool)
      modifies this
      ensures ok ==> source.Some? && Accepted(source.value) && status == old(status)
      ensures source.None? ==> status == Unsupported("module_source_absent")
      ensures source.Some? && !IsScalar(replacement) ==> status == Unsupported("replacement_not_scalar")
      ensures source.Some? && IsScalar(replacement) && parse(source.value).None? ==>
        status == Unsupported("module_source_unparsable")
      ensures source.Some? && IsScalar(replacement) && parse(source.value).Some? && !ok ==>
        && Eligible(parse(source.value).value, functionName, replacement).Fail?
        && status == Unsupported(Eligible(parse(source.value).value, functionName, replacement).error)
      ensures ok <==> source.Some? && IsScalar(replacement) && parse(source.value).Some?
                      && Eligible(parse(source.value).value, functionName, replacement).Ok?
      ensures compilations == old(compilations)
    {
      if source.None? {
        status := Unsupported("module_source_absent");
        return false;
      }
      sourceDigest := Some(digest(source.value));
      if !IsScalar(replacement) {
        status := Unsupported("replacement_not_scalar");
        return false;
      }
      var tree := parse(source.value);
      if tree.None? {
        status := Unsupported("module_source_unparsable");
        return false;
      }
      var selected := Eligible(tree.value, functionName, replacement);
      if selected.Fail? {
        status := Unsupported(selected.error);
        return false;
      }
      var fn := tree.value.body[selected.value.fnAt].fn;
      original := fn.body[selected.value.returnAt].result.value.value;
      lineno := Some(fn.lineno);
      return true;
    }

    /**
     `compile_mutated`; None stands for SyntaxError. After an accepted
     prevalidation the only refusal left is a moved source, as long as the two
     sources do not collide under the digest.
     */
    method CompileMutated(source: Bytes, ghost accepted: Bytes) returns (code: Option<Module>)
      modifies this`status, this`compilations
      ensures Some(digest(source)) != sourceDigest ==>
        && status == Unsupported("module_source_moved") && compilations == old(compilations)
        && code == parse(source)
      ensures old(Accepted(accepted)) && source == accepted ==>
        && Accepted(accepted) && status == Applied && compilations == old(compilations) + 1
        && code == Some(MutatedTree(parse(accepted).value,
                                    Eligible(parse(accepted).value, functionName, replacement).value, replacement))
      ensures old(Accepted(accepted)) && (digest(source) == digest(accepted) ==> source == accepted) ==>
        status == Applied || status == Unsupported("module_source_moved")
    {
      if Some(digest(source)) != sourceDigest {
        status := Unsupported("module_source_moved");
        return parse(source);
      }
      var tree := parse(source);
      if tree.None? {
        return None;
      }
      var selected := Eligible(tree.value, functionName, replacement);
      if selected.Fail? {
        status := Unsupported(selected.error);
        return tree;
      }
      compilations := compilations + 1;
      status := Applied;
      return Some(MutatedTree(tree.value, selected.value, replacement));
    }
  }
}
