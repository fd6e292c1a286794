/**
 The part of Python's abstract syntax that the two source transformers look at:
 modules, (possibly nested, possibly async) functions, classes, branching,
 loops, exception handling, and constant, name, attribute, operator and call
 expressions. Expressions contain no function bodies.
 */
module PyAst {
  import opened Common

  datatype Const =
    | NoneConst
    | BoolConst(b: bool)
    | IntConst(i: int)
    | FloatConst(r: real)
    | StrConst(s: string)
    | OtherConst(tag: string)  // bytes, complex, Ellipsis

  datatype Expr =
    | Constant(value: Const)
    | Name(id: string)
    | Attribute(object: Expr, attr: string)
    | BinOp(op: string, left: Expr, right: Expr)
    | Call(func: Expr, args: seq<Expr>)

  datatype Function = Function(
    isAsync: bool,
    lineno: nat,
    name: string,
    params: seq<string>,
    decorators: seq<Expr>,
    body: seq<Stmt>)

  datatype Stmt =
    | ExprStmt(value: Expr)
    | Assign(target: string, rhs: Expr)
    | Return(result: Option<Expr>)
    | Raise(exc: Expr)
    | If(test: Expr, body: seq<Stmt>, orelse: seq<Stmt>)
    | While(cond: Expr, loop: seq<Stmt>)
    | Try(guarded: seq<Stmt>, catches: bool, handler: seq<Stmt>, finalbody: seq<Stmt>)
    | FunctionDef(fn: Function)
    | ClassDef(name: string, members: seq<Stmt>)

  datatype Module = Module(body: seq<Stmt>)

  /** `isinstance(s, Expr) and isinstance(s.value, Constant) and isinstance(s.value.value, str)` */
  predicate IsStringStmt(s: Stmt) {
    s.ExprStmt? && s.value.Constant? && s.value.value.StrConst?
  }

  predicate IsConstantReturn(s: Stmt) {
    s.Return? && s.result.Some? && s.result.value.Constant?
  }

  /** The two node tests, by the trees they accept. */
  lemma NodesAre(s: Stmt)
    ensures IsStringStmt(s) <==> exists text :: s == ExprStmt(Constant(StrConst(text)))
    ensures IsConstantReturn(s) <==> exists c :: s == Return(Some(Constant(c)))
  {
    if IsStringStmt(s) { assert s == ExprStmt(Constant(StrConst(s.value.value.s))); }
    if IsConstantReturn(s) { assert s == Return(Some(Constant(s.result.value.value))); }
  }

  /** A function's `__doc__`. */
  function Docstring(body: seq<Stmt>): Const {
    if |body| > 0 && IsStringStmt(body[0]) then body[0].value.value else NoneConst
  }

  /** Nothing but a docstring. */
  predicate DocOnly(body: seq<Stmt>) {
    |body| == 1 && IsStringStmt(body[0])
  }
}
