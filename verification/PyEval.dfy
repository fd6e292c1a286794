/**
 A reference interpreter for the syntax in PyAst.

 Names are resolved through a chain of frames, innermost first, and then the
 builtins, where the observer has installed its reach function. Every name that
 a function body assigns is a local of that function from its entry on, and is
 unset until the assignment; a name that a class body assigns is looked up in the
 globals until then. `fuel` bounds
 the depth of calls and the number of loop iterations only, so every fuel
 describes one prefix of the (possibly infinite) execution, and the theorems
 about it are stated for every fuel.

 `Enter` events are the interpreter's own record of function entries, and of
 whether the reach name means the builtin there; `Reach` events are what the
 reach builtin sends to the observer's channel.
 */
module PyEval {
  import opened Common
  import opened PyAst

  const REACH_NAME := "__launcher_test_proof_reach__"
  const MAX_TOKEN := 64

  datatype Value =
    | ConstV(c: Const)
    | FuncV(fn: Function, scope: seq<nat>)
    | CoroutineV(fn: Function, scope: seq<nat>)
    | ClassV(name: string, frame: nat)
    | ReachV
    | Unset    // a function's local before its assignment; no expression evaluates to it
    | Pending  // a class member before its assignment; no expression evaluates to it

  datatype Event = Enter(lineno: nat, name: string, reachable: bool) | Reach(text: string)

  type Frame = map<string, Value>

  datatype State = State(frames: seq<Frame>, trace: seq<Event>)

  /** How an expression ends. */
  datatype Eval = Val(v: Value) | Err(exc: Value) | Stuck

  /** How several expressions end. */
  datatype Evals = Vals(vs: seq<Value>) | ErrAll(exc: Value) | StuckAll

  /** How a statement ends. */
  datatype Outcome = Normal | Returned(v: Value) | Raised(exc: Value) | OutOfFuel

  /** Operators on constants, and `str` of a constant: any pure functions. */
  datatype Machine = Machine(prim: (string, Const, Const) -> Option<Const>, show: Const -> string)

  function Error(kind: string): Value { ConstV(StrConst(kind)) }

  const NONE_VALUE := ConstV(NoneConst)

  predicate Truthy(v: Value) {
    match v
    case ConstV(NoneConst) => false
    case ConstV(BoolConst(b)) => b
    case ConstV(IntConst(i)) => i != 0
    case ConstV(FloatConst(r)) => r != 0.0
    case ConstV(StrConst(s)) => s != ""
    case _ => true
  }

  /** The last frame of a scope is the module's. */
  function Lookup(frames: seq<Frame>, scope: seq<nat>, name: string): Option<Value>
    decreases |scope|
  {
    if scope == [] then
      if name == REACH_NAME then Some(ReachV) else None
    else if !(scope[0] < |frames| && name in frames[scope[0]]) then
      Lookup(frames, scope[1..], name)
    else if frames[scope[0]][name].Pending? then
      Lookup(frames, if |scope| > 1 then [scope[|scope| - 1]] else [], name)
    else
      Some(frames[scope[0]][name])
  }

  /** Binds a name in the innermost frame. */
  function Store(st: State, scope: seq<nat>, name: string, v: Value): State {
    if scope != [] && scope[0] < |st.frames| then
      st.(frames := st.frames[scope[0] := st.frames[scope[0]][name := v]])
    else
      st
  }

  function BindParams(params: seq<string>, args: seq<Value>): Frame
    requires |params| == |args|
  {
    if params == [] then map[] else BindParams(params[1..], args[1..])[params[0] := args[0]]
  }

  /** The names a statement assigns in its own scope: not those of nested functions and classes. */
  function AssignedBy(s: Stmt): set<string>
    decreases s, 1
  {
    match s
    case Assign(target, _) => {target}
    case If(_, a, b) => Assigned(a) + Assigned(b)
    case While(_, a) => Assigned(a)
    case Try(a, _, h, f) => Assigned(a) + Assigned(h) + Assigned(f)
    case FunctionDef(fn) => {fn.name}
    case ClassDef(name, _) => {name}
    case _ => {}
  }

  function Assigned(b: seq<Stmt>): set<string>
    decreases b, 0
  {
    if b == [] then {} else AssignedBy(b[0]) + Assigned(b[1..])
  }

  function UnsetLocals(b: seq<Stmt>): Frame {
    map name | name in Assigned(b) :: Unset
  }

  /** A class body's frame at its start. */
  function PendingMembers(b: seq<Stmt>): Frame {
    map name | name in Assigned(b) :: Pending
  }

  /** A function's frame at its entry: parameters are set, its other locals are not. */
  function EntryFrame(fn: Function, args: seq<Value>): Frame
    requires |args| == |fn.params|
  {
    UnsetLocals(fn.body) + BindParams(fn.params, args)
  }

  /** Reading a name: an unset local of the running function or of an enclosing one hides what lies outside. */
  function ReadName(frames: seq<Frame>, scope: seq<nat>, name: string): Eval {
    match Lookup(frames, scope, name)
    case None => Err(Error("NameError"))
    case Some(v) =>
      if !v.Unset? then Val(v)
      else if scope != [] && scope[0] < |frames| && name in frames[scope[0]] then Err(Error("UnboundLocalError"))
      else Err(Error("NameError"))
  }

  function Text(m: Machine, v: Value): string {
    match v
    case ConstV(StrConst(s)) => s
    case ConstV(c) => m.show(c)
    case _ => "<object>"
  }

  /** `str(token)[:64]` */
  function Clip(s: string): (r: string)
    ensures r <= s && |r| == if |s| < 64 then |s| else 64
  {
    if |s| <= MAX_TOKEN then s else s[..MAX_TOKEN]
  }

  function GetAttr(frames: seq<Frame>, v: Value, attr: string): Eval {
    match v
    case FuncV(fn, _) =>
      if attr == "__doc__" then Val(ConstV(Docstring(fn.body)))
      else if attr == "__name__" then Val(ConstV(StrConst(fn.name)))
      else Err(Error("AttributeError"))
    case ClassV(_, f) =>
      if f < |frames| && attr in frames[f] && !frames[f][attr].Pending? then Val(frames[f][attr])
      else Err(Error("AttributeError"))
    case _ => Err(Error("AttributeError"))
  }

  function Operate(m: Machine, op: string, a: Value, b: Value): Eval {
    if a.ConstV? && b.ConstV? then
      match m.prim(op, a.c, b.c)
      case Some(c) => Val(ConstV(c))
      case None => Err(Error("TypeError"))
    else Err(Error("TypeError"))
  }

  function EvalExpr(m: Machine, fuel: nat, e: Expr, scope: seq<nat>, st: State): (r: (Eval, State))
    ensures st.trace <= r.1.trace
    decreases fuel, 2, e
  {
    match e
    case Constant(c) => (Val(ConstV(c)), st)
    case Name(id) => (ReadName(st.frames, scope, id), st)
    case Attribute(o, attr) =>
      var (r, st1) := EvalExpr(m, fuel, o, scope, st);
      if r.Val? then (GetAttr(st1.frames, r.v, attr), st1) else (r, st1)
    case BinOp(op, left, right) =>
      var (a, st1) := EvalExpr(m, fuel, left, scope, st);
      if !a.Val? then (a, st1) else
      var (b, st2) := EvalExpr(m, fuel, right, scope, st1);
      if !b.Val? then (b, st2) else (Operate(m, op, a.v, b.v), st2)
    case Call(func, args) =>
      var (f, st1) := EvalExpr(m, fuel, func, scope, st);
      if !f.Val? then (f, st1) else
      var (vs, st2) := EvalExprs(m, fuel, args, scope, st1);
      match vs
      case Vals(values) => CallValue(m, fuel, f.v, values, st2)
      case ErrAll(x) => (Err(x), st2)
      case StuckAll => (Stuck, st2)
  }

  function EvalExprs(m: Machine, fuel: nat, es: seq<Expr>, scope: seq<nat>, st: State): (r: (Evals, State))
    ensures st.trace <= r.1.trace
    decreases fuel, 2, es
  {
    if es == [] then (Vals([]), st) else
    var (r, st1) := EvalExpr(m, fuel, es[0], scope, st);
    match r
    case Err(x) => (ErrAll(x), st1)
    case Stuck => (StuckAll, st1)
    case Val(v) =>
      var (rest, st2) := EvalExprs(m, fuel, es[1..], scope, st1);
      (if rest.Vals? then Vals([v] + rest.vs) else rest, st2)
  }

  function CallValue(m: Machine, fuel: nat, f: Value, args: seq<Value>, st: State): (r: (Eval, State))
    ensures st.trace <= r.1.trace
    decreases fuel, 0
  {
    match f
    case ReachV =>
      if |args| != 1 then (Err(Error("TypeError")), st)
      else (Val(NONE_VALUE), st.(trace := st.trace + [Reach(Clip(Text(m, args[0])))]))
    case FuncV(fn, scope) =>
      if |args| != |fn.params| then (Err(Error("TypeError")), st)
      else if fn.isAsync then (Val(CoroutineV(fn, scope)), st)
      else if fuel == 0 then (Stuck, st)
      else
        var inner := [|st.frames|] + scope;
        var (o, st1) := ExecBlock(m, fuel - 1, fn.body, inner, inner, EntryState(fn, args, inner, st));
        (CallResult(o), st1)
    case _ => (Err(Error("TypeError")), st)
  }

  /** The reach name, looked up from here, is the builtin. */
  predicate ReachVisible(frames: seq<Frame>, scope: seq<nat>) {
    Lookup(frames, scope, REACH_NAME) == Some(ReachV)
  }

  /** The state in which a function's body starts. */
  function EntryState(fn: Function, args: seq<Value>, inner: seq<nat>, st: State): State
    requires |args| == |fn.params|
  {
    var frames := st.frames + [EntryFrame(fn, args)];
    State(frames, st.trace + [Enter(fn.lineno, fn.name, ReachVisible(frames, inner))])
  }

  function CallResult(o: Outcome): Eval {
    match o
    case Normal => Val(NONE_VALUE)
    case Returned(v) => Val(v)
    case Raised(x) => Err(x)
    case OutOfFuel => Stuck
  }

  /** Applies evaluated decorators, the last one first. */
  function Decorate(m: Machine, fuel: nat, decorators: seq<Value>, v: Value, st: State): (r: (Eval, State))
    ensures st.trace <= r.1.trace
    decreases fuel, 1, |decorators|
  {
    if decorators == [] then (Val(v), st) else
    var (r, st1) := CallValue(m, fuel, decorators[|decorators| - 1], [v], st);
    if !r.Val? then (r, st1) else Decorate(m, fuel, decorators[..|decorators| - 1], r.v, st1)
  }

  /** Binds a decorated function to its name. */
  function Define(
    m: Machine, fuel: nat, decorators: seq<Value>, fn: Function, scope: seq<nat>, outer: seq<nat>, st: State)
    : (r: (Outcome, State))
    ensures st.trace <= r.1.trace
    decreases fuel, 2
  {
    var (r, st1) := Decorate(m, fuel, decorators, FuncV(fn, outer), st);
    if r.Val? then (Normal, Store(st1, scope, fn.name, r.v)) else (Failed(r), st1)
  }

  /**
   Runs one statement. `scope` resolves names; `outer` is what a function
   defined here captures: the same chain, without the frame of a class body.
   */
  function Exec(m: Machine, fuel: nat, s: Stmt, scope: seq<nat>, outer: seq<nat>, st: State): (r: (Outcome, State))
    ensures st.trace <= r.1.trace
    decreases fuel, 3, s
  {
    match s
    case ExprStmt(e) =>
      var (r, st1) := EvalExpr(m, fuel, e, scope, st);
      (if r.Val? then Normal else Failed(r), st1)
    case Assign(target, e) =>
      var (r, st1) := EvalExpr(m, fuel, e, scope, st);
      if r.Val? then (Normal, Store(st1, scope, target, r.v)) else (Failed(r), st1)
    case Return(None) => (Returned(NONE_VALUE), st)
    case Return(Some(e)) =>
      var (r, st1) := EvalExpr(m, fuel, e, scope, st);
      (if r.Val? then Returned(r.v) else Failed(r), st1)
    case Raise(e) =>
      var (r, st1) := EvalExpr(m, fuel, e, scope, st);
      (if r.Val? then Raised(r.v) else Failed(r), st1)
    case If(test, body, orelse) =>
      var (r, st1) := EvalExpr(m, fuel, test, scope, st);
      if !r.Val? then (Failed(r), st1)
      else if Truthy(r.v) then ExecBlock(m, fuel, body, scope, outer, st1)
      else ExecBlock(m, fuel, orelse, scope, outer, st1)
    case While(_, _) => ExecWhile(m, fuel, s, scope, outer, st)
    case Try(_, _, _, _) => ExecTry(m, fuel, s, scope, outer, st)
    case FunctionDef(fn) =>
      var (ds, st1) := EvalExprs(m, fuel, fn.decorators, scope, st);
      (match ds
       case ErrAll(x) => (Raised(x), st1)
       case StuckAll => (OutOfFuel, st1)
       case Vals(vs) => Define(m, fuel, vs, fn, scope, outer, st1))
    case ClassDef(name, members) =>
      var frame := |st.frames|;
      var (o, st1) := ExecBlock(m, fuel, members, [frame] + outer, outer,
                                 st.(frames := st.frames + [PendingMembers(members)]));
      if o.Normal? then (Normal, Store(st1, scope, name, ClassV(name, frame))) else (o, st1)
  }

  /** One turn of a loop: how the loop ends with it, or None if it goes round again. */
  function ExecTurn(m: Machine, fuel: nat, s: Stmt, scope: seq<nat>, outer: seq<nat>, st: State)
    : (r: (Option<Outcome>, State))
    requires s.While?
    ensures st.trace <= r.1.trace
    decreases fuel, 3, s, 0
  {
    var (r, st1) := EvalExpr(m, fuel, s.cond, scope, st);
    if !r.Val? then (Some(Failed(r)), st1)
    else if !Truthy(r.v) then (Some(Normal), st1)
    else
      var (o, st2) := ExecBlock(m, fuel, s.loop, scope, outer, st1);
      (if o.Normal? then None else Some(o), st2)
  }

  function ExecWhile(m: Machine, fuel: nat, s: Stmt, scope: seq<nat>, outer: seq<nat>, st: State)
    : (r: (Outcome, State))
    requires s.While?
    ensures st.trace <= r.1.trace
    decreases fuel, 3, s, 1
  {
    var (ended, st1) := ExecTurn(m, fuel, s, scope, outer, st);
    if ended.Some? then (ended.value, st1)
    else if fuel == 0 then (OutOfFuel, st1)
    else ExecWhile(m, fuel - 1, s, scope, outer, st1)
  }

  /** The guarded block and, if it raises and the statement catches, the handler. */
  function ExecGuarded(m: Machine, fuel: nat, s: Stmt, scope: seq<nat>, outer: seq<nat>, st: State)
    : (r: (Outcome, State))
    requires s.Try?
    ensures st.trace <= r.1.trace
    decreases fuel, 3, s, 0
  {
    var (o, st1) := ExecBlock(m, fuel, s.guarded, scope, outer, st);
    if o.Raised? && s.catches then ExecBlock(m, fuel, s.handler, scope, outer, st1) else (o, st1)
  }

  function ExecTry(m: Machine, fuel: nat, s: Stmt, scope: seq<nat>, outer: seq<nat>, st: State)
    : (r: (Outcome, State))
    requires s.Try?
    ensures st.trace <= r.1.trace
    decreases fuel, 3, s, 1
  {
    var (o, st1) := ExecGuarded(m, fuel, s, scope, outer, st);
    if o.OutOfFuel? then (o, st1) else
    var (f, st2) := ExecBlock(m, fuel, s.finalbody, scope, outer, st1);
    (if f.Normal? then o else f, st2)
  }

  function Failed(r: Eval): Outcome
    requires !r.Val?
  {
    if r.Err? then Raised(r.exc) else OutOfFuel
  }

  function ExecBlock(
    m: Machine, fuel: nat, b: seq<Stmt>, scope: seq<nat>, outer: seq<nat>, st: State): (r: (Outcome, State))
    ensures st.trace <= r.1.trace
    decreases fuel, 3, b
  {
    if b == [] then (Normal, st) else
    var (o, st1) := Exec(m, fuel, b[0], scope, outer, st);
    if o.Normal? then ExecBlock(m, fuel, b[1..], scope, outer, st1) else (o, st1)
  }

  /** Importing a module: its body runs in one fresh global frame. */
  function RunModule(m: Machine, fuel: nat, mod: Module): (Outcome, State) {
    ExecBlock(m, fuel, mod.body, [0], [0], State([map[]], []))
  }
}
