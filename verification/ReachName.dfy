/**
 What the reach name means during a run, and what that decides.

 One invariant of the interpreter serves two purposes. For code that never
 binds the reach name (`Unbound`), every function entry reaches the builtin. For
 code that never reads it (`Silent`), or only in the probes at the start of its
 functions (`Probed`), every announcement stands directly behind an entry that
 reaches the builtin, so that a run of instrumented code shows where the name was
 shadowed.
 */
module ReachName {
  import opened Common
  import opened PyAst
  import opened PyEval
  import opened Instrumentation
  import opened InstrumentationMeaning

  datatype Mode = Silent | Probed | Unbound

  predicate MayRead(mode: Mode, name: string) {
    !mode.Unbound? ==> name != REACH_NAME
  }

  predicate MayBind(mode: Mode, name: string) {
    mode.Unbound? ==> name != REACH_NAME
  }

  predicate FitExpr(mode: Mode, e: Expr) {
    match e
    case Constant(_) => true
    case Name(id) => MayRead(mode, id)
    case Attribute(o, _) => FitExpr(mode, o)
    case BinOp(_, a, b) => FitExpr(mode, a) && FitExpr(mode, b)
    case Call(f, args) => FitExpr(mode, f) && forall i :: 0 <= i < |args| ==> FitExpr(mode, args[i])
  }

  predicate FitExprs(mode: Mode, es: seq<Expr>) {
    forall i :: 0 <= i < |es| ==> FitExpr(mode, es[i])
  }

  predicate IsProbe(s: Stmt) {
    && s.ExprStmt? && s.value.Call? && s.value.func == Name(REACH_NAME)
    && |s.value.args| == 1 && s.value.args[0].Constant?
  }

  /** A function body; in probed code, with a probe first or after a docstring. */
  predicate FitBody(mode: Mode, b: seq<Stmt>)
    decreases b, 1
  {
    || FitBlock(mode, b)
    || (mode.Probed? && |b| > 0 && IsProbe(b[0]) && FitBlock(mode, b[1..]))
    || (mode.Probed? && |b| > 1 && IsStringStmt(b[0]) && IsProbe(b[1]) && FitBlock(mode, b[2..]))
  }

  predicate FitFunction(mode: Mode, fn: Function)
    decreases fn, 1
  {
    && (forall i :: 0 <= i < |fn.params| ==> MayBind(mode, fn.params[i]))
    && FitExprs(mode, fn.decorators)
    && FitBody(mode, fn.body)
  }

  predicate FitStmt(mode: Mode, s: Stmt)
    decreases s, 1
  {
    match s
    case ExprStmt(e) => FitExpr(mode, e)
    case Assign(target, e) => MayBind(mode, target) && FitExpr(mode, e)
    case Return(r) => r.Some? ==> FitExpr(mode, r.value)
    case Raise(e) => FitExpr(mode, e)
    case If(t, a, b) => FitExpr(mode, t) && FitBlock(mode, a) && FitBlock(mode, b)
    case While(c, a) => FitExpr(mode, c) && FitBlock(mode, a)
    case Try(a, _, h, f) => FitBlock(mode, a) && FitBlock(mode, h) && FitBlock(mode, f)
    case FunctionDef(fn) => MayBind(mode, fn.name) && FitFunction(mode, fn)
    case ClassDef(n, a) => MayBind(mode, n) && FitBlock(mode, a)
  }

  predicate FitBlock(mode: Mode, b: seq<Stmt>)
    decreases b, 0
  {
    b == [] || (FitStmt(mode, b[0]) && FitBlock(mode, b[1..]))
  }

  predicate FitValue(mode: Mode, v: Value) {
    && ((v.FuncV? || v.CoroutineV?) ==> FitFunction(mode, v.fn))
    && (!mode.Unbound? ==> !v.ReachV?)
  }

  predicate FitValues(mode: Mode, vs: seq<Value>) {
    forall i :: 0 <= i < |vs| ==> FitValue(mode, vs[i])
  }

  predicate FitFrame(mode: Mode, f: Frame) {
    forall k :: k in f ==> MayBind(mode, k) && FitValue(mode, f[k])
  }

  predicate FitFrames(mode: Mode, fs: seq<Frame>) {
    forall i :: 0 <= i < |fs| ==> FitFrame(mode, fs[i])
  }

  /** Every announcement directly follows an entry that reaches the builtin. */
  predicate OnlyAtEntries(t: seq<Event>) {
    forall i :: 0 <= i < |t| && t[i].Reach? ==> i > 0 && t[i - 1].Enter? && t[i - 1].reachable
  }

  predicate FitTrace(mode: Mode, t: seq<Event>) {
    if mode.Unbound? then AllReach(t) else OnlyAtEntries(t)
  }

  predicate FitState(mode: Mode, st: State) {
    FitFrames(mode, st.frames) && FitTrace(mode, st.trace)
  }

  predicate FitEval(mode: Mode, r: Eval) {
    match r
    case Val(v) => FitValue(mode, v)
    case Err(x) => FitValue(mode, x)
    case Stuck => true
  }

  predicate FitEvals(mode: Mode, r: Evals) {
    match r
    case Vals(vs) => FitValues(mode, vs)
    case ErrAll(x) => FitValue(mode, x)
    case StuckAll => true
  }

  predicate FitOutcome(mode: Mode, o: Outcome) {
    match o
    case Returned(v) => FitValue(mode, v)
    case Raised(x) => FitValue(mode, x)
    case _ => true
  }

  // ------------------------------------------------------------------
  // Names

  lemma {:induction false} LookupFits(mode: Mode, fs: seq<Frame>, scope: seq<nat>, name: string)
    requires FitFrames(mode, fs) && Lookup(fs, scope, name).Some?
    ensures var v := Lookup(fs, scope, name).value; FitValue(mode, v) || (name == REACH_NAME && v == ReachV)
    decreases |scope|
  {
    if scope != [] && !(scope[0] < |fs| && name in fs[scope[0]]) {
      LookupFits(mode, fs, scope[1..], name);
    } else if scope != [] && fs[scope[0]][name].Pending? {
      LookupFits(mode, fs, if |scope| > 1 then [scope[|scope| - 1]] else [], name);
    }
  }

  lemma {:induction false} UnboundIsVisible(fs: seq<Frame>, scope: seq<nat>)
    requires FitFrames(Unbound, fs)
    ensures ReachVisible(fs, scope)
  {
    if scope != [] { UnboundIsVisible(fs, scope[1..]); }
  }

  lemma StoreFits(mode: Mode, st: State, scope: seq<nat>, name: string, v: Value)
    requires FitState(mode, st) && FitValue(mode, v) && MayBind(mode, name)
    ensures FitState(mode, Store(st, scope, name, v))
  {
  }

  lemma {:induction false} BindFits(mode: Mode, params: seq<string>, args: seq<Value>)
    requires |params| == |args| && FitValues(mode, args)
    requires forall i :: 0 <= i < |params| ==> MayBind(mode, params[i])
    ensures FitFrame(mode, BindParams(params, args))
  {
    if params != [] { BindFits(mode, params[1..], args[1..]); }
  }

  /** What fitting code assigns it may bind. */
  lemma {:induction false} AssignedFits(mode: Mode, b: seq<Stmt>)
    requires FitBlock(mode, b)
    ensures forall name :: name in Assigned(b) ==> MayBind(mode, name)
    decreases b, 0
  {
    if b != [] {
      AssignedByFits(mode, b[0]);
      AssignedFits(mode, b[1..]);
    }
  }

  lemma {:induction false} AssignedByFits(mode: Mode, s: Stmt)
    requires FitStmt(mode, s)
    ensures forall name :: name in AssignedBy(s) ==> MayBind(mode, name)
    decreases s, 1
  {
    match s
    case If(_, a, b) => AssignedFits(mode, a); AssignedFits(mode, b);
    case While(_, a) => AssignedFits(mode, a);
    case Try(a, _, h, f) => AssignedFits(mode, a); AssignedFits(mode, h); AssignedFits(mode, f);
    case _ =>
  }

  /** The state in which a body starts fits, and its trace ends with the entry. */
  lemma EntryFits(mode: Mode, fn: Function, args: seq<Value>, inner: seq<nat>, st: State)
    requires FitFunction(mode, fn) && FitValues(mode, args) && FitState(mode, st) && |args| == |fn.params|
    ensures FitState(mode, EntryState(fn, args, inner, st))
  {
    var entered := EntryState(fn, args, inner, st);
    BindFits(mode, fn.params, args);
    if mode.Unbound? { AssignedFits(mode, fn.body); }
    assert FitFrame(mode, EntryFrame(fn, args));
    assert FitFrames(mode, entered.frames);
    if mode.Unbound? { UnboundIsVisible(entered.frames, inner); }
  }

  // ------------------------------------------------------------------
  // The invariant

  lemma {:induction false} EvalFits(mode: Mode, m: Machine, fuel: nat, e: Expr, scope: seq<nat>, st: State)
    requires FitExpr(mode, e) && FitState(mode, st)
    ensures var (r, st') := EvalExpr(m, fuel, e, scope, st); FitEval(mode, r) && FitState(mode, st')
    decreases fuel, 2, e
  {
    match e
    case Constant(_) =>
    case Name(id) => if Lookup(st.frames, scope, id).Some? { LookupFits(mode, st.frames, scope, id); }
    case Attribute(o, attr) => EvalFits(mode, m, fuel, o, scope, st);
    case BinOp(_, left, right) =>
      EvalFits(mode, m, fuel, left, scope, st);
      var (a, st1) := EvalExpr(m, fuel, left, scope, st);
      if a.Val? { EvalFits(mode, m, fuel, right, scope, st1); }
    case Call(_, _) => CallExprFits(mode, m, fuel, e, scope, st);
  }

  lemma {:induction false} CallExprFits(mode: Mode, m: Machine, fuel: nat, e: Expr, scope: seq<nat>, st: State)
    requires e.Call? && FitExpr(mode, e) && FitState(mode, st)
    ensures var (r, st') := EvalExpr(m, fuel, e, scope, st); FitEval(mode, r) && FitState(mode, st')
    decreases fuel, 2, e, 0
  {
    EvalFits(mode, m, fuel, e.func, scope, st);
    var (f, st1) := EvalExpr(m, fuel, e.func, scope, st);
    if f.Val? {
      EvalsFit(mode, m, fuel, e.args, scope, st1);
      var (vs, st2) := EvalExprs(m, fuel, e.args, scope, st1);
      if vs.Vals? { CallFits(mode, m, fuel, f.v, vs.vs, st2); }
    }
  }

  lemma {:induction false} EvalsFit(mode: Mode, m: Machine, fuel: nat, es: seq<Expr>, scope: seq<nat>, st: State)
    requires FitExprs(mode, es) && FitState(mode, st)
    ensures var (r, st') := EvalExprs(m, fuel, es, scope, st); FitEvals(mode, r) && FitState(mode, st')
    decreases fuel, 2, es
  {
    if es != [] {
      EvalFits(mode, m, fuel, es[0], scope, st);
      var (r, st1) := EvalExpr(m, fuel, es[0], scope, st);
      if r.Val? { EvalsFit(mode, m, fuel, es[1..], scope, st1); }
    }
  }

  lemma {:induction false} CallFits(mode: Mode, m: Machine, fuel: nat, f: Value, args: seq<Value>, st: State)
    requires FitValue(mode, f) && FitValues(mode, args) && FitState(mode, st)
    ensures var (r, st') := CallValue(m, fuel, f, args, st); FitEval(mode, r) && FitState(mode, st')
    decreases fuel, 0
  {
    if f.FuncV? && |args| == |f.fn.params| && !f.fn.isAsync && fuel > 0 {
      var inner := [|st.frames|] + f.scope;
      EntryFits(mode, f.fn, args, inner, st);
      var entered := EntryState(f.fn, args, inner, st);
      assert entered.trace[|entered.trace| - 1] == Enter(f.fn.lineno, f.fn.name, ReachVisible(entered.frames, inner));
      BodyFits(mode, m, fuel - 1, f.fn.body, inner, entered);
    }
  }

  /** A probe directly behind its entry announces only if the name is the builtin, and otherwise is any call. */
  lemma {:induction false} ProbeFits(mode: Mode, m: Machine, fuel: nat, s: Stmt, inner: seq<nat>, st: State)
    requires IsProbe(s) && FitState(mode, st) && st.trace != []
    requires var last := st.trace[|st.trace| - 1]; last.Enter? && last.reachable == ReachVisible(st.frames, inner)
    ensures var (o, st') := Exec(m, fuel, s, inner, inner, st); FitOutcome(mode, o) && FitState(mode, st')
    decreases fuel, 1
  {
    var token := s.value.args[0].value;
    assert s.value.args == [Constant(token)];
    assert s == ProbeCall(token);
    ProbeCalls(m, fuel, token, inner, st);
    var found := ReadName(st.frames, inner, REACH_NAME);
    if found.Val? && found.v != ReachV {
      LookupFits(mode, st.frames, inner, REACH_NAME);
      CallFits(mode, m, fuel, found.v, [ConstV(token)], st);
    }
  }

  lemma {:induction false} BodyFits(mode: Mode, m: Machine, fuel: nat, b: seq<Stmt>, inner: seq<nat>, st: State)
    requires FitBody(mode, b) && FitState(mode, st) && st.trace != []
    requires var last := st.trace[|st.trace| - 1]; last.Enter? && last.reachable == ReachVisible(st.frames, inner)
    ensures var (o, st') := ExecBlock(m, fuel, b, inner, inner, st); FitOutcome(mode, o) && FitState(mode, st')
    decreases fuel, 4
  {
    if FitBlock(mode, b) {
      BlockFits(mode, m, fuel, b, inner, inner, st);
    } else if IsProbe(b[0]) {
      ProbedFits(mode, m, fuel, b, inner, st);
    } else {
      StringStmtIsInert(m, fuel, b[0], inner, st);
      assert b[1..][1..] == b[2..];
      ProbedFits(mode, m, fuel, b[1..], inner, st);
    }
  }

  lemma {:induction false} ProbedFits(mode: Mode, m: Machine, fuel: nat, b: seq<Stmt>, inner: seq<nat>, st: State)
    requires b != [] && IsProbe(b[0]) && FitBlock(mode, b[1..]) && FitState(mode, st) && st.trace != []
    requires var last := st.trace[|st.trace| - 1]; last.Enter? && last.reachable == ReachVisible(st.frames, inner)
    ensures var (o, st') := ExecBlock(m, fuel, b, inner, inner, st); FitOutcome(mode, o) && FitState(mode, st')
    decreases fuel, 3, b, 1
  {
    ProbeFits(mode, m, fuel, b[0], inner, st);
    var (o, st1) := Exec(m, fuel, b[0], inner, inner, st);
    if o.Normal? { BlockFits(mode, m, fuel, b[1..], inner, inner, st1); }
  }

  lemma {:induction false} DecorateFits(mode: Mode, m: Machine, fuel: nat, ds: seq<Value>, v: Value, st: State)
    requires FitValues(mode, ds) && FitValue(mode, v) && FitState(mode, st)
    ensures var (r, st') := Decorate(m, fuel, ds, v, st); FitEval(mode, r) && FitState(mode, st')
    decreases fuel, 1, |ds|
  {
    if ds != [] {
      var n := |ds| - 1;
      CallFits(mode, m, fuel, ds[n], [v], st);
      var (r, st1) := CallValue(m, fuel, ds[n], [v], st);
      if r.Val? { DecorateFits(mode, m, fuel, ds[..n], r.v, st1); }
    }
  }

  lemma {:induction false} DefineFits(
    mode: Mode, m: Machine, fuel: nat, ds: seq<Value>, fn: Function, scope: seq<nat>, outer: seq<nat>, st: State)
    requires FitValues(mode, ds) && FitFunction(mode, fn) && MayBind(mode, fn.name) && FitState(mode, st)
    ensures var (o, st') := Define(m, fuel, ds, fn, scope, outer, st); FitOutcome(mode, o) && FitState(mode, st')
    decreases fuel, 2
  {
    DecorateFits(mode, m, fuel, ds, FuncV(fn, outer), st);
    var (r, st1) := Decorate(m, fuel, ds, FuncV(fn, outer), st);
    if r.Val? { StoreFits(mode, st1, scope, fn.name, r.v); }
  }

  lemma {:induction false} ExecFits(
    mode: Mode, m: Machine, fuel: nat, s: Stmt, scope: seq<nat>, outer: seq<nat>, st: State)
    requires FitStmt(mode, s) && FitState(mode, st)
    ensures var (o, st') := Exec(m, fuel, s, scope, outer, st); FitOutcome(mode, o) && FitState(mode, st')
    decreases fuel, 3, s
  {
    match s
    case ExprStmt(e) => EvalFits(mode, m, fuel, e, scope, st);
    case Assign(target, e) =>
      EvalFits(mode, m, fuel, e, scope, st);
      var (r, st1) := EvalExpr(m, fuel, e, scope, st);
      if r.Val? { StoreFits(mode, st1, scope, target, r.v); }
    case Return(r) => if r.Some? { EvalFits(mode, m, fuel, r.value, scope, st); }
    case Raise(e) => EvalFits(mode, m, fuel, e, scope, st);
    case If(test, body, orelse) =>
      EvalFits(mode, m, fuel, test, scope, st);
      var (r, st1) := EvalExpr(m, fuel, test, scope, st);
      if r.Val? {
        if Truthy(r.v) { BlockFits(mode, m, fuel, body, scope, outer, st1); }
        else { BlockFits(mode, m, fuel, orelse, scope, outer, st1); }
      }
    case While(_, _) => WhileFits(mode, m, fuel, s, scope, outer, st);
    case Try(_, _, _, _) => TryFits(mode, m, fuel, s, scope, outer, st);
    case FunctionDef(fn) =>
      EvalsFit(mode, m, fuel, fn.decorators, scope, st);
      var (ds, st1) := EvalExprs(m, fuel, fn.decorators, scope, st);
      if ds.Vals? { DefineFits(mode, m, fuel, ds.vs, fn, scope, outer, st1); }
    case ClassDef(name, members) => ClassFits(mode, m, fuel, s, scope, outer, st);
  }

  lemma {:induction false} ClassFits(
    mode: Mode, m: Machine, fuel: nat, s: Stmt, scope: seq<nat>, outer: seq<nat>, st: State)
    requires s.ClassDef? && FitStmt(mode, s) && FitState(mode, st)
    ensures var (o, st') := Exec(m, fuel, s, scope, outer, st); FitOutcome(mode, o) && FitState(mode, st')
    decreases fuel, 3, s, 0
  {
    var frame := |st.frames|;
    AssignedFits(mode, s.members);
    var begun := st.(frames := st.frames + [PendingMembers(s.members)]);
    assert FitFrame(mode, PendingMembers(s.members));
    BlockFits(mode, m, fuel, s.members, [frame] + outer, outer, begun);
    var (o, st1) := ExecBlock(m, fuel, s.members, [frame] + outer, outer, begun);
    if o.Normal? { StoreFits(mode, st1, scope, s.name, ClassV(s.name, frame)); }
  }

  lemma {:induction false} TurnFits(
    mode: Mode, m: Machine, fuel: nat, s: Stmt, scope: seq<nat>, outer: seq<nat>, st: State)
    requires s.While? && FitStmt(mode, s) && FitState(mode, st)
    ensures var (o, st') := ExecTurn(m, fuel, s, scope, outer, st);
            (o.Some? ==> FitOutcome(mode, o.value)) && FitState(mode, st')
    decreases fuel, 3, s, 0
  {
    EvalFits(mode, m, fuel, s.cond, scope, st);
    var (r, st1) := EvalExpr(m, fuel, s.cond, scope, st);
    if r.Val? && Truthy(r.v) { BlockFits(mode, m, fuel, s.loop, scope, outer, st1); }
  }

  lemma {:induction false} WhileFits(
    mode: Mode, m: Machine, fuel: nat, s: Stmt, scope: seq<nat>, outer: seq<nat>, st: State)
    requires s.While? && FitStmt(mode, s) && FitState(mode, st)
    ensures var (o, st') := ExecWhile(m, fuel, s, scope, outer, st);
            FitOutcome(mode, o) && FitState(mode, st')
    decreases fuel, 3, s, 1
  {
    TurnFits(mode, m, fuel, s, scope, outer, st);
    var (ended, st1) := ExecTurn(m, fuel, s, scope, outer, st);
    if ended.None? && fuel > 0 { WhileFits(mode, m, fuel - 1, s, scope, outer, st1); }
  }

  lemma {:induction false} GuardedFits(
    mode: Mode, m: Machine, fuel: nat, s: Stmt, scope: seq<nat>, outer: seq<nat>, st: State)
    requires s.Try? && FitStmt(mode, s) && FitState(mode, st)
    ensures var (o, st') := ExecGuarded(m, fuel, s, scope, outer, st);
            FitOutcome(mode, o) && FitState(mode, st')
    decreases fuel, 3, s, 0
  {
    BlockFits(mode, m, fuel, s.guarded, scope, outer, st);
    var (o, st1) := ExecBlock(m, fuel, s.guarded, scope, outer, st);
    if o.Raised? && s.catches { BlockFits(mode, m, fuel, s.handler, scope, outer, st1); }
  }

  lemma {:induction false} TryFits(
    mode: Mode, m: Machine, fuel: nat, s: Stmt, scope: seq<nat>, outer: seq<nat>, st: State)
    requires s.Try? && FitStmt(mode, s) && FitState(mode, st)
    ensures var (o, st') := ExecTry(m, fuel, s, scope, outer, st);
            FitOutcome(mode, o) && FitState(mode, st')
    decreases fuel, 3, s, 1
  {
    GuardedFits(mode, m, fuel, s, scope, outer, st);
    var (o, st1) := ExecGuarded(m, fuel, s, scope, outer, st);
    if !o.OutOfFuel? { BlockFits(mode, m, fuel, s.finalbody, scope, outer, st1); }
  }

  lemma {:induction false} BlockFits(
    mode: Mode, m: Machine, fuel: nat, b: seq<Stmt>, scope: seq<nat>, outer: seq<nat>, st: State)
    requires FitBlock(mode, b) && FitState(mode, st)
    ensures var (o, st') := ExecBlock(m, fuel, b, scope, outer, st); FitOutcome(mode, o) && FitState(mode, st')
    decreases fuel, 3, b
  {
    if b != [] {
      ExecFits(mode, m, fuel, b[0], scope, outer, st);
      var (o, st1) := Exec(m, fuel, b[0], scope, outer, st);
      if o.Normal? { BlockFits(mode, m, fuel, b[1..], scope, outer, st1); }
    }
  }

  lemma RunFits(mode: Mode, m: Machine, fuel: nat, mod: Module)
    requires FitBlock(mode, mod.body)
    ensures FitTrace(mode, RunModule(m, fuel, mod).1.trace)
  {
    BlockFits(mode, m, fuel, mod.body, [0], [0], State([map[]], []));
  }

  // ------------------------------------------------------------------
  // Instrumented code of silent modules is silent but for its probes

  lemma {:induction false} InstStmtFits(p: Probes, s: Stmt)
    requires FitStmt(Silent, s)
    ensures FitStmt(Probed, InstStmt(p, s))
    decreases s, 1
  {
    match s
    case ExprStmt(e) => SilentExpr(e);
    case Assign(_, e) => SilentExpr(e);
    case Return(r) => if r.Some? { SilentExpr(r.value); }
    case Raise(e) => SilentExpr(e);
    case If(t, a, b) => SilentExpr(t); InstBlockFits(p, a); InstBlockFits(p, b);
    case While(c, a) => SilentExpr(c); InstBlockFits(p, a);
    case Try(a, _, h, f) => InstBlockFits(p, a); InstBlockFits(p, h); InstBlockFits(p, f);
    case FunctionDef(fn) => InstFunctionFits(p, fn);
    case ClassDef(_, a) => InstBlockFits(p, a);
  }

  lemma {:induction false} SilentExpr(e: Expr)
    requires FitExpr(Silent, e)
    ensures FitExpr(Probed, e)
  {
    match e
    case Attribute(o, _) => SilentExpr(o);
    case BinOp(_, a, b) => SilentExpr(a); SilentExpr(b);
    case Call(f, args) =>
      SilentExpr(f);
      forall i | 0 <= i < |args| ensures FitExpr(Probed, args[i]) { SilentExpr(args[i]); }
    case _ =>
  }

  lemma {:induction false} InstBlockFits(p: Probes, b: seq<Stmt>)
    requires FitBlock(Silent, b)
    ensures FitBlock(Probed, InstBlock(p, b))
    decreases b, 0
  {
    if b != [] {
      InstStmtFits(p, b[0]);
      InstBlockFits(p, b[1..]);
      assert InstBlock(p, b)[1..] == InstBlock(p, b[1..]);
    }
  }

  lemma {:induction false} InstFunctionFits(p: Probes, fn: Function)
    requires FitFunction(Silent, fn)
    ensures FitFunction(Probed, InstFunction(p, fn))
    decreases fn, 1
  {
    InstBlockFits(p, fn.body);
    forall i | 0 <= i < |fn.decorators| ensures FitExpr(Probed, fn.decorators[i]) { SilentExpr(fn.decorators[i]); }
    if HasToken(p, fn) {
      ProbedBodyFits(InstBlock(p, fn.body), ProbeCall(p[ProbeKey(fn.lineno, fn.name)]));
    }
  }

  lemma ProbedBodyFits(b: seq<Stmt>, probe: Stmt)
    requires FitBlock(Probed, b) && IsProbe(probe)
    ensures var i := ProbeIndex(b); FitBody(Probed, b[..i] + [probe] + b[i..])
  {
    var i := ProbeIndex(b);
    var full := b[..i] + [probe] + b[i..];
    if i == 0 { assert full[1..] == b; } else { assert full[2..] == b[1..]; }
  }

  // ------------------------------------------------------------------
  // When meaning is preserved

  /** Nothing in the module binds the reach name, so every entry of every run reaches the builtin. */
  lemma UnboundReaches(m: Machine, fuel: nat, mod: Module)
    requires FitBlock(Unbound, mod.body)
    ensures AllReach(RunModule(m, fuel, mod).1.trace)
  {
    RunFits(Unbound, m, fuel, mod);
  }

  /** In the picture of a run, tokens behind entries that do not reach the builtin give a shadowed name away. */
  lemma {:induction false} PictureShowsShadowing(p: Probes, t: seq<Event>)
    requires OnlyAtEntries(Expand(p, t))
    ensures AllReach(t)
  {
    if t != [] {
      var n := |t| - 1;
      var init, whole := Expand(p, t[..n]), Expand(p, t);
      assert forall i :: 0 <= i < |init| ==> whole[i] == init[i];
      PictureShowsShadowing(p, t[..n]);
      if t[n].Enter? {
        assert whole[|init|] == t[n] && whole[|init| + 1].Reach?;
      }
      assert forall i :: 0 <= i < n ==> t[..n][i] == t[i];
    }
  }

  /**
   Of a module that does not itself read the reach name, the instrumented run
   is the picture of the original run if and only if, wherever the original run
   enters a function, the name means the builtin.
   */
  lemma PreservedExactly(p: Probes, docs: bool, mutation: Option<Mutation>, m: Machine, fuel: nat, mod: Module)
    requires CleanBlock(p, docs, MutateBlock(mutation, mod.body)) && FitBlock(Silent, MutateBlock(mutation, mod.body))
    ensures var (o, st) := RunModule(m, fuel, Module(MutateBlock(mutation, mod.body)));
            AllReach(st.trace)
            <==> RunModule(m, fuel, InstModule(p, mutation, mod)) == (InstOutcome(p, o), InstState(p, st))
  {
    var st := RunModule(m, fuel, Module(MutateBlock(mutation, mod.body))).1;
    if AllReach(st.trace) {
      MeaningPreserved(p, docs, mutation, m, fuel, mod);
    }
    InstBlockFits(p, MutateBlock(mutation, mod.body));
    RunFits(Probed, m, fuel, InstModule(p, mutation, mod));
    if OnlyAtEntries(Expand(p, st.trace)) {
      PictureShowsShadowing(p, st.trace);
    }
  }

  /** A condition that can be read off the module: nothing in it binds the reach name. */
  lemma PreservedIfUnbound(p: Probes, docs: bool, mutation: Option<Mutation>, m: Machine, fuel: nat, mod: Module)
    requires CleanBlock(p, docs, MutateBlock(mutation, mod.body)) && FitBlock(Unbound, MutateBlock(mutation, mod.body))
    ensures var (o, st) := RunModule(m, fuel, Module(MutateBlock(mutation, mod.body)));
            RunModule(m, fuel, InstModule(p, mutation, mod)) == (InstOutcome(p, o), InstState(p, st))
  {
    UnboundReaches(m, fuel, Module(MutateBlock(mutation, mod.body)));
    MeaningPreserved(p, docs, mutation, m, fuel, mod);
  }
}
