/**
 Instrumented modules mean what the original modules mean.

 `InstValue`, `InstState` and `Expand` say what the run of an instrumented
 module looks like next to the run of its original: the same values, except
 that functions carry their instrumented bodies, and the same trace, except
 that every function entry is followed by that function's token. The
 simulation lemmas show that the interpreter commutes with this picture for
 every statement, state and fuel.
 */
module InstrumentationMeaning {
  import opened Common
  import opened PyAst
  import opened PyEval
  import opened Instrumentation

  // ------------------------------------------------------------------
  // The picture of a run

  function InstValue(p: Probes, v: Value): Value {
    match v
    case FuncV(fn, scope) => FuncV(InstFunction(p, fn), scope)
    case CoroutineV(fn, scope) => CoroutineV(InstFunction(p, fn), scope)
    case _ => v
  }

  function InstValues(p: Probes, vs: seq<Value>): (r: seq<Value>)
    ensures |r| == |vs|
    ensures forall i :: 0 <= i < |vs| ==> r[i] == InstValue(p, vs[i])
  {
    seq(|vs|, i requires 0 <= i < |vs| => InstValue(p, vs[i]))
  }

  function InstFrame(p: Probes, f: Frame): Frame {
    map k | k in f :: InstValue(p, f[k])
  }

  function InstFrames(p: Probes, fs: seq<Frame>): (r: seq<Frame>)
    ensures |r| == |fs|
    ensures forall i :: 0 <= i < |fs| ==> r[i] == InstFrame(p, fs[i])
  {
    seq(|fs|, i requires 0 <= i < |fs| => InstFrame(p, fs[i]))
  }

  /** The token a function entry is announced with. */
  function TokenAt(p: Probes, line: nat, name: string): string {
    var key := ProbeKey(line, name);
    if key in p && p[key].StrConst? then Clip(p[key].s) else ""
  }

  function Expand(p: Probes, trace: seq<Event>): seq<Event> {
    if trace == [] then [] else
    var last := trace[|trace| - 1];
    Expand(p, trace[..|trace| - 1])
    + (if last.Enter? then [last, Reach(TokenAt(p, last.lineno, last.name))] else [last])
  }

  function InstState(p: Probes, st: State): State {
    State(InstFrames(p, st.frames), Expand(p, st.trace))
  }

  function InstEval(p: Probes, r: Eval): Eval {
    match r
    case Val(v) => Val(InstValue(p, v))
    case Err(x) => Err(InstValue(p, x))
    case Stuck => Stuck
  }

  function InstEvals(p: Probes, r: Evals): Evals {
    match r
    case Vals(vs) => Vals(InstValues(p, vs))
    case ErrAll(x) => ErrAll(InstValue(p, x))
    case StuckAll => StuckAll
  }

  function InstOutcome(p: Probes, o: Outcome): Outcome {
    match o
    case Returned(v) => Returned(InstValue(p, v))
    case Raised(x) => Raised(InstValue(p, x))
    case _ => o
  }

  // ------------------------------------------------------------------
  // What the module must satisfy: every function has a token, and either no
  // function consists of a docstring alone (`docs`) or nothing reads `__doc__`
  // (`!docs`). What its run must satisfy: wherever a function is entered, the
  // reach name means the builtin.

  predicate AllReach(trace: seq<Event>) {
    forall i :: 0 <= i < |trace| && trace[i].Enter? ==> trace[i].reachable
  }

  predicate CleanExpr(docs: bool, e: Expr) {
    match e
    case Attribute(o, attr) => (docs || attr != "__doc__") && CleanExpr(docs, o)
    case BinOp(_, a, b) => CleanExpr(docs, a) && CleanExpr(docs, b)
    case Call(f, args) => CleanExpr(docs, f) && forall i :: 0 <= i < |args| ==> CleanExpr(docs, args[i])
    case _ => true
  }

  predicate CleanExprs(docs: bool, es: seq<Expr>) {
    forall i :: 0 <= i < |es| ==> CleanExpr(docs, es[i])
  }

  predicate CleanFunction(p: Probes, docs: bool, fn: Function)
    decreases fn, 1
  {
    && HasToken(p, fn)
    && (docs ==> !DocOnly(fn.body))
    && CleanExprs(docs, fn.decorators)
    && CleanBlock(p, docs, fn.body)
  }

  predicate CleanStmt(p: Probes, docs: bool, s: Stmt)
    decreases s, 1
  {
    match s
    case ExprStmt(e) => CleanExpr(docs, e)
    case Assign(_, e) => CleanExpr(docs, e)
    case Return(r) => r.Some? ==> CleanExpr(docs, r.value)
    case Raise(e) => CleanExpr(docs, e)
    case If(t, a, b) => CleanExpr(docs, t) && CleanBlock(p, docs, a) && CleanBlock(p, docs, b)
    case While(c, a) => CleanExpr(docs, c) && CleanBlock(p, docs, a)
    case Try(a, _, h, f) => CleanBlock(p, docs, a) && CleanBlock(p, docs, h) && CleanBlock(p, docs, f)
    case FunctionDef(fn) => CleanFunction(p, docs, fn)
    case ClassDef(_, a) => CleanBlock(p, docs, a)
  }

  predicate CleanBlock(p: Probes, docs: bool, b: seq<Stmt>)
    decreases b, 0
  {
    b == [] || (CleanStmt(p, docs, b[0]) && CleanBlock(p, docs, b[1..]))
  }

  predicate CleanValue(p: Probes, docs: bool, v: Value) {
    (v.FuncV? || v.CoroutineV?) ==> CleanFunction(p, docs, v.fn)
  }

  predicate CleanValues(p: Probes, docs: bool, vs: seq<Value>) {
    forall i :: 0 <= i < |vs| ==> CleanValue(p, docs, vs[i])
  }

  predicate CleanFrame(p: Probes, docs: bool, f: Frame) {
    forall k :: k in f ==> CleanValue(p, docs, f[k])
  }

  predicate CleanState(p: Probes, docs: bool, st: State) {
    forall i :: 0 <= i < |st.frames| ==> CleanFrame(p, docs, st.frames[i])
  }

  predicate CleanEval(p: Probes, docs: bool, r: Eval) {
    match r
    case Val(v) => CleanValue(p, docs, v)
    case Err(x) => CleanValue(p, docs, x)
    case Stuck => true
  }

  predicate CleanEvals(p: Probes, docs: bool, r: Evals) {
    match r
    case Vals(vs) => CleanValues(p, docs, vs)
    case ErrAll(x) => CleanValue(p, docs, x)
    case StuckAll => true
  }

  predicate CleanOutcome(p: Probes, docs: bool, o: Outcome) {
    match o
    case Returned(v) => CleanValue(p, docs, v)
    case Raised(x) => CleanValue(p, docs, x)
    case _ => true
  }

  // ------------------------------------------------------------------
  // Primitive operations commute

  lemma {:induction false} LookupSim(p: Probes, docs: bool, fs: seq<Frame>, scope: seq<nat>, name: string)
    requires forall i :: 0 <= i < |fs| ==> CleanFrame(p, docs, fs[i])
    ensures Lookup(fs, scope, name).Some? ==> CleanValue(p, docs, Lookup(fs, scope, name).value)
    ensures Lookup(InstFrames(p, fs), scope, name)
         == if Lookup(fs, scope, name).Some? then Some(InstValue(p, Lookup(fs, scope, name).value)) else None
    decreases |scope|
  {
    if scope != [] {
      LookupSim(p, docs, fs, scope[1..], name);
      LookupSim(p, docs, fs, if |scope| > 1 then [scope[|scope| - 1]] else [], name);
    }
  }

  /** The reach name means the builtin in the picture exactly where it does in the original. */
  lemma ReachVisibleSim(p: Probes, docs: bool, fs: seq<Frame>, scope: seq<nat>)
    requires forall i :: 0 <= i < |fs| ==> CleanFrame(p, docs, fs[i])
    ensures ReachVisible(InstFrames(p, fs), scope) <==> ReachVisible(fs, scope)
  {
    LookupSim(p, docs, fs, scope, REACH_NAME);
  }

  lemma ReadNameSim(p: Probes, docs: bool, fs: seq<Frame>, scope: seq<nat>, name: string)
    requires forall i :: 0 <= i < |fs| ==> CleanFrame(p, docs, fs[i])
    ensures CleanEval(p, docs, ReadName(fs, scope, name))
    ensures ReadName(InstFrames(p, fs), scope, name) == InstEval(p, ReadName(fs, scope, name))
  {
    LookupSim(p, docs, fs, scope, name);
  }

  lemma StoreSim(p: Probes, docs: bool, st: State, scope: seq<nat>, name: string, v: Value)
    requires CleanState(p, docs, st) && CleanValue(p, docs, v)
    ensures CleanState(p, docs, Store(st, scope, name, v))
    ensures Store(InstState(p, st), scope, name, InstValue(p, v)) == InstState(p, Store(st, scope, name, v))
  {
    if scope != [] && scope[0] < |st.frames| {
      var k := scope[0];
      var f := st.frames[k];
      assert InstFrame(p, f)[name := InstValue(p, v)] == InstFrame(p, f[name := v]);
      assert InstFrames(p, st.frames)[k := InstFrame(p, f[name := v])] == InstFrames(p, st.frames[k := f[name := v]]);
    }
  }

  lemma {:induction false} BindSim(p: Probes, docs: bool, params: seq<string>, args: seq<Value>)
    requires |params| == |args| && CleanValues(p, docs, args)
    ensures CleanFrame(p, docs, BindParams(params, args))
    ensures BindParams(params, InstValues(p, args)) == InstFrame(p, BindParams(params, args))
  {
    if params != [] {
      BindSim(p, docs, params[1..], args[1..]);
      assert InstValues(p, args)[1..] == InstValues(p, args[1..]);
      var f := BindParams(params[1..], args[1..]);
      assert InstFrame(p, f)[params[0] := InstValue(p, args[0])] == InstFrame(p, f[params[0] := args[0]]);
    }
  }

  // ------------------------------------------------------------------
  // Neither transformation changes which names are a function's locals

  lemma {:induction false} AssignedConcat(a: seq<Stmt>, b: seq<Stmt>)
    ensures Assigned(a + b) == Assigned(a) + Assigned(b)
  {
    if a == [] {
      assert a + b == b;
    } else {
      assert (a + b)[1..] == a[1..] + b;
      AssignedConcat(a[1..], b);
    }
  }

  lemma {:induction false} AssignedInst(p: Probes, b: seq<Stmt>)
    ensures Assigned(InstBlock(p, b)) == Assigned(b)
    decreases b, 0
  {
    if b != [] {
      AssignedInstStmt(p, b[0]);
      AssignedInst(p, b[1..]);
      assert InstBlock(p, b)[1..] == InstBlock(p, b[1..]);
    }
  }

  lemma {:induction false} AssignedInstStmt(p: Probes, s: Stmt)
    ensures AssignedBy(InstStmt(p, s)) == AssignedBy(s)
    decreases s, 1
  {
    match s
    case If(_, a, b) => AssignedInst(p, a); AssignedInst(p, b);
    case While(_, a) => AssignedInst(p, a);
    case Try(a, _, h, f) => AssignedInst(p, a); AssignedInst(p, h); AssignedInst(p, f);
    case _ =>
  }

  lemma InstKeepsLocals(p: Probes, fn: Function)
    ensures Assigned(InstFunction(p, fn).body) == Assigned(fn.body)
  {
    AssignedInst(p, fn.body);
    if HasToken(p, fn) {
      var b, probe := InstBlock(p, fn.body), ProbeCall(p[ProbeKey(fn.lineno, fn.name)]);
      var i := ProbeIndex(b);
      assert [probe][1..] == [];
      assert Assigned([probe]) == {};
      assert b[..i] + b[i..] == b;
      AssignedConcat(b[..i] + [probe], b[i..]);
      AssignedConcat(b[..i], [probe]);
      AssignedConcat(b[..i], b[i..]);
    }
  }

  lemma {:induction false} NothingAssigned(body: seq<Stmt>)
    requires forall i :: 0 <= i < |body| ==> IsStringStmt(body[i]) || body[i].Return?
    ensures Assigned(body) == {}
  {
    if body != [] { NothingAssigned(body[1..]); }
  }

  lemma MutateKeepsLocals(mutation: Option<Mutation>, fn: Function)
    ensures Assigned(MutateFunction(mutation, fn).body) == Assigned(fn.body)
  {
    if Selects(mutation, fn) && Substitutable(fn.body) {
      forall i | 0 <= i < |fn.body| ensures IsStringStmt(fn.body[i]) || fn.body[i].Return? {
        if !IsStringStmt(fn.body[i]) { ExecutableAt(fn.body, i); }
      }
      NothingAssigned(fn.body);
      NothingAssigned(Substitute(fn.body, mutation.value.replacement));
    }
  }

  lemma InstMerged(p: Probes, a: Frame, b: Frame)
    ensures InstFrame(p, a + b) == InstFrame(p, a) + InstFrame(p, b)
  {
  }

  lemma InstUnset(p: Probes, body: seq<Stmt>)
    ensures InstFrame(p, UnsetLocals(body)) == UnsetLocals(body)
  {
  }

  /** The entry frame of an instrumented function is the picture of the original's. */
  lemma EntryFrameSim(p: Probes, docs: bool, fn: Function, args: seq<Value>)
    requires |args| == |fn.params| && CleanValues(p, docs, args)
    ensures CleanFrame(p, docs, EntryFrame(fn, args))
    ensures EntryFrame(InstFunction(p, fn), InstValues(p, args)) == InstFrame(p, EntryFrame(fn, args))
  {
    InstKeepsLocals(p, fn);
    BindSim(p, docs, fn.params, args);
    InstUnset(p, fn.body);
    InstMerged(p, UnsetLocals(fn.body), BindParams(fn.params, args));
  }

  lemma GetAttrSim(p: Probes, docs: bool, fs: seq<Frame>, v: Value, attr: string)
    requires forall i :: 0 <= i < |fs| ==> CleanFrame(p, docs, fs[i])
    requires CleanValue(p, docs, v) && (docs || attr != "__doc__")
    ensures CleanEval(p, docs, GetAttr(fs, v, attr))
    ensures GetAttr(InstFrames(p, fs), InstValue(p, v), attr) == InstEval(p, GetAttr(fs, v, attr))
  {
    if v.FuncV? && docs {
      DocstringKept(p, v.fn);
    }
  }

  /** The probe keeps `__doc__` unless the docstring is the whole body. */
  lemma DocstringKept(p: Probes, fn: Function)
    requires HasToken(p, fn)
    ensures Docstring(InstFunction(p, fn).body) == Docstring(fn.body) <==> !DocOnly(fn.body)
  {
    var b := InstBlock(p, fn.body);
    if |fn.body| > 0 {
      assert b[0] == InstStmt(p, fn.body[0]);
    }
  }

  // ------------------------------------------------------------------
  // The simulation

  lemma {:induction false} EvalSim(p: Probes, docs: bool, m: Machine, fuel: nat, e: Expr, scope: seq<nat>, st: State)
    requires CleanExpr(docs, e) && CleanState(p, docs, st)
    requires AllReach(EvalExpr(m, fuel, e, scope, st).1.trace)
    ensures var (r, st') := EvalExpr(m, fuel, e, scope, st);
            && CleanEval(p, docs, r) && CleanState(p, docs, st')
            && EvalExpr(m, fuel, e, scope, InstState(p, st)) == (InstEval(p, r), InstState(p, st'))
    decreases fuel, 2, e
  {
    match e
    case Constant(_) =>
    case Name(id) => ReadNameSim(p, docs, st.frames, scope, id);
    case Attribute(o, attr) =>
      EvalSim(p, docs, m, fuel, o, scope, st);
      var (r, st1) := EvalExpr(m, fuel, o, scope, st);
      if r.Val? { GetAttrSim(p, docs, st1.frames, r.v, attr); }
    case BinOp(_, _, _) => BinOpSim(p, docs, m, fuel, e, scope, st);
    case Call(_, _) => CallExprSim(p, docs, m, fuel, e, scope, st);
  }

  lemma {:induction false} BinOpSim(
    p: Probes, docs: bool, m: Machine, fuel: nat, e: Expr, scope: seq<nat>, st: State)
    requires e.BinOp? && CleanExpr(docs, e) && CleanState(p, docs, st)
    requires AllReach(EvalExpr(m, fuel, e, scope, st).1.trace)
    ensures var (r, st') := EvalExpr(m, fuel, e, scope, st);
            && CleanEval(p, docs, r) && CleanState(p, docs, st')
            && EvalExpr(m, fuel, e, scope, InstState(p, st)) == (InstEval(p, r), InstState(p, st'))
    decreases fuel, 2, e, 0
  {
    EvalSim(p, docs, m, fuel, e.left, scope, st);
    var (a, st1) := EvalExpr(m, fuel, e.left, scope, st);
    if a.Val? { EvalSim(p, docs, m, fuel, e.right, scope, st1); }
  }

  lemma {:induction false} CallExprSim(
    p: Probes, docs: bool, m: Machine, fuel: nat, e: Expr, scope: seq<nat>, st: State)
    requires e.Call? && CleanExpr(docs, e) && CleanState(p, docs, st)
    requires AllReach(EvalExpr(m, fuel, e, scope, st).1.trace)
    ensures var (r, st') := EvalExpr(m, fuel, e, scope, st);
            && CleanEval(p, docs, r) && CleanState(p, docs, st')
            && EvalExpr(m, fuel, e, scope, InstState(p, st)) == (InstEval(p, r), InstState(p, st'))
    decreases fuel, 2, e, 0
  {
    EvalSim(p, docs, m, fuel, e.func, scope, st);
    var (f, st1) := EvalExpr(m, fuel, e.func, scope, st);
    if f.Val? {
      EvalsSim(p, docs, m, fuel, e.args, scope, st1);
      var (vs, st2) := EvalExprs(m, fuel, e.args, scope, st1);
      if vs.Vals? { CallSim(p, docs, m, fuel, f.v, vs.vs, st2); }
    }
  }

  lemma InstValuesCons(p: Probes, docs: bool, v: Value, vs: seq<Value>)
    ensures InstValues(p, [v] + vs) == [InstValue(p, v)] + InstValues(p, vs)
    ensures CleanValue(p, docs, v) && CleanValues(p, docs, vs) ==> CleanValues(p, docs, [v] + vs)
  {
  }

  lemma {:induction false} EvalsSim(
    p: Probes, docs: bool, m: Machine, fuel: nat, es: seq<Expr>, scope: seq<nat>, st: State)
    requires CleanExprs(docs, es) && CleanState(p, docs, st)
    requires AllReach(EvalExprs(m, fuel, es, scope, st).1.trace)
    ensures var (r, st') := EvalExprs(m, fuel, es, scope, st);
            && CleanEvals(p, docs, r) && CleanState(p, docs, st')
            && EvalExprs(m, fuel, es, scope, InstState(p, st)) == (InstEvals(p, r), InstState(p, st'))
    decreases fuel, 2, es
  {
    if es != [] {
      assert CleanExprs(docs, es[1..]);
      EvalSim(p, docs, m, fuel, es[0], scope, st);
      var (r, st1) := EvalExpr(m, fuel, es[0], scope, st);
      if r.Val? {
        EvalsSim(p, docs, m, fuel, es[1..], scope, st1);
        var (rest, _) := EvalExprs(m, fuel, es[1..], scope, st1);
        if rest.Vals? {
          InstValuesCons(p, docs, r.v, rest.vs);
        }
      }
    }
  }

  lemma {:induction false} CallSim(p: Probes, docs: bool, m: Machine, fuel: nat, f: Value, args: seq<Value>, st: State)
    requires CleanValue(p, docs, f) && CleanValues(p, docs, args) && CleanState(p, docs, st)
    requires AllReach(CallValue(m, fuel, f, args, st).1.trace)
    ensures var (r, st') := CallValue(m, fuel, f, args, st);
            && CleanEval(p, docs, r) && CleanState(p, docs, st')
            && CallValue(m, fuel, InstValue(p, f), InstValues(p, args), InstState(p, st))
               == (InstEval(p, r), InstState(p, st'))
    decreases fuel, 0
  {
    match f
    case ReachV => ReachSim(p, m, fuel, args, st);
    case FuncV(fn, scope) =>
      if |args| == |fn.params| && !fn.isAsync && fuel > 0 {
        var inner := [|st.frames|] + scope;
        var entered := EnteredSim(p, docs, fn, args, inner, st);
        EntryReaches(m, fuel - 1, fn.body, inner, entered, |st.trace|);
        EntrySim(p, docs, m, fuel - 1, fn, inner, entered, st.trace);
      }
    case _ =>
  }

  /** An entry that is part of a run in which all entries reach is one that reaches. */
  lemma EntryReaches(m: Machine, fuel: nat, b: seq<Stmt>, inner: seq<nat>, entered: State, i: nat)
    requires i < |entered.trace| && entered.trace[i].Enter?
    requires AllReach(ExecBlock(m, fuel, b, inner, inner, entered).1.trace)
    ensures entered.trace[i].reachable
  {
    assert ExecBlock(m, fuel, b, inner, inner, entered).1.trace[i] == entered.trace[i];
  }

  lemma ReachSim(p: Probes, m: Machine, fuel: nat, args: seq<Value>, st: State)
    ensures var (r, st') := CallValue(m, fuel, ReachV, args, st);
            && st'.frames == st.frames
            && CallValue(m, fuel, ReachV, InstValues(p, args), InstState(p, st)) == (InstEval(p, r), InstState(p, st'))
  {
    if |args| == 1 {
      var st' := CallValue(m, fuel, ReachV, args, st).1;
      assert st'.trace[..|st'.trace| - 1] == st.trace;
    }
  }

  /** The state in which a function body starts, and its picture before the probe has run. */
  lemma EnteredSim(
    p: Probes, docs: bool, fn: Function, args: seq<Value>, inner: seq<nat>, st: State)
    returns (entered: State)
    requires CleanFunction(p, docs, fn) && CleanValues(p, docs, args) && CleanState(p, docs, st)
    requires |args| == |fn.params|
    ensures entered == EntryState(fn, args, inner, st) && CleanState(p, docs, entered)
    ensures var enter := Enter(fn.lineno, fn.name, ReachVisible(entered.frames, inner));
            && entered.trace == st.trace + [enter]
            && EntryState(InstFunction(p, fn), InstValues(p, args), inner, InstState(p, st))
               == State(InstFrames(p, entered.frames), Expand(p, st.trace) + [enter])
  {
    entered := EntryState(fn, args, inner, st);
    EntryFrameSim(p, docs, fn, args);
    var frame := EntryFrame(InstFunction(p, fn), InstValues(p, args));
    assert InstFrames(p, st.frames) + [frame] == InstFrames(p, entered.frames);
    ReachVisibleSim(p, docs, entered.frames, inner);
  }

  /** Running an instrumented body is running the probe and then the visited original body. */
  lemma {:induction false} EntrySim(
    p: Probes, docs: bool, m: Machine, fuel: nat, fn: Function, inner: seq<nat>, entered: State, past: seq<Event>)
    requires CleanFunction(p, docs, fn) && CleanState(p, docs, entered)
    requires ReachVisible(entered.frames, inner) && entered.trace == past + [Enter(fn.lineno, fn.name, true)]
    requires AllReach(ExecBlock(m, fuel, fn.body, inner, inner, entered).1.trace)
    ensures var (o, st') := ExecBlock(m, fuel, fn.body, inner, inner, entered);
            && CleanOutcome(p, docs, o) && CleanState(p, docs, st')
            && ExecBlock(m, fuel, InstFunction(p, fn).body, inner, inner,
                         State(InstFrames(p, entered.frames), Expand(p, past) + [Enter(fn.lineno, fn.name, true)]))
               == (InstOutcome(p, o), InstState(p, st'))
    decreases fuel, 4
  {
    BlockSim(p, docs, m, fuel, fn.body, inner, inner, entered);
    var before := State(InstFrames(p, entered.frames), Expand(p, past) + [Enter(fn.lineno, fn.name, true)]);
    var probe := ProbeCall(p[ProbeKey(fn.lineno, fn.name)]);
    ReachVisibleSim(p, docs, entered.frames, inner);
    ProbeRuns(m, fuel, p[ProbeKey(fn.lineno, fn.name)], inner, before);
    assert entered.trace[..|entered.trace| - 1] == past;
    assert before.trace + [Reach(TokenAt(p, fn.lineno, fn.name))] == Expand(p, entered.trace);
    ProbedBody(m, fuel, InstBlock(p, fn.body), probe, inner, before, InstState(p, entered));
  }

  /** A body with a probe inserted runs as the probe followed by the body. */
  lemma ProbedBody(m: Machine, fuel: nat, body: seq<Stmt>, probe: Stmt, inner: seq<nat>, before: State, after: State)
    requires Exec(m, fuel, probe, inner, inner, before) == (Normal, after)
    ensures var i := ProbeIndex(body);
            ExecBlock(m, fuel, body[..i] + [probe] + body[i..], inner, inner, before)
                == ExecBlock(m, fuel, body, inner, inner, after)
  {
    var i := ProbeIndex(body);
    var full := body[..i] + [probe] + body[i..];
    if i == 1 {
      assert full == [body[0]] + ([probe] + body[1..]);
      StringStmtIsInert(m, fuel, body[0], inner, before);
      StringStmtIsInert(m, fuel, body[0], inner, after);
      BlockStep(m, fuel, body[0], [probe] + body[1..], inner, before);
      BlockStep(m, fuel, probe, body[1..], inner, before);
      assert body == [body[0]] + body[1..];
      BlockStep(m, fuel, body[0], body[1..], inner, after);
    } else {
      assert full == [probe] + body;
      BlockStep(m, fuel, probe, body, inner, before);
    }
  }

  lemma BlockStep(m: Machine, fuel: nat, s: Stmt, rest: seq<Stmt>, inner: seq<nat>, st: State)
    requires Exec(m, fuel, s, inner, inner, st).0.Normal?
    ensures ExecBlock(m, fuel, [s] + rest, inner, inner, st)
         == ExecBlock(m, fuel, rest, inner, inner, Exec(m, fuel, s, inner, inner, st).1)
  {
    assert ([s] + rest)[1..] == rest;
  }

  /** What the probe does is read the reach name and call whatever it means. */
  lemma ProbeCalls(m: Machine, fuel: nat, token: Const, inner: seq<nat>, before: State)
    ensures var found := ReadName(before.frames, inner, REACH_NAME);
            Exec(m, fuel, ProbeCall(token), inner, inner, before)
            == if !found.Val? then (Failed(found), before)
               else
                 var (r, st) := CallValue(m, fuel, found.v, [ConstV(token)], before);
                 (if r.Val? then Normal else Failed(r), st)
  {
    var args := [Constant(token)];
    assert args[1..] == [];
    assert EvalExprs(m, fuel, args[1..], inner, before) == (Vals([]), before);
    assert EvalExpr(m, fuel, args[0], inner, before) == (Val(ConstV(token)), before);
    assert EvalExprs(m, fuel, args, inner, before) == (Vals([ConstV(token)] + []), before);
    assert [ConstV(token)] + [] == [ConstV(token)];
    var call := Call(Name(REACH_NAME), args);
    var found := ReadName(before.frames, inner, REACH_NAME);
    assert EvalExpr(m, fuel, call.func, inner, before) == (found, before);
    if found.Val? {
      assert EvalExpr(m, fuel, call, inner, before) == CallValue(m, fuel, found.v, [ConstV(token)], before);
    }
  }

  /** Where the reach name is the builtin, the probe announces its token and changes nothing else. */
  lemma ProbeRuns(m: Machine, fuel: nat, token: Const, inner: seq<nat>, before: State)
    requires ReachVisible(before.frames, inner)
    ensures Exec(m, fuel, ProbeCall(token), inner, inner, before)
         == (Normal, before.(trace := before.trace + [Reach(Clip(Text(m, ConstV(token))))]))
  {
    ProbeCalls(m, fuel, token, inner, before);
  }

  /**
   At a function entry the probe does what it is there for if and only if the
   reach name means the builtin: any other callee raises, is not entered, or
   leaves its own entry in the trace first.
   */
  lemma ProbeRunsExactly(m: Machine, fuel: nat, token: Const, inner: seq<nat>, before: State)
    ensures Exec(m, fuel, ProbeCall(token), inner, inner, before)
            == (Normal, before.(trace := before.trace + [Reach(Clip(Text(m, ConstV(token))))]))
       <==> ReachVisible(before.frames, inner)
  {
    ProbeCalls(m, fuel, token, inner, before);
    var found := ReadName(before.frames, inner, REACH_NAME);
    if found.Val? && found.v.FuncV? {
      CalleeLeavesTrace(m, fuel, found.v, [ConstV(token)], before);
    }
  }

  /** A call of a user function announces nothing first. */
  lemma CalleeLeavesTrace(m: Machine, fuel: nat, f: Value, args: seq<Value>, st: State)
    requires f.FuncV?
    ensures var t := CallValue(m, fuel, f, args, st).1.trace;
            st.trace <= t && (|t| > |st.trace| ==> t[|st.trace|].Enter?)
  {
    var fn := f.fn;
    if |args| == |fn.params| && !fn.isAsync && fuel > 0 {
      var inner := [|st.frames|] + f.scope;
      var entered := EntryState(fn, args, inner, st);
      assert entered.trace[|st.trace|].Enter?;
      assert entered.trace <= ExecBlock(m, fuel - 1, fn.body, inner, inner, entered).1.trace;
    }
  }

  lemma StringStmtIsInert(m: Machine, fuel: nat, s: Stmt, scope: seq<nat>, st: State)
    requires IsStringStmt(s)
    ensures Exec(m, fuel, s, scope, scope, st) == (Normal, st)
  {
    assert EvalExpr(m, fuel, s.value, scope, st) == (Val(ConstV(s.value.value)), st);
  }

  lemma InstValuesSnoc(p: Probes, docs: bool, ds: seq<Value>, v: Value)
    requires ds != [] && CleanValues(p, docs, ds) && CleanValue(p, docs, v)
    ensures var n := |ds| - 1;
            && InstValues(p, ds)[n] == InstValue(p, ds[n]) && InstValues(p, ds)[..n] == InstValues(p, ds[..n])
            && CleanValue(p, docs, ds[n]) && CleanValues(p, docs, ds[..n])
            && InstValues(p, [v]) == [InstValue(p, v)] && CleanValues(p, docs, [v])
  {
  }

  lemma {:induction false} DecorateSim(
    p: Probes, docs: bool, m: Machine, fuel: nat, ds: seq<Value>, v: Value, st: State)
    requires CleanValues(p, docs, ds) && CleanValue(p, docs, v) && CleanState(p, docs, st)
    requires AllReach(Decorate(m, fuel, ds, v, st).1.trace)
    ensures var (r, st') := Decorate(m, fuel, ds, v, st);
            && CleanEval(p, docs, r) && CleanState(p, docs, st')
            && Decorate(m, fuel, InstValues(p, ds), InstValue(p, v), InstState(p, st))
                == (InstEval(p, r), InstState(p, st'))
    decreases fuel, 1, |ds|
  {
    if ds != [] {
      var n := |ds| - 1;
      InstValuesSnoc(p, docs, ds, v);
      CallSim(p, docs, m, fuel, ds[n], [v], st);
      var (r, st1) := CallValue(m, fuel, ds[n], [v], st);
      if r.Val? {
        assert Decorate(m, fuel, ds, v, st) == Decorate(m, fuel, ds[..n], r.v, st1);
        DecorateSim(p, docs, m, fuel, ds[..n], r.v, st1);
      }
    }
  }

  lemma {:induction false} StmtSim(
    p: Probes, docs: bool, m: Machine, fuel: nat, s: Stmt, scope: seq<nat>, outer: seq<nat>, st: State)
    requires CleanStmt(p, docs, s) && CleanState(p, docs, st)
    requires AllReach(Exec(m, fuel, s, scope, outer, st).1.trace)
    ensures var (o, st') := Exec(m, fuel, s, scope, outer, st);
            && CleanOutcome(p, docs, o) && CleanState(p, docs, st')
            && Exec(m, fuel, InstStmt(p, s), scope, outer, InstState(p, st)) == (InstOutcome(p, o), InstState(p, st'))
    decreases fuel, 3, s
  {
    match s
    case ExprStmt(e) => EvalSim(p, docs, m, fuel, e, scope, st);
    case Assign(target, e) =>
      EvalSim(p, docs, m, fuel, e, scope, st);
      var (r, st1) := EvalExpr(m, fuel, e, scope, st);
      if r.Val? { StoreSim(p, docs, st1, scope, target, r.v); }
    case Return(r) => if r.Some? { EvalSim(p, docs, m, fuel, r.value, scope, st); }
    case Raise(e) => EvalSim(p, docs, m, fuel, e, scope, st);
    case If(_, _, _) => IfSim(p, docs, m, fuel, s, scope, outer, st);
    case While(_, _) => WhileSim(p, docs, m, fuel, s, scope, outer, st);
    case Try(_, _, _, _) => TrySim(p, docs, m, fuel, s, scope, outer, st);
    case FunctionDef(_) => FunctionSim(p, docs, m, fuel, s, scope, outer, st);
    case ClassDef(_, _) => ClassSim(p, docs, m, fuel, s, scope, outer, st);
  }

  lemma {:induction false} IfSim(
    p: Probes, docs: bool, m: Machine, fuel: nat, s: Stmt, scope: seq<nat>, outer: seq<nat>, st: State)
    requires s.If? && CleanStmt(p, docs, s) && CleanState(p, docs, st)
    requires AllReach(Exec(m, fuel, s, scope, outer, st).1.trace)
    ensures var (o, st') := Exec(m, fuel, s, scope, outer, st);
            && CleanOutcome(p, docs, o) && CleanState(p, docs, st')
            && Exec(m, fuel, InstStmt(p, s), scope, outer, InstState(p, st)) == (InstOutcome(p, o), InstState(p, st'))
    decreases fuel, 3, s, 0
  {
    EvalSim(p, docs, m, fuel, s.test, scope, st);
    var (r, st1) := EvalExpr(m, fuel, s.test, scope, st);
    if r.Val? {
      if Truthy(r.v) { BlockSim(p, docs, m, fuel, s.body, scope, outer, st1); }
      else { BlockSim(p, docs, m, fuel, s.orelse, scope, outer, st1); }
    }
  }

  lemma {:induction false} DefineSim(
    p: Probes, docs: bool, m: Machine, fuel: nat, ds: seq<Value>, fn: Function, scope: seq<nat>, outer: seq<nat>,
    st: State)
    requires CleanValues(p, docs, ds) && CleanFunction(p, docs, fn) && CleanState(p, docs, st)
    requires AllReach(Define(m, fuel, ds, fn, scope, outer, st).1.trace)
    ensures var (o, st') := Define(m, fuel, ds, fn, scope, outer, st);
            && CleanOutcome(p, docs, o) && CleanState(p, docs, st')
            && Define(m, fuel, InstValues(p, ds), InstFunction(p, fn), scope, outer, InstState(p, st))
                == (InstOutcome(p, o), InstState(p, st'))
    decreases fuel, 2
  {
    DecorateSim(p, docs, m, fuel, ds, FuncV(fn, outer), st);
    var (r, st1) := Decorate(m, fuel, ds, FuncV(fn, outer), st);
    if r.Val? { StoreSim(p, docs, st1, scope, fn.name, r.v); }
  }

  lemma {:induction false} FunctionSim(
    p: Probes, docs: bool, m: Machine, fuel: nat, s: Stmt, scope: seq<nat>, outer: seq<nat>, st: State)
    requires s.FunctionDef? && CleanStmt(p, docs, s) && CleanState(p, docs, st)
    requires AllReach(Exec(m, fuel, s, scope, outer, st).1.trace)
    ensures var (o, st') := Exec(m, fuel, s, scope, outer, st);
            && CleanOutcome(p, docs, o) && CleanState(p, docs, st')
            && Exec(m, fuel, InstStmt(p, s), scope, outer, InstState(p, st)) == (InstOutcome(p, o), InstState(p, st'))
    decreases fuel, 3, s, 0
  {
    EvalsSim(p, docs, m, fuel, s.fn.decorators, scope, st);
    var (ds, st1) := EvalExprs(m, fuel, s.fn.decorators, scope, st);
    if ds.Vals? { DefineSim(p, docs, m, fuel, ds.vs, s.fn, scope, outer, st1); }
  }

  lemma {:induction false} ClassSim(
    p: Probes, docs: bool, m: Machine, fuel: nat, s: Stmt, scope: seq<nat>, outer: seq<nat>, st: State)
    requires s.ClassDef? && CleanStmt(p, docs, s) && CleanState(p, docs, st)
    requires AllReach(Exec(m, fuel, s, scope, outer, st).1.trace)
    ensures var (o, st') := Exec(m, fuel, s, scope, outer, st);
            && CleanOutcome(p, docs, o) && CleanState(p, docs, st')
            && Exec(m, fuel, InstStmt(p, s), scope, outer, InstState(p, st)) == (InstOutcome(p, o), InstState(p, st'))
    decreases fuel, 3, s, 0
  {
    var frame := |st.frames|;
    var st0 := st.(frames := st.frames + [PendingMembers(s.members)]);
    AssignedInst(p, s.members);
    assert InstFrame(p, PendingMembers(s.members)) == PendingMembers(InstBlock(p, s.members));
    assert InstFrames(p, st.frames) + [PendingMembers(InstBlock(p, s.members))] == InstFrames(p, st0.frames);
    BlockSim(p, docs, m, fuel, s.members, [frame] + outer, outer, st0);
    var (o, st1) := ExecBlock(m, fuel, s.members, [frame] + outer, outer, st0);
    if o.Normal? { StoreSim(p, docs, st1, scope, s.name, ClassV(s.name, frame)); }
  }

  lemma {:induction false} TurnSim(
    p: Probes, docs: bool, m: Machine, fuel: nat, s: Stmt, scope: seq<nat>, outer: seq<nat>, st: State)
    requires s.While? && CleanStmt(p, docs, s) && CleanState(p, docs, st)
    requires AllReach(ExecTurn(m, fuel, s, scope, outer, st).1.trace)
    ensures var (o, st') := ExecTurn(m, fuel, s, scope, outer, st);
            && (o.Some? ==> CleanOutcome(p, docs, o.value)) && CleanState(p, docs, st')
            && ExecTurn(m, fuel, InstStmt(p, s), scope, outer, InstState(p, st))
               == (if o.Some? then Some(InstOutcome(p, o.value)) else None, InstState(p, st'))
    decreases fuel, 3, s, 0
  {
    EvalSim(p, docs, m, fuel, s.cond, scope, st);
    var (r, st1) := EvalExpr(m, fuel, s.cond, scope, st);
    if r.Val? && Truthy(r.v) { BlockSim(p, docs, m, fuel, s.loop, scope, outer, st1); }
  }

  lemma {:induction false} WhileSim(
    p: Probes, docs: bool, m: Machine, fuel: nat, s: Stmt, scope: seq<nat>, outer: seq<nat>, st: State)
    requires s.While? && CleanStmt(p, docs, s) && CleanState(p, docs, st)
    requires AllReach(ExecWhile(m, fuel, s, scope, outer, st).1.trace)
    ensures var (o, st') := ExecWhile(m, fuel, s, scope, outer, st);
            && CleanOutcome(p, docs, o) && CleanState(p, docs, st')
            && ExecWhile(m, fuel, InstStmt(p, s), scope, outer, InstState(p, st))
               == (InstOutcome(p, o), InstState(p, st'))
    decreases fuel, 3, s, 1
  {
    TurnSim(p, docs, m, fuel, s, scope, outer, st);
    var (ended, st1) := ExecTurn(m, fuel, s, scope, outer, st);
    if ended.None? && fuel > 0 { WhileSim(p, docs, m, fuel - 1, s, scope, outer, st1); }
  }

  lemma {:induction false} GuardedSim(
    p: Probes, docs: bool, m: Machine, fuel: nat, s: Stmt, scope: seq<nat>, outer: seq<nat>, st: State)
    requires s.Try? && CleanStmt(p, docs, s) && CleanState(p, docs, st)
    requires AllReach(ExecGuarded(m, fuel, s, scope, outer, st).1.trace)
    ensures var (o, st') := ExecGuarded(m, fuel, s, scope, outer, st);
            && CleanOutcome(p, docs, o) && CleanState(p, docs, st')
            && ExecGuarded(m, fuel, InstStmt(p, s), scope, outer, InstState(p, st))
               == (InstOutcome(p, o), InstState(p, st'))
    decreases fuel, 3, s, 0
  {
    BlockSim(p, docs, m, fuel, s.guarded, scope, outer, st);
    var (o, st1) := ExecBlock(m, fuel, s.guarded, scope, outer, st);
    if o.Raised? && s.catches { BlockSim(p, docs, m, fuel, s.handler, scope, outer, st1); }
  }

  lemma {:induction false} TrySim(
    p: Probes, docs: bool, m: Machine, fuel: nat, s: Stmt, scope: seq<nat>, outer: seq<nat>, st: State)
    requires s.Try? && CleanStmt(p, docs, s) && CleanState(p, docs, st)
    requires AllReach(ExecTry(m, fuel, s, scope, outer, st).1.trace)
    ensures var (o, st') := ExecTry(m, fuel, s, scope, outer, st);
            && CleanOutcome(p, docs, o) && CleanState(p, docs, st')
            && ExecTry(m, fuel, InstStmt(p, s), scope, outer, InstState(p, st))
               == (InstOutcome(p, o), InstState(p, st'))
    decreases fuel, 3, s, 1
  {
    GuardedSim(p, docs, m, fuel, s, scope, outer, st);
    var (o, st1) := ExecGuarded(m, fuel, s, scope, outer, st);
    if !o.OutOfFuel? { BlockSim(p, docs, m, fuel, s.finalbody, scope, outer, st1); }
  }

  lemma {:induction false} BlockSim(
    p: Probes, docs: bool, m: Machine, fuel: nat, b: seq<Stmt>, scope: seq<nat>, outer: seq<nat>, st: State)
    requires CleanBlock(p, docs, b) && CleanState(p, docs, st)
    requires AllReach(ExecBlock(m, fuel, b, scope, outer, st).1.trace)
    ensures var (o, st') := ExecBlock(m, fuel, b, scope, outer, st);
            && CleanOutcome(p, docs, o) && CleanState(p, docs, st')
            && ExecBlock(m, fuel, InstBlock(p, b), scope, outer, InstState(p, st))
                == (InstOutcome(p, o), InstState(p, st'))
    decreases fuel, 3, b
  {
    if b != [] {
      StmtSim(p, docs, m, fuel, b[0], scope, outer, st);
      var (o, st1) := Exec(m, fuel, b[0], scope, outer, st);
      assert InstBlock(p, b)[1..] == InstBlock(p, b[1..]);
      if o.Normal? { BlockSim(p, docs, m, fuel, b[1..], scope, outer, st1); }
    }
  }

  // ------------------------------------------------------------------
  // Theorems about whole modules

  /**
   Importing the instrumented module ends as importing the (substituted)
   original does, leaves the same frames with instrumented functions in them,
   and has the original's trace with each entry followed by its token.
   */
  lemma MeaningPreserved(p: Probes, docs: bool, mutation: Option<Mutation>, m: Machine, fuel: nat, mod: Module)
    requires CleanBlock(p, docs, MutateBlock(mutation, mod.body))
    requires AllReach(RunModule(m, fuel, Module(MutateBlock(mutation, mod.body))).1.trace)
    ensures var (o, st) := RunModule(m, fuel, Module(MutateBlock(mutation, mod.body)));
            RunModule(m, fuel, InstModule(p, mutation, mod)) == (InstOutcome(p, o), InstState(p, st))
  {
    var st := State([map[]], []);
    assert InstState(p, st) == st by {
      var empty: Frame := map[];
      assert InstFrame(p, empty) == empty;
    }
    BlockSim(p, docs, m, fuel, MutateBlock(mutation, mod.body), [0], [0], st);
  }

  predicate HoldsCode(v: Value) {
    v.FuncV? || v.CoroutineV?
  }

  /** What the run of the unchanged module leaves behind is what the instrumented run leaves behind. */
  lemma ResultsPreserved(p: Probes, docs: bool, m: Machine, fuel: nat, mod: Module, name: string)
    requires CleanBlock(p, docs, mod.body) && AllReach(RunModule(m, fuel, mod).1.trace)
    ensures var (o, st) := RunModule(m, fuel, mod);
            var (o', st') := RunModule(m, fuel, InstModule(p, None, mod));
            && (o'.Normal? <==> o.Normal?) && (o'.OutOfFuel? <==> o.OutOfFuel?)
            && (o.Raised? && o.exc.ConstV? ==> o' == o)
            && |st'.frames| == |st.frames|
            && (forall f :: 0 <= f < |st.frames| ==> st'.frames[f].Keys == st.frames[f].Keys)
            && (forall f :: 0 <= f < |st.frames| && name in st.frames[f] && !HoldsCode(st.frames[f][name]) ==>
                  st'.frames[f][name] == st.frames[f][name])
  {
    assert MutateBlock(None, mod.body) == mod.body;
    MeaningPreserved(p, docs, None, m, fuel, mod);
    var (o, st) := RunModule(m, fuel, mod);
    var (o', st') := RunModule(m, fuel, InstModule(p, None, mod));
    assert o' == InstOutcome(p, o) && st'.frames == InstFrames(p, st.frames);
    forall f | 0 <= f < |st.frames|
      ensures st'.frames[f].Keys == st.frames[f].Keys
    {
      assert st'.frames[f] == InstFrame(p, st.frames[f]);
    }
  }

  /** The functions entered, in order. */
  function Entered(trace: seq<Event>): seq<(nat, string)> {
    if trace == [] then [] else
    var last := trace[|trace| - 1];
    Entered(trace[..|trace| - 1]) + (if last.Enter? then [(last.lineno, last.name)] else [])
  }

  /** The tokens the observer received, in order. */
  function Reached(trace: seq<Event>): seq<string> {
    if trace == [] then [] else
    var last := trace[|trace| - 1];
    Reached(trace[..|trace| - 1]) + (if last.Reach? then [last.text] else [])
  }

  /** A token for every entry, between whatever the module itself announced. */
  function Announced(p: Probes, trace: seq<Event>): seq<string> {
    if trace == [] then [] else
    var last := trace[|trace| - 1];
    Announced(p, trace[..|trace| - 1]) + [if last.Enter? then TokenAt(p, last.lineno, last.name) else last.text]
  }

  lemma {:induction false} EnteredConcat(a: seq<Event>, b: seq<Event>)
    ensures Entered(a + b) == Entered(a) + Entered(b) && Reached(a + b) == Reached(a) + Reached(b)
  {
    if b == [] {
      assert a + b == a;
    } else {
      var n := |a + b| - 1;
      assert (a + b)[..n] == a + b[..|b| - 1] && (a + b)[n] == b[|b| - 1];
      EnteredConcat(a, b[..|b| - 1]);
    }
  }

  lemma {:induction false} ExpandReached(p: Probes, t: seq<Event>)
    ensures Entered(Expand(p, t)) == Entered(t)
    ensures Reached(Expand(p, t)) == Announced(p, t)
  {
    if t != [] {
      var init, last := t[..|t| - 1], t[|t| - 1];
      ExpandReached(p, init);
      if last.Enter? {
        var token := Reach(TokenAt(p, last.lineno, last.name));
        PairSummary(last, token);
        EnteredConcat(Expand(p, init), [last, token]);
      } else {
        assert [last][..0] == [];
        EnteredConcat(Expand(p, init), [last]);
      }
    }
  }

  lemma PairSummary(entry: Event, token: Event)
    requires entry.Enter? && token.Reach?
    ensures Entered([entry, token]) == [(entry.lineno, entry.name)] && Reached([entry, token]) == [token.text]
  {
    var one, two := [entry], [entry, token];
    assert one[..0] == [] && two[..1] == one && two[1] == token;
    assert Entered(one) == [] + [(entry.lineno, entry.name)] && Reached(one) == [] + [];
    assert Entered(two) == Entered(one) + [] && Reached(two) == Reached(one) + [token.text];
  }

  /** The tokens of a sequence of entries. */
  function TokensOf(p: Probes, entered: seq<(nat, string)>): seq<string> {
    if entered == [] then [] else
    var last := entered[|entered| - 1];
    TokensOf(p, entered[..|entered| - 1]) + [TokenAt(p, last.0, last.1)]
  }

  lemma {:induction false} AnnouncedEntries(p: Probes, t: seq<Event>)
    requires Reached(t) == []
    ensures Announced(p, t) == TokensOf(p, Entered(t))
  {
    if t != [] {
      var last := t[|t| - 1];
      AnnouncedEntries(p, t[..|t| - 1]);
      var before := Entered(t[..|t| - 1]);
      assert (before + [(last.lineno, last.name)])[..|before|] == before;
    }
  }

  /**
   The instrumented run enters the functions the original run enters, in the
   same order, and the observer receives one token per entry, in that order,
   between whatever the module itself announced. A module that announces
   nothing yields exactly the tokens of the functions entered.
   */
  lemma ReachTraceIsEntries(p: Probes, docs: bool, m: Machine, fuel: nat, mod: Module)
    requires CleanBlock(p, docs, mod.body) && AllReach(RunModule(m, fuel, mod).1.trace)
    ensures var t, t' := RunModule(m, fuel, mod).1.trace, RunModule(m, fuel, InstModule(p, None, mod)).1.trace;
            && Entered(t') == Entered(t)
            && Reached(t') == Announced(p, t)
            && (Reached(t) == [] ==> Reached(t') == TokensOf(p, Entered(t)))
  {
    assert MutateBlock(None, mod.body) == mod.body;
    MeaningPreserved(p, docs, None, m, fuel, mod);
    var t := RunModule(m, fuel, mod).1.trace;
    ExpandReached(p, t);
    if Reached(t) == [] { AnnouncedEntries(p, t); }
  }
}
