/**
 Inputs on which the reach name does not mean the builtin where a function is
 entered: a parameter of that name, and a local that is assigned later. All of
 them define `f(param)` and call it with 0.
 */
module Shadowing {
  import opened Common
  import opened PyAst
  import opened PyEval
  import opened Instrumentation
  import opened InstrumentationMeaning

  const TOKEN: Const := StrConst("t")
  const PROBE: Stmt := ProbeCall(TOKEN)
  const CALL: Expr := Call(Name("f"), [Constant(IntConst(0))])
  const RETURN: Stmt := Return(Some(Constant(IntConst(1))))
  const ASSIGN: Stmt := Assign(REACH_NAME, Constant(IntConst(1)))

  function Tokens(): Probes {
    map[ProbeKey(1, "f") := TOKEN]
  }

  function Callee(param: string, body: seq<Stmt>): Function {
    Function(false, 1, "f", [param], [], body)
  }

  function Calling(param: string, body: seq<Stmt>): Module {
    Module([FunctionDef(Callee(param, body)), ExprStmt(CALL)])
  }

  /** After the definition. */
  function Defined(param: string, body: seq<Stmt>): State {
    State([map["f" := FuncV(Callee(param, body), [0])]], [])
  }

  /** Where the body starts. */
  function AtEntry(param: string, body: seq<Stmt>): State {
    EntryState(Callee(param, body), [ConstV(IntConst(0))], [1, 0], Defined(param, body))
  }

  lemma Defines(m: Machine, param: string, body: seq<Stmt>)
    ensures Exec(m, 1, FunctionDef(Callee(param, body)), [0], [0], State([map[]], [])) == (Normal, Defined(param, body))
  {
    var fn := Callee(param, body);
    var v := FuncV(fn, [0]);
    var st0 := State([map[]], []);
    assert EvalExprs(m, 1, fn.decorators, [0], st0) == (Vals([]), st0);
    assert Decorate(m, 1, [], v, st0) == (Val(v), st0);
    assert st0.frames[0 := map["f" := v]] == [map["f" := v]];
  }

  lemma Calls(m: Machine, param: string, body: seq<Stmt>)
    ensures var (o, st) := ExecBlock(m, 0, body, [1, 0], [1, 0], AtEntry(param, body));
            EvalExpr(m, 1, CALL, [0], Defined(param, body)) == (CallResult(o), st)
  {
    var v := FuncV(Callee(param, body), [0]);
    var st1 := Defined(param, body);
    assert Lookup(st1.frames, [0], "f") == Some(v);
    var args, vs := [Constant(IntConst(0))], [ConstV(IntConst(0))];
    assert args[1..] == [];
    assert EvalExprs(m, 1, args[1..], [0], st1) == (Vals([]), st1);
    assert EvalExprs(m, 1, args, [0], st1) == (Vals([ConstV(IntConst(0))] + []), st1);
    assert [ConstV(IntConst(0))] + [] == vs;
    assert EvalExpr(m, 1, CALL, [0], st1) == CallValue(m, 1, v, vs, st1);
    assert [|st1.frames|] + [0] == [1, 0];
  }

  /** How the module ends, given how the body ends. */
  function Ended(o: Outcome): Outcome {
    if o.Returned? then Normal else o
  }

  lemma CallingRuns(m: Machine, param: string, body: seq<Stmt>)
    ensures var (o, st) := ExecBlock(m, 0, body, [1, 0], [1, 0], AtEntry(param, body));
            RunModule(m, 1, Calling(param, body)) == (Ended(o), st)
  {
    var b := Calling(param, body).body;
    Defines(m, param, body);
    Calls(m, param, body);
    assert b[1..] == [ExprStmt(CALL)];
    assert b == [b[0]] + b[1..];
    BlockStep(m, 1, b[0], b[1..], [0], State([map[]], []));
    AloneInBlock(m, ExprStmt(CALL), Defined(param, body));
  }

  lemma AloneInBlock(m: Machine, s: Stmt, st: State)
    ensures ExecBlock(m, 1, [s], [0], [0], st) == Exec(m, 1, s, [0], [0], st)
  {
    assert [s][1..] == [];
  }

  /** The entry frame, whatever the body assigns. */
  lemma EntryBindings(param: string, body: seq<Stmt>)
    ensures var frame := AtEntry(param, body).frames[1];
            && frame == UnsetLocals(body) + map[param := ConstV(IntConst(0))]
            && AtEntry(param, body).frames == [map["f" := FuncV(Callee(param, body), [0])], frame]
  {
    var vs := [ConstV(IntConst(0))];
    assert [param][1..] == [] && vs[1..] == [];
    assert BindParams([param], vs) == map[param := ConstV(IntConst(0))];
  }

  // ------------------------------------------------------------------
  // Instrumenting them

  /** Simple statements: constants are assigned and returned. */
  predicate IsPlain(s: Stmt) {
    s == RETURN || s == ASSIGN
  }

  lemma {:induction false} PlainBlock(p: Probes, body: seq<Stmt>)
    requires forall i :: 0 <= i < |body| ==> IsPlain(body[i])
    ensures InstBlock(p, body) == body
  {
    if body != [] {
      PlainBlock(p, body[1..]);
      assert [body[0]] + body[1..] == body;
    }
  }

  lemma CalleeInstrumented(param: string, body: seq<Stmt>)
    requires forall i :: 0 <= i < |body| ==> IsPlain(body[i])
    ensures InstFunction(Tokens(), Callee(param, body)) == Callee(param, [PROBE] + body)
  {
    PlainBlock(Tokens(), body);
    assert body[..0] + [PROBE] + body[0..] == [PROBE] + body;
  }

  lemma CallingInstrumented(param: string, body: seq<Stmt>)
    requires forall i :: 0 <= i < |body| ==> IsPlain(body[i])
    ensures InstModule(Tokens(), None, Calling(param, body)) == Calling(param, [PROBE] + body)
  {
    var mod := Calling(param, body);
    CalleeInstrumented(param, body);
    assert MutateBlock(None, mod.body) == mod.body;
    InstBlockAt(Tokens(), mod.body, 0);
    InstBlockAt(Tokens(), mod.body, 1);
    assert InstBlock(Tokens(), mod.body) == Calling(param, [PROBE] + body).body;
  }

  /** The probed body goes no further than a probe that raises. */
  lemma ProbedBodyRaises(m: Machine, param: string, body: seq<Stmt>, x: Value)
    requires Exec(m, 0, PROBE, [1, 0], [1, 0], AtEntry(param, [PROBE] + body))
         == (Raised(x), AtEntry(param, [PROBE] + body))
    ensures ExecBlock(m, 0, [PROBE] + body, [1, 0], [1, 0], AtEntry(param, [PROBE] + body))
         == (Raised(x), AtEntry(param, [PROBE] + body))
  {
    assert ([PROBE] + body)[0] == PROBE;
  }

  lemma ReturnRuns(m: Machine, st: State)
    ensures ExecBlock(m, 0, [RETURN], [1, 0], [1, 0], st) == (Returned(ConstV(IntConst(1))), st)
  {
    assert [RETURN][0] == RETURN;
  }

  // ------------------------------------------------------------------
  // A parameter

  /** With the reach name bound to a number, the probe raises. */
  lemma ParameterProbe(m: Machine, body: seq<Stmt>)
    ensures Exec(m, 0, PROBE, [1, 0], [1, 0], AtEntry(REACH_NAME, body))
         == (Raised(Error("TypeError")), AtEntry(REACH_NAME, body))
    ensures AtEntry(REACH_NAME, body).trace == [Enter(1, "f", false)]
  {
    EntryBindings(REACH_NAME, body);
    assert Lookup(AtEntry(REACH_NAME, body).frames, [1, 0], REACH_NAME) == Some(ConstV(IntConst(0)));
    ProbeCalls(m, 0, TOKEN, [1, 0], AtEntry(REACH_NAME, body));
  }

  /** The probe calls whatever the reach name is bound to: shadowing it changes how the module ends. */
  lemma ShadowingBreaksMeaning(m: Machine)
    ensures var mod := Calling(REACH_NAME, [RETURN]);
            && RunModule(m, 1, mod).0 == Normal && !AllReach(RunModule(m, 1, mod).1.trace)
            && RunModule(m, 1, InstModule(Tokens(), None, mod)).0 == Raised(Error("TypeError"))
  {
    var ret := [RETURN];
    CallingInstrumented(REACH_NAME, ret);
    CallingRuns(m, REACH_NAME, ret);
    CallingRuns(m, REACH_NAME, [PROBE] + ret);
    ReturnRuns(m, AtEntry(REACH_NAME, ret));
    ParameterProbe(m, ret);
    ParameterProbe(m, [PROBE] + ret);
    ProbedBodyRaises(m, REACH_NAME, ret, Error("TypeError"));
    assert AtEntry(REACH_NAME, ret).trace[0] == Enter(1, "f", false);
  }

  // ------------------------------------------------------------------
  // A local that is assigned later

  /** With the reach name an unset local, the probe raises. */
  lemma LocalProbe(m: Machine, body: seq<Stmt>)
    requires REACH_NAME in Assigned(body)
    ensures Exec(m, 0, PROBE, [1, 0], [1, 0], AtEntry("x", body))
         == (Raised(Error("UnboundLocalError")), AtEntry("x", body))
    ensures AtEntry("x", body).trace == [Enter(1, "f", false)]
  {
    EntryBindings("x", body);
    var frames := AtEntry("x", body).frames;
    assert |REACH_NAME| != |"x"|;
    assert Lookup(frames, [1, 0], REACH_NAME) == Some(Unset);
    ProbeCalls(m, 0, TOKEN, [1, 0], AtEntry("x", body));
  }

  /** A function that assigns the reach name makes it a local: the probe reads it before it is set. */
  lemma AssigningBreaksMeaning(m: Machine)
    ensures var mod := Calling("x", [ASSIGN, RETURN]);
            && RunModule(m, 1, mod).0 == Normal && !AllReach(RunModule(m, 1, mod).1.trace)
            && RunModule(m, 1, InstModule(Tokens(), None, mod)).0 == Raised(Error("UnboundLocalError"))
  {
    var body := [ASSIGN, RETURN];
    CallingInstrumented("x", body);
    CallingRuns(m, "x", body);
    CallingRuns(m, "x", [PROBE] + body);
    assert body[1..] == [RETURN] && ([PROBE] + body)[1..] == body;
    assert REACH_NAME in Assigned(body) && Assigned([PROBE] + body) == {} + Assigned(body);
    LocalProbe(m, body);
    LocalProbe(m, [PROBE] + body);
    ProbedBodyRaises(m, "x", body, Error("UnboundLocalError"));
    var st := AtEntry("x", body);
    var (o, st1) := Exec(m, 0, ASSIGN, [1, 0], [1, 0], st);
    assert o == Normal && st1.trace == st.trace;
    ReturnRuns(m, st1);
    assert ExecBlock(m, 0, body, [1, 0], [1, 0], st) == ExecBlock(m, 0, body[1..], [1, 0], [1, 0], st1);
    assert st.trace[0] == Enter(1, "f", false);
  }

  // ------------------------------------------------------------------
  // Why the exact condition is for modules that do not read the reach name

  /** Calls the shadowing function and, should that raise, announces its token itself. */
  function Imitating(body: seq<Stmt>): Module {
    Module([FunctionDef(Callee(REACH_NAME, body)), Try([ExprStmt(CALL)], true, [PROBE], [])])
  }

  lemma ImitatingTries(m: Machine, body: seq<Stmt>)
    ensures var (o, st) := ExecBlock(m, 0, body, [1, 0], [1, 0], AtEntry(REACH_NAME, body));
            ExecTry(m, 1, Imitating(body).body[1], [0], [0], Defined(REACH_NAME, body))
            == if o.Raised? then Exec(m, 1, PROBE, [0], [0], st) else (Ended(o), st)
  {
    var st1 := Defined(REACH_NAME, body);
    Calls(m, REACH_NAME, body);
    var (o, st) := ExecBlock(m, 0, body, [1, 0], [1, 0], AtEntry(REACH_NAME, body));
    AloneInBlock(m, ExprStmt(CALL), st1);
    assert ExecBlock(m, 1, [ExprStmt(CALL)], [0], [0], st1) == (Ended(o), st);
    AloneInBlock(m, PROBE, st);
  }

  lemma ImitatingRuns(m: Machine, body: seq<Stmt>)
    ensures var (o, st) := ExecBlock(m, 0, body, [1, 0], [1, 0], AtEntry(REACH_NAME, body));
            RunModule(m, 1, Imitating(body)) == if o.Raised? then Exec(m, 1, PROBE, [0], [0], st) else (Ended(o), st)
  {
    var b := Imitating(body).body;
    Defines(m, REACH_NAME, body);
    ImitatingTries(m, body);
    assert b[1..] == [b[1]];
    assert b == [b[0]] + b[1..];
    BlockStep(m, 1, b[0], b[1..], [0], State([map[]], []));
    AloneInBlock(m, b[1], Defined(REACH_NAME, body));
  }

  lemma ImitatingInstrumented(body: seq<Stmt>)
    requires forall i :: 0 <= i < |body| ==> IsPlain(body[i])
    ensures InstModule(Tokens(), None, Imitating(body)) == Imitating([PROBE] + body)
  {
    var mod := Imitating(body);
    CalleeInstrumented(REACH_NAME, body);
    assert MutateBlock(None, mod.body) == mod.body;
    var guarded, handler := [ExprStmt(CALL)], [PROBE];
    assert guarded[1..] == [] && handler[1..] == [];
    assert InstBlock(Tokens(), guarded) == guarded && InstBlock(Tokens(), handler) == handler;
    InstBlockAt(Tokens(), mod.body, 0);
    InstBlockAt(Tokens(), mod.body, 1);
    assert InstBlock(Tokens(), mod.body) == Imitating([PROBE] + body).body;
  }

  /** The entry state when the body assigns nothing. */
  function Entering(body: seq<Stmt>): State {
    State([map["f" := FuncV(Callee(REACH_NAME, body), [0])], map[REACH_NAME := ConstV(IntConst(0))]],
          [Enter(1, "f", false)])
  }

  lemma EntersWithoutLocals(m: Machine, body: seq<Stmt>)
    requires Assigned(body) == {}
    ensures AtEntry(REACH_NAME, body) == Entering(body)
  {
    EntryBindings(REACH_NAME, body);
    ParameterProbe(m, body);
    assert UnsetLocals(body) + map[REACH_NAME := ConstV(IntConst(0))] == map[REACH_NAME := ConstV(IntConst(0))];
  }

  lemma ImitatingPicture(body: seq<Stmt>)
    requires forall i :: 0 <= i < |body| ==> IsPlain(body[i])
    ensures var after := Entering([PROBE] + body);
            InstState(Tokens(), Entering(body)) == after.(trace := after.trace + [Reach("t")])
  {
    var p, st, after := Tokens(), Entering(body), Entering([PROBE] + body);
    CalleeInstrumented(REACH_NAME, body);
    assert InstFrame(p, st.frames[0]) == after.frames[0];
    assert InstFrame(p, st.frames[1]) == after.frames[1];
    assert InstFrames(p, st.frames) == after.frames;
    assert st.trace[..0] == [];
    assert Expand(p, st.trace) == [] + [Enter(1, "f", false), Reach("t")];
    assert [] + [Enter(1, "f", false), Reach("t")] == after.trace + [Reach("t")];
  }

  /** A module that announces a token itself can make up for its failing probe: the picture fits all the same. */
  lemma ImitationHidesShadowing(m: Machine)
    ensures var mod := Imitating([RETURN]);
            var (o, st) := RunModule(m, 1, mod);
            && RunModule(m, 1, InstModule(Tokens(), None, mod)) == (InstOutcome(Tokens(), o), InstState(Tokens(), st))
            && !AllReach(st.trace)
  {
    var ret := [RETURN];
    var probed := [PROBE] + ret;
    ImitatingInstrumented(ret);
    ImitatingRuns(m, ret);
    ImitatingRuns(m, probed);
    ReturnRuns(m, AtEntry(REACH_NAME, ret));
    ParameterProbe(m, ret);
    ParameterProbe(m, probed);
    ProbedBodyRaises(m, REACH_NAME, ret, Error("TypeError"));
    GlobalReaches(probed);
    ProbeRuns(m, 1, TOKEN, [0], AtEntry(REACH_NAME, probed));
    NothingAssigned(ret);
    AssignedConcat([PROBE], ret);
    EntersWithoutLocals(m, ret);
    EntersWithoutLocals(m, probed);
    ImitatingPicture(ret);
    assert AtEntry(REACH_NAME, ret).trace[0] == Enter(1, "f", false);
  }

  /** At module level the reach name is the builtin. */
  lemma GlobalReaches(body: seq<Stmt>)
    ensures ReachVisible(AtEntry(REACH_NAME, body).frames, [0])
  {
    assert [0][1..] == [];
    assert |REACH_NAME| != |"f"|;
  }
}
