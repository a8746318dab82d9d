/** Textual order, which is all the walker and the code generator check, does not make a kernel a map: a local
    assigned on some paths only keeps the value an earlier element left in its register. */
module LeakyLocal {
  import opened Wrappers
  import opened Ir
  import opened Machine
  import opened Cfg
  import opened Lowering
  import opened Semantics
  import opened ScalarKernel
  import opened MapKernel
  import EC = ExprCorrect
  import P = PySemantics
  import Py = PyAst
  import V = SimdKernel
  import W = Walker

  /** `if x > 0: y = x` followed by `return y`. */
  function Leaky(): W.Callable {
    var x, y := Py.Name("x"), Py.Name("y");
    W.Def(["x"], [Py.If(Py.Compare(x, [Py.Gt], [Py.IntConst(0)]), [Py.Assign([y], x)], []), Py.Return(Some(y))])
  }

  function LeakyKernel(): Kernel {
    Kernel(I64, I64, [If(Compare(Gt, Param, ConstI64(0)), [Assign("y", I64, Param)], []), Return(Local("y"))])
  }

  /** Python raises on 0. */
  lemma LeakyRaises(fuel: nat)
    ensures P.Exec(fuel, Leaky().body, map["x" := 0]) == P.Raised
  {
    var ss, env := Leaky().body, map["x" := 0];
    assert P.ExecStmt(fuel, ss[0], env) == P.Normal(env);
    assert ss[1..][0] == ss[1] && P.ExecStmt(fuel, ss[1], env) == P.Raised;
    assert P.Exec(fuel, ss[1..], env) == P.Raised;
  }

  lemma LeakyWalked()
    ensures W.KernelOf(Leaky(), I64) == Some(LeakyKernel())
  {
    var ss, ir := Leaky().body, LeakyKernel().body;
    var f := W.Fn("x", I64);
    var s0 := W.State(map[], None);
    var s1 := W.State(map["y" := I64], None);
    var s2 := W.State(map["y" := I64], Some(I64));
    var yes := ss[0].body;
    assert W.WalkStmt(f, s0, yes[0]) == Ok((Assign("y", I64, Param), false, s1));
    assert W.WalkList(f, s1, yes[1..]) == Ok(([], false, s1));
    assert [ir[0].thenBody[0]] + [] == ir[0].thenBody;
    assert W.WalkList(f, s0, yes) == Ok((ir[0].thenBody, false, s1));
    assert W.WalkExpr(f, map[], Py.Name("x")) == Ok((Param, I64));
    assert W.WalkExpr(f, map[], ss[0].test) == Ok((ir[0].test, I64));
    assert W.WalkStmt(f, s0, ss[0]) == Ok((ir[0], false, s1));
    assert ss[1..][0] == ss[1] && W.WalkStmt(f, s1, ss[1]) == Ok((ir[1], true, s2));
    assert W.WalkList(f, s1, ss[1..]) == Ok(([ir[1]], true, s2));
    assert [ir[0]] + [ir[1]] == ir;
    assert W.WalkList(f, s0, ss) == Ok((ir, true, s2));
  }

  lemma LeakyElement(m: Fpu, fuel: nat, x: I64, s: Store)
    requires "y" in s
    ensures Element(m, fuel, LeakyKernel(), IntV(x), s) ==
            if x > 0 then Returned(IntV(x), s["y" := IntV(x)]) else Returned(s["y"], s)
  {
    var body := LeakyKernel().body;
    var s1 := if x > 0 then s["y" := IntV(x)] else s;
    assert ExecStmt(m, fuel, body[0], IntV(x), s) == Normal(s1) by {
      var t := body[0].test;
      assert t == Compare(Gt, Param, ConstI64(0));
      assert Eval(m, t, IntV(x), s) == Compared(m, Gt, Eval(m, Param, IntV(x), s), Eval(m, ConstI64(0), IntV(x), s));
      assert EvalTest(m, t, IntV(x), s) == Some(x > 0);
      var yes := body[0].thenBody;
      assert ExecStmt(m, fuel, yes[0], IntV(x), s) == Normal(s["y" := IntV(x)]);
      assert Exec(m, fuel, yes[1..], IntV(x), s["y" := IntV(x)]) == Normal(s["y" := IntV(x)]);
      assert Exec(m, fuel, yes, IntV(x), s) == Normal(s["y" := IntV(x)]);
      assert Exec(m, fuel, body[0].elseBody, IntV(x), s) == Normal(s);
      assert body[0] == If(t, yes, []);
    }
    assert ExecStmt(m, fuel, body[1], IntV(x), s1) == Returned(s1["y"], s1);
    assert body[1..][0] == body[1];
    assert Exec(m, fuel, body[1..], IntV(x), s1) == Returned(s1["y"], s1);
    assert Exec(m, fuel, body, IntV(x), s) == Returned(s1["y"], s1);
  }

  /** The compiled code, whatever its registers held: after a positive input, 0 gives that input; alone, it gives
      what was in the register. */
  lemma CompiledLeaks(p: Program, q: Program, s: Store, vars: map<nat, Val>, out: seq<Val>, a: I64)
    requires V.Compile(LeakyKernel()) == Ok(p.blocks) && V.Compile(LeakyKernel()) == Ok(q.blocks)
    requires a > 0 && p.inp == [IntV(a), IntV(0)] && q.inp == [IntV(0)] && |out| == 2
    requires EC.Holds(KernelLocals(LeakyKernel()), s, vars) && "y" in s
    ensures W.KernelOf(Leaky(), I64) == Some(LeakyKernel()) && KernelTyped(LeakyKernel()) && !DefinitelyAssigned(LeakyKernel())
    ensures EndsIn(p, vars, out, Done([IntV(a), IntV(a)]))
    ensures EndsIn(q, vars, out[..1], Done([s["y"]]))
  {
    hide Element, CompileScalar, EndsIn, KernelTyped, KernelLocals, EC.Holds, DefinitelyAssigned, W.KernelOf;
    var k := LeakyKernel();
    LeakyWalked();
    LeakyTyped();
    LeakyElement(p.fpu, 0, a, s);
    LeakyElement(p.fpu, 0, 0, s["y" := IntV(a)]);
    LeakyElement(q.fpu, 0, 0, s);
    assert RunKernel(p.fpu, 0, k, p.inp, 2, s["y" := IntV(a)]) == Finished([]);
    assert RunKernel(q.fpu, 0, k, q.inp, 1, s) == Finished([]);
    assert Ends(RunKernel(p.fpu, 0, k, p.inp, 0, s), Done([IntV(a), IntV(a)]));
    assert Ends(RunKernel(q.fpu, 0, k, q.inp, 0, s), Done([s["y"]]));
    CompiledAgrees(k, p, s, vars, out, Done([IntV(a), IntV(a)]));
    CompiledAgrees(k, q, s, vars, out[..1], Done([s["y"]]));
  }

  lemma LeakyTyped()
    ensures KernelTyped(LeakyKernel()) && !DefinitelyAssigned(LeakyKernel())
  {
    var body := LeakyKernel().body;
    assert BodyTypes(body[0].thenBody, map[], I64, I64, false) == Some(map["y" := I64]) by {
      assert StmtTypes(body[0].thenBody[0], map[], I64, I64, false) == Some(map["y" := I64]);
    }
    assert StmtTypes(body[0], map[], I64, I64, false) == Some(map["y" := I64]);
    assert body[1..][0] == body[1];
    assert StmtTypes(body[1], map["y" := I64], I64, I64, false) == Some(map["y" := I64]);
    assert FlowBody(body[0].thenBody, {}) == Live({} + {"y"});
    assert FlowBody(body[0].elseBody, {}) == Live({});
    assert ({} + {"y"}) * {} == {};
    assert FlowStmt(body[0], {}) == Live({});
    assert FlowStmt(body[1], {}) == Bad;
  }
}
