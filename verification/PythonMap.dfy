/** From Python to machine code: a function of integers, compiled and run over a buffer, stores at every index what
    Python returns for that input. */
module PythonMap {
  import opened Wrappers
  import opened Ir
  import opened Machine
  import opened Cfg
  import opened Walker
  import opened PySemantics
  import opened WordArithmetic
  import opened PythonIntegers
  import opened NumberMap
  import N = Numbers
  import SK = ScalarKernel
  import V = SimdKernel
  import EC = ExprCorrect
  import Sem = Semantics
  import Py = PyAst

  /** Python, called with `x` and given `fuel` loop iterations. */
  function PyCall(fuel: nat, c: Callable, x: int): Outcome
    requires |c.params| == 1
  {
    Exec(fuel, BodyOf(c), map[c.params[0] := x])
  }

  predicate CallFits(fuel: nat, c: Callable, x: int)
    requires |c.params| == 1
  {
    RunFits(fuel, BodyOf(c), map[c.params[0] := x])
  }

  /** Called with an i64, Python returns or runs on exactly as the source does in words. */
  lemma CallIsWords(m: Fpu, fuel: nat, c: Callable, x: I64)
    requires |c.params| == 1 && CallFits(fuel, c, x)
    ensures SameRun(PyCall(fuel, c, x), NumberCall(m, fuel, c, N.Int(x)))
  {
    hide RunFits, Exec, N.Exec;
    RunIsWords(m, fuel, BodyOf(c), map[c.params[0] := x], map[c.params[0] := N.Int(x)]);
  }

  /** One call: the kernel returns, or runs on, exactly as Python does, whatever earlier elements left in
      its locals. */
  lemma ElementIsPython(m: Fpu, fuel: nat, c: Callable, k: Kernel, x: I64, u: Sem.Store)
    requires Accepted(c, I64, k) && CallFits(fuel, c, x)
    ensures match PyCall(fuel, c, x)
            case Returned(v) => var o := SK.Element(m, fuel, k, IntV(x), u); o.Returned? && o.v.IntV? && o.v.n == v
            case Timeout => SK.Element(m, fuel, k, IntV(x), u).Timeout?
            case _ => false
  {
    hide CallFits, PyCall, NumberCall, SK.Element, SK.CompileScalar;
    CallIsWords(m, fuel, c, x);
    ElementMeans(m, fuel, c, I64, k, N.Int(x), u);
  }

  /** Python returns `v` for `x`, staying in range on the way. */
  ghost predicate PyReturns(c: Callable, x: int, v: int)
    requires |c.params| == 1
  {
    exists fuel :: CallFits(fuel, c, x) && PyCall(fuel, c, x) == Returned(v)
  }

  function Ints(xs: seq<I64>): seq<Val> { seq(|xs|, i requires 0 <= i < |xs| => IntV(xs[i])) }

  function Numbered(xs: seq<I64>): seq<N.Number> { seq(|xs|, i requires 0 <= i < |xs| => N.Int(xs[i])) }

  lemma PyMeans(m: Fpu, c: Callable, x: I64, v: I64)
    requires |c.params| == 1 && PyReturns(c, x, v)
    ensures Means(m, c, N.Int(x), N.Int(v))
  {
    hide CallFits, PyCall, NumberCall;
    var fuel :| CallFits(fuel, c, x) && PyCall(fuel, c, x) == Returned(v);
    CallIsWords(m, fuel, c, x);
    assert NumberCall(m, fuel, c, N.Int(x)) == N.Returned(N.Int(v));
  }

  /** The compiled function, scalar or with a vector loop, over any buffer and from any register contents,
      stores Python's results. */
  lemma CompiledIsPython(c: Callable, k: Kernel, p: Program, xs: seq<I64>, vs: seq<I64>, s: Sem.Store, vars: map<nat, Val>, out: seq<Val>)
    requires Accepted(c, I64, k) && V.Compile(k) == Ok(p.blocks) && p.inp == Ints(xs) && |xs| < TWO_63
    requires V.LanesMean(k, p)
    requires |out| == |xs| && EC.Holds(SK.KernelLocals(k), s, vars)
    requires |vs| == |xs| && forall j | 0 <= j < |xs| :: PyReturns(c, xs[j], vs[j])
    ensures SK.EndsIn(p, vars, out, Done(Ints(vs)))
  {
    hide SK.EndsIn, V.Compile, V.LanesMean, SK.KernelLocals, EC.Holds, Accepted, PyReturns, Means;
    AcceptedOne(c, I64, k);
    forall j | 0 <= j < |xs| ensures Means(p.fpu, c, Numbered(xs)[j], Numbered(vs)[j]) {
      PyMeans(p.fpu, c, xs[j], vs[j]);
    }
    assert Values(Numbered(xs)) == Ints(xs) && Values(Numbered(vs)) == Ints(vs);
    CompiledMeans(c, I64, k, p, Numbered(xs), Numbered(vs), false, s, vars, out);
  }

  // ----- the side conditions are met, and are needed -----

  /** `x // 2 if x >= 0 else 0`: the quotient may round differently where it is not chosen. */
  function Guarded(): Callable {
    var x := Py.Name("x");
    Lambda(["x"], Py.IfExp(Py.Compare(x, [Py.GtE], [Py.IntConst(0)]), Py.BinExpr(Py.FloorDiv, x, Py.IntConst(2)), Py.IntConst(0)))
  }

  lemma GuardedFits(fuel: nat, x: I64)
    ensures CallFits(fuel, Guarded(), x) && PyCall(fuel, Guarded(), x) == Returned(if x >= 0 then x / 2 else 0)
  {
    var e := Guarded().expr;
    var env := map["x" := x];
    assert Fits(e.test.first, env) && Fits(e.test.comparators[0], env);
    assert Eval(e.test, env) == Some(if x >= 0 then 1 else 0) && Tracks(e.test, env);
    assert Fits(e.body.left, env) && Fits(e.body.right, env);
    assert Eval(e.body, env) == Some(FloorQuotient(x, 2));
    assert WordEval(e.body, env) == WordArith(Py.FloorDiv, x, 2);
    assert Fits(e, env);
    ReturnsExpr(fuel, e, env);
  }

  /** The body of a lambda. */
  lemma ReturnsExpr(fuel: nat, e: Py.Expr, env: Env)
    requires Eval(e, env).Some?
    ensures Exec(fuel, [Py.Return(Some(e))], env) == Returned(Eval(e, env).value)
    ensures RunFits(fuel, [Py.Return(Some(e))], env) == Fits(e, env)
  {
    hide Eval, Fits;
    var s := Py.Return(Some(e));
    assert [s][0] == s && ExecStmt(fuel, s, env) == Returned(Eval(e, env).value);
  }

  /** `1 // x if x != 0 else 0`: Python skips the division by zero, the compiled code traps on it. */
  function Skipped(): Callable {
    var x := Py.Name("x");
    Lambda(["x"], Py.IfExp(Py.Compare(x, [Py.NotEq], [Py.IntConst(0)]), Py.BinExpr(Py.FloorDiv, Py.IntConst(1), x), Py.IntConst(0)))
  }

  lemma UntakenArmTraps(m: Fpu, fuel: nat, u: Sem.Store)
    ensures PyCall(fuel, Skipped(), 0) == Returned(0)
    ensures KernelOf(Skipped(), I64).Some? && SK.Element(m, fuel, KernelOf(Skipped(), I64).value, IntV(0), u) == Sem.Trapped
  {
    var e := Skipped().expr;
    var env := map["x" := 0];
    assert Eval(e.test, env) == Some(0) && Eval(e, env) == Some(0);
    ReturnsExpr(fuel, e, env);
    SkippedWalked();
    SkippedTraps(m, fuel, u);
    hide *;
  }

  lemma SkippedTraps(m: Fpu, fuel: nat, u: Sem.Store)
    ensures SK.Element(m, fuel, Kernel(I64, I64, [Return(SkippedIr)]), IntV(0), u) == Sem.Trapped
  {
    var body := [Return(SkippedIr)];
    assert Sem.Eval(m, SkippedIr.yes, IntV(0), u) == None;
    assert Sem.ExecStmt(m, fuel, body[0], IntV(0), u) == Sem.Trapped;
  }

  const SkippedIr: Expr := IfExpr(Compare(Ne, Param, ConstI64(0)), Binary(FloorDiv, ConstI64(1), Param), ConstI64(0))

  lemma SkippedWalked()
    ensures KernelOf(Skipped(), I64) == Some(Kernel(I64, I64, [Return(SkippedIr)]))
  {
    var e := Skipped().expr;
    var f := Fn("x", I64);
    assert WalkExpr(f, map[], Py.Name("x")) == Ok((Param, I64));
    assert WalkExpr(f, map[], e.test) == Ok((SkippedIr.test, I64));
    assert WalkExpr(f, map[], e.body) == Ok((SkippedIr.yes, I64));
    assert WalkExpr(f, map[], e) == Ok((SkippedIr, I64));
  }

  /** `x + 1`: Python leaves the range of an i64, the compiled code wraps around. */
  function Next(): Callable { Lambda(["x"], Py.BinExpr(Py.Add, Py.Name("x"), Py.IntConst(1))) }

  lemma SumWraps(m: Fpu, fuel: nat, u: Sem.Store)
    ensures PyCall(fuel, Next(), TWO_63 - 1) == Returned(TWO_63)
    ensures KernelOf(Next(), I64).Some?
    ensures SK.Element(m, fuel, KernelOf(Next(), I64).value, IntV(TWO_63 - 1), u) == Sem.Returned(IntV(-TWO_63), u)
  {
    var e := Next().expr;
    assert Eval(e, map["x" := TWO_63 - 1]) == Some(TWO_63);
    ReturnsExpr(fuel, e, map["x" := TWO_63 - 1]);
    var f := Fn("x", I64);
    assert WalkExpr(f, map[], Py.Name("x")) == Ok((Param, I64));
    assert WalkExpr(f, map[], e) == Ok((Binary(Add, Param, ConstI64(1)), I64));
    var body := [Return(Binary(Add, Param, ConstI64(1)))];
    assert Sem.Eval(m, body[0].result, IntV(TWO_63 - 1), u) == Some(IntV(-TWO_63));
    assert Sem.Exec(m, fuel, body, IntV(TWO_63 - 1), u) == Sem.Returned(IntV(-TWO_63), u);
  }

  /** `x = 5; return x`: reads of the parameter give the input whatever was assigned to it. */
  function Reassigned(): Callable {
    Def(["x"], [Py.Assign([Py.Name("x")], Py.IntConst(5)), Py.Return(Some(Py.Name("x")))])
  }

  lemma ReassignedParameterIsIgnored(m: Fpu, fuel: nat, x: I64, u: Sem.Store)
    requires x != 5
    ensures KernelOf(Reassigned(), I64).Some? && PyCall(fuel, Reassigned(), x) == Returned(5)
    ensures var o := SK.Element(m, fuel, KernelOf(Reassigned(), I64).value, IntV(x), u); o.Returned? && o.v == IntV(x)
  {
    var ss := BodyOf(Reassigned());
    var f := Fn("x", I64);
    var s0 := State(map[], None);
    var s1 := State(map["x" := I64], None);
    assert WalkStmt(f, s0, ss[0]) == Ok((Assign("x", I64, ConstI64(5)), false, s1));
    assert WalkStmt(f, s1, ss[1]) == Ok((Return(Param), true, State(map["x" := I64], Some(I64))));
    assert ss[1..][0] == ss[1];
    assert WalkList(f, s1, ss[1..]) == Ok(([Return(Param)], true, State(map["x" := I64], Some(I64))));
    var ir := [Assign("x", I64, ConstI64(5))] + [Return(Param)];
    assert WalkList(f, s0, ss) == Ok((ir, true, State(map["x" := I64], Some(I64))));
    var env := map["x" := x];
    assert ExecStmt(fuel, ss[0], env) == Normal(map["x" := 5]);
    assert ExecStmt(fuel, ss[1], map["x" := 5]) == Returned(5);
    assert Exec(fuel, ss[1..], map["x" := 5]) == Returned(5);
    assert Sem.ExecStmt(m, fuel, ir[0], IntV(x), u) == Sem.Normal(u["x" := IntV(5)]);
    assert ir[1..][0] == Return(Param);
    assert Sem.ExecStmt(m, fuel, ir[1..][0], IntV(x), u["x" := IntV(5)]) == Sem.Returned(IntV(x), u["x" := IntV(5)]);
    assert Sem.Exec(m, fuel, ir[1..], IntV(x), u["x" := IntV(5)]) == Sem.Returned(IntV(x), u["x" := IntV(5)]);
  }

  /** `x / 2`: Python's half of 1 is no integer; the compiled quotient is 0. */
  function Halved(): Callable { Lambda(["x"], Py.BinExpr(Py.Div, Py.Name("x"), Py.IntConst(2))) }

  lemma TrueDivisionTruncates(m: Fpu, fuel: nat, u: Sem.Store)
    ensures KernelOf(Halved(), I64) == Some(Kernel(I64, I64, [Return(Binary(Div, Param, ConstI64(2)))]))
    ensures SK.Element(m, fuel, KernelOf(Halved(), I64).value, IntV(1), u) == Sem.Returned(IntV(0), u)
  {
    var f := Fn("x", I64);
    assert WalkExpr(f, map[], Py.Name("x")) == Ok((Param, I64));
    assert WalkExpr(f, map[], Py.IntConst(2)) == Ok((ConstI64(2), I64));
    assert WalkExpr(f, map[], Halved().expr) == Ok((Binary(Div, Param, ConstI64(2)), I64));
    var body := [Return(Binary(Div, Param, ConstI64(2)))];
    assert Sem.Eval(m, body[0].result, IntV(1), u) == Sem.Arith(m, Div, Some(IntV(1)), Some(IntV(2))) == Some(IntV(0));
    assert Sem.ExecStmt(m, fuel, body[0], IntV(1), u) == Sem.Returned(IntV(0), u);
    assert Sem.Exec(m, fuel, body, IntV(1), u) == Sem.Returned(IntV(0), u);
  }

  /** `for i in range(1): y = i` followed by `return i`: Python returns the last value, 0; the local behind
      the counter holds the bound. */
  function LateRead(): Callable {
    Def(["x"], [Py.For(Py.Name("i"), Py.Call("range", [Py.IntConst(1)], false), [Py.Assign([Py.Name("y")], Py.Name("i"))], []),
                Py.Return(Some(Py.Name("i")))])
  }

  lemma LoopVariableReadLate(m: Fpu, fuel: nat, x: I64, u: Sem.Store)
    requires fuel >= 2
    ensures KernelOf(LateRead(), I64).Some? && PyCall(fuel, LateRead(), x) == Returned(0)
    ensures var o := SK.Element(m, fuel, KernelOf(LateRead(), I64).value, IntV(x), u); o.Returned? && o.v == IntV(1)
  {
    var ss := BodyOf(LateRead());
    assert ss[1..][0] == ss[1];
    LateReadWalked();
    LateReadPython(fuel, x);
    LateReadIr(m, fuel, x, u);
  }

  const LateBody: seq<Stmt> := [Assign("y", I64, Local("i"))]
  const LateFor: Stmt := ForRange("i", ConstI64(0), ConstI64(1), LateBody)

  lemma LateReadWalked()
    ensures KernelOf(LateRead(), I64) == Some(Kernel(I64, I64, [LateFor, Return(Local("i"))]))
  {
    var ss := BodyOf(LateRead());
    var f := Fn("x", I64);
    var s0 := State(map[], None);
    var s1 := State(map["i" := I64], None);
    var s2 := State(map["i" := I64, "y" := I64], None);
    var s3 := s2.(out := Some(I64));
    var body := ss[0].body;
    assert WalkStmt(f, s1, body[0]) == Ok((LateBody[0], false, s2));
    assert body[1..] == [] && WalkList(f, s2, body[1..]) == Ok(([], false, s2));
    assert [LateBody[0]] + [] == LateBody;
    assert WalkList(f, s1, body) == Ok((LateBody, false, s2));
    assert WalkRange(f, map[], ss[0].iter) == Ok((ConstI64(0), ConstI64(1)));
    assert WalkStmt(f, s0, ss[0]) == Ok((LateFor, false, s2));
    assert WalkStmt(f, s2, ss[1]) == Ok((Return(Local("i")), true, s3));
    assert ss[1..][0] == ss[1];
    assert WalkList(f, s2, ss[1..]) == Ok(([Return(Local("i"))], true, s3));
    assert [LateFor] + [Return(Local("i"))] == [LateFor, Return(Local("i"))];
    assert WalkList(f, s0, ss) == Ok(([LateFor, Return(Local("i"))], true, s3));
  }

  lemma LateReadPython(fuel: nat, x: I64)
    requires fuel >= 2
    ensures PyCall(fuel, LateRead(), x) == Returned(0)
  {
    var ss := BodyOf(LateRead());
    var env := map["x" := x];
    var env1 := env["i" := 0];
    var env2 := env1["y" := 0];
    var body := ss[0].body;
    assert ExecStmt(fuel, body[0], env1) == Normal(env2);
    assert Exec(fuel, body[1..], env2) == Normal(env2);
    assert Exec(fuel, body, env1) == Normal(env2);
    assert ExecFor(fuel - 1, "i", 1, 1, body, env2) == Normal(env2);
    assert ExecFor(fuel, "i", 0, 1, body, env) == Normal(env2);
    assert RangeOf(ss[0].iter, env) == Some((0, 1));
    assert ExecStmt(fuel, ss[0], env) == Normal(env2);
    assert ExecStmt(fuel, ss[1], env2) == Returned(0);
    assert ss[1..][0] == ss[1];
    assert Exec(fuel, ss[1..], env2) == Returned(0);
  }

  lemma LateReadIr(m: Fpu, fuel: nat, x: I64, u: Sem.Store)
    requires fuel >= 2
    ensures Sem.Exec(m, fuel, [LateFor, Return(Local("i"))], IntV(x), u) ==
            Sem.Returned(IntV(1), u["i" := IntV(0)]["y" := IntV(0)]["i" := IntV(1)])
  {
    var ir := [LateFor, Return(Local("i"))];
    var u1 := u["i" := IntV(0)];
    var u2 := u1["y" := IntV(0)];
    var u3 := u2["i" := IntV(1)];
    assert Sem.ExecStmt(m, fuel, LateBody[0], IntV(x), u1) == Sem.Normal(u2);
    assert Sem.Exec(m, fuel, LateBody[1..], IntV(x), u2) == Sem.Normal(u2);
    assert Sem.Exec(m, fuel, LateBody, IntV(x), u1) == Sem.Normal(u2);
    assert Sem.Bump(u2, "i") == u3;
    assert Sem.ExecFor(m, fuel - 1, "i", IntV(1), LateBody, IntV(x), u3) == Sem.Normal(u3);
    assert Sem.ExecFor(m, fuel, "i", IntV(1), LateBody, IntV(x), u1) == Sem.Normal(u3);
    assert Sem.ExecStmt(m, fuel, ir[0], IntV(x), u) == Sem.Normal(u3);
    assert ir[1..][0] == ir[1];
    assert Sem.ExecStmt(m, fuel, ir[1], IntV(x), u3) == Sem.Returned(IntV(1), u3);
    assert Sem.Exec(m, fuel, ir[1..], IntV(x), u3) == Sem.Returned(IntV(1), u3);
  }
}
