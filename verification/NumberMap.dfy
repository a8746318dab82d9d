/** From source to machine code: a function of integers and floats, compiled and run over a buffer, stores at every index
    what `Numbers` says its source computes for that input, or traps where that does. */
module NumberMap {
  import opened Wrappers
  import opened Ir
  import opened Machine
  import opened Cfg
  import opened Walker
  import opened PythonAgreement
  import opened StatementAgreement
  import N = Numbers
  import WT = WalkerTypes
  import T = Terminated
  import SK = ScalarKernel
  import V = SimdKernel
  import MK = MapKernel
  import EC = ExprCorrect
  import Sem = Semantics
  import Py = PyAst

  function BodyOf(c: Callable): seq<Py.Stmt> {
    match c
    case Def(_, body) => body
    case Lambda(_, e) => [Py.Return(Some(e))]
  }

  /** Every name a function uses as a loop variable, and the dtypes the walker gives its locals. */
  function ScopeOf(c: Callable, inT: Dtype): Scope
    requires |c.params| == 1
  {
    var r := WalkBody(Fn(c.params[0], inT), State(map[], None), BodyOf(c));
    Scope(c.params[0], inT, Counters(BodyOf(c)), if r.Ok? then r.value.2.locals else map[])
  }

  /** What the source computes for `a`, given `fuel` loop iterations. */
  function NumberCall(m: Fpu, fuel: nat, c: Callable, a: N.Number): N.Outcome
    requires |c.params| == 1
  {
    N.Exec(m, fuel, BodyOf(c), map[c.params[0] := a])
  }

  /** A function that meets the source conditions and was accepted for inputs of this dtype. */
  predicate Accepted(c: Callable, inT: Dtype, k: Kernel) {
    && KernelOf(c, inT) == Some(k) && SK.CompileScalar(k).Ok?
    && WT.FnSafe(c, inT) && Disciplined(ScopeOf(c, inT), {}, BodyOf(c))
  }

  /** One call: the kernel returns, traps or runs on, exactly as the source does, whatever earlier elements left in its
      locals; only of a name without a value nothing is said. */
  lemma ElementMeans(m: Fpu, fuel: nat, c: Callable, inT: Dtype, k: Kernel, a: N.Number, u: Sem.Store)
    requires Accepted(c, inT, k) && HasType(ValOf(a), inT)
    ensures match NumberCall(m, fuel, c, a)
            case Returned(b) => var o := SK.Element(m, fuel, k, ValOf(a), u); o.Returned? && o.v == ValOf(b)
            case Trapped => SK.Element(m, fuel, k, ValOf(a), u).Trapped?
            case Timeout => SK.Element(m, fuel, k, ValOf(a), u).Timeout?
            case Unbound => true
            case _ => false
  {
    hide SK.CompileScalar, WT.ListSafe, Disciplined, WalkList, N.Exec, Sem.Exec, SK.Element, BodyOk, IrBody;
    var sc := ScopeOf(c, inT);
    AcceptedBody(c, inT, k);
    BodyAgrees(m, fuel, sc, State(map[], None), BodyOf(c), {}, k.outputDtype, false, map[c.params[0] := a], ValOf(a), u);
    T.AcceptedOnlyReturns(c, inT, m, fuel, ValOf(a), u);
  }

  /** The body of an accepted function; a lambda is walked like a function that returns its expression. */
  lemma AcceptedBody(c: Callable, inT: Dtype, k: Kernel)
    requires Accepted(c, inT, k)
    ensures BodyOk(ScopeOf(c, inT), State(map[], None), BodyOf(c), {}, k.outputDtype, false)
    ensures WalkBody(Fn(c.params[0], inT), State(map[], None), BodyOf(c)).Ok?
    ensures IrBody(Fn(c.params[0], inT), State(map[], None), BodyOf(c)) == k.body
  {
    hide SK.CompileScalar, WT.FnSafe, Disciplined, WalkList, Sem.BodyTypes;
    WT.TypedIffSafe(c, inT);
    StripDisciplined(ScopeOf(c, inT), {}, BodyOf(c));
    if c.Lambda? {
      LambdaBody(c, inT, k);
    }
  }

  lemma LambdaBody(c: Callable, inT: Dtype, k: Kernel)
    requires KernelOf(c, inT) == Some(k) && c.Lambda?
    ensures var f, s := Fn(c.params[0], inT), State(map[], None);
            && WalkBody(f, s, BodyOf(c)).Ok? && WalkBody(f, s, BodyOf(c)).value.0 == k.body
            && WalkBody(f, s, BodyOf(c)).value.2.locals == map[]
  {
    hide WalkExpr;
    var f, s, ret := Fn(c.params[0], inT), State(map[], None), Py.Return(Some(c.expr));
    assert BodyOf(c)[0] == ret;
    assert WalkStmt(f, s, ret) == Ok((k.body[0], true, State(map[], Some(k.outputDtype))));
  }

  // ----- a buffer -----

  /** The source returns `b` for `a`. */
  ghost predicate Means(m: Fpu, c: Callable, a: N.Number, b: N.Number)
    requires |c.params| == 1
  {
    exists fuel :: NumberCall(m, fuel, c, a) == N.Returned(b)
  }

  ghost predicate MeansTrap(m: Fpu, c: Callable, a: N.Number)
    requires |c.params| == 1
  {
    exists fuel :: NumberCall(m, fuel, c, a) == N.Trapped
  }

  function Values(xs: seq<N.Number>): seq<Val> { seq(|xs|, i requires 0 <= i < |xs| => ValOf(xs[i])) }

  lemma {:induction false} RunMoreFuel(m: Fpu, fuel: nat, more: nat, k: Kernel, inp: seq<Val>, i: nat, s: Sem.Store)
    requires i <= |inp| && fuel <= more && !SK.RunKernel(m, fuel, k, inp, i, s).KTimeout?
    ensures SK.RunKernel(m, more, k, inp, i, s) == SK.RunKernel(m, fuel, k, inp, i, s)
    decreases |inp| - i
  {
    hide SK.Element;
    if i < |inp| {
      MK.MuchMoreFuel(m, fuel, more, k, inp[i], s);
      var o := SK.Element(m, fuel, k, inp[i], s);
      if o.Returned? {
        RunMoreFuel(m, fuel, more, k, inp, i + 1, o.s);
      }
    }
  }

  lemma AcceptedOne(c: Callable, inT: Dtype, k: Kernel)
    requires Accepted(c, inT, k)
    ensures |c.params| == 1 && k.inputDtype == inT
  {
  }

  /** The elements from `i` on: all return; or those before `j` do, and `j` traps. */
  lemma {:induction false} RunMeans(m: Fpu, c: Callable, inT: Dtype, k: Kernel, xs: seq<N.Number>, bs: seq<N.Number>, traps: bool, i: nat, s: Sem.Store)
    returns (fuel: nat)
    requires Accepted(c, inT, k) && i <= |bs| <= |xs| && (if traps then |bs| < |xs| else |bs| == |xs|)
    requires forall j | 0 <= j < |xs| :: HasType(ValOf(xs[j]), inT)
    requires forall j | 0 <= j < |bs| :: Means(m, c, xs[j], bs[j])
    requires traps ==> MeansTrap(m, c, xs[|bs|])
    ensures SK.RunKernel(m, fuel, k, Values(xs), i, s) == if traps then SK.KTrapped else SK.Finished(Values(bs)[i..])
    decreases |bs| - i
  {
    hide SK.Element, Accepted, NumberCall;
    AcceptedOne(c, inT, k);
    if i == |bs| {
      if traps {
        fuel :| NumberCall(m, fuel, c, xs[i]) == N.Trapped;
        ElementMeans(m, fuel, c, inT, k, xs[i], s);
      } else {
        fuel := 0;
      }
    } else {
      assert Means(m, c, xs[i], bs[i]);
      var a :| NumberCall(m, a, c, xs[i]) == N.Returned(bs[i]);
      ElementMeans(m, a, c, inT, k, xs[i], s);
      var e := SK.Element(m, a, k, ValOf(xs[i]), s);
      var b := RunMeans(m, c, inT, k, xs, bs, traps, i + 1, e.s);
      fuel := if a < b then b else a;
      MK.MuchMoreFuel(m, a, fuel, k, ValOf(xs[i]), s);
      RunMoreFuel(m, b, fuel, k, Values(xs), i + 1, e.s);
      if !traps {
        assert Values(bs)[i..] == [ValOf(bs[i])] + Values(bs)[i + 1..];
      }
    }
  }

  /** The code that is chosen ends as the kernel means. */
  lemma CompiledEnds(k: Kernel, p: Program, fuel: nat, s: Sem.Store, vars: map<nat, Val>, out: seq<Val>, end: Config)
    requires SK.KernelTyped(k) && V.LanesMean(k, p) && V.Compile(k) == Ok(p.blocks) && V.Typed(k, p.inp)
    requires |out| == |p.inp| && EC.Holds(SK.KernelLocals(k), s, vars) && Final(end)
    requires SK.Ends(SK.RunKernel(p.fpu, fuel, k, p.inp, 0, s), end)
    ensures SK.EndsIn(p, vars, out, end)
  {
    hide SK.EndsIn, V.MapEval, V.LaneMeans, SK.CompileScalar, V.CompileSimd, SK.RunKernel, SK.KernelLocals, EC.Holds, SK.KernelTyped;
    assert exists f :: SK.Ends(SK.RunKernel(p.fpu, f, k, p.inp, 0, s), end);
    if IsVectorizablePhase1(k) {
      V.MeaningEnds(p.fpu, k, p.inp, s, end);
      V.SameMap(p.fpu, k, p.inp, 0, V.VecEnd(p));
      V.VectorEnds(k, p, vars, out, end);
    } else {
      SK.CompiledAgrees(k, p, s, vars, out, end);
    }
  }

  /** The compiled function, scalar or with a vector loop, over any buffer and from any register contents, stores what
      the source returns; or faults, if the source traps on an element before which it returns. */
  lemma CompiledMeans(c: Callable, inT: Dtype, k: Kernel, p: Program, xs: seq<N.Number>, bs: seq<N.Number>, traps: bool,
                      s: Sem.Store, vars: map<nat, Val>, out: seq<Val>)
    requires Accepted(c, inT, k) && V.Compile(k) == Ok(p.blocks) && V.LanesMean(k, p)
    requires p.inp == Values(xs) && |xs| < TWO_63 && forall j | 0 <= j < |xs| :: HasType(ValOf(xs[j]), inT)
    requires |out| == |xs| && EC.Holds(SK.KernelLocals(k), s, vars)
    requires (if traps then |bs| < |xs| else |bs| == |xs|) && forall j | 0 <= j < |bs| :: Means(p.fpu, c, xs[j], bs[j])
    requires traps ==> MeansTrap(p.fpu, c, xs[|bs|])
    ensures SK.EndsIn(p, vars, out, if traps then Fault else Done(Values(bs)))
  {
    hide SK.EndsIn, V.LaneMeans, V.Compile, SK.RunKernel, SK.KernelLocals, EC.Holds, SK.KernelTyped, Accepted, Means, MeansTrap;
    AcceptedOne(c, inT, k);
    AcceptedTyped(c, inT, k);
    var fuel := RunMeans(p.fpu, c, inT, k, xs, bs, traps, 0, s);
    assert Values(bs)[0..] == Values(bs);
    CompiledEnds(k, p, fuel, s, vars, out, if traps then Fault else Done(Values(bs)));
  }

  lemma AcceptedTyped(c: Callable, inT: Dtype, k: Kernel)
    requires Accepted(c, inT, k)
    ensures SK.KernelTyped(k)
  {
    hide WT.FnSafe, SK.KernelTyped, SK.CompileScalar, Disciplined;
    WT.TypedIffSafe(c, inT);
  }
}
