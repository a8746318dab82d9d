/** The router's array kernels (gilmap/_router.py): a single-expression function compiled to a closure that
    applies one array operation per node.  Operations work element by element, broadcasting scalars, and
    raise if any element does. */
module Arrow {
  import opened Wrappers
  import opened Elements
  import Py = PyAst

  type Res<+T> = Result<T, string>

  const LENGTHS_DIFFER := "array lengths differ"

  /** The array library's operations, on one element each; any of them may raise. */
  datatype Kernels<!V> = Kernels(
    lit: Py.Expr -> V,
    unary: (Py.UnaryOp, V) -> Res<V>,
    binary: (Py.Operator, V, V) -> Res<V>,
    math: (string, V) -> Res<V>,
    compare: (Py.CmpOp, V, V) -> Res<V>,
    ifElse: (V, V, V) -> Res<V>)

  datatype Datum<V> = Array(xs: seq<V>) | Scalar(v: V)

  // ----- broadcasting -----

  predicate Fits<V>(d: Datum<V>, n: nat) { d.Array? ==> |d.xs| == n }

  function At<V>(d: Datum<V>, n: nat, i: nat): V
    requires Fits(d, n) && i < n
  {
    match d
    case Array(xs) => xs[i]
    case Scalar(v) => v
  }

  /** The length arrays among the operands have: that of the first. */
  function Length<V>(ds: seq<Datum<V>>): nat {
    if ds == [] then 0 else if ds[0].Array? then |ds[0].xs| else Length(ds[1..])
  }

  predicate AllScalars<V>(ds: seq<Datum<V>>) { forall j | 0 <= j < |ds| :: ds[j].Scalar? }

  /** The operands of element `i`. */
  function Row<V>(ds: seq<Datum<V>>, n: nat, i: nat): seq<V>
    requires i < n && forall j | 0 <= j < |ds| :: Fits(ds[j], n)
  {
    seq(|ds|, j requires 0 <= j < |ds| => At(ds[j], n, i))
  }

  function Rows<V>(ds: seq<Datum<V>>, n: nat): (r: seq<seq<V>>)
    requires forall j | 0 <= j < |ds| :: Fits(ds[j], n)
    ensures |r| == n
  {
    seq(n, i requires 0 <= i < n => Row(ds, n, i))
  }

  /** An operation on operands of which some may be arrays: on rows, or once if none is. */
  function Broadcast<V>(op: seq<V> -> Res<V>, ds: seq<Datum<V>>): Res<Datum<V>> {
    if AllScalars(ds) then
      var r :- op(Scalars(ds));
      Ok(Scalar(r))
    else
      var n := Length(ds);
      if exists j | 0 <= j < |ds| :: !Fits(ds[j], n) then Err(LENGTHS_DIFFER)
      else
        var rs :- MapAll(op, Rows(ds, n));
        Ok(Array(rs))
  }

  function Scalars<V>(ds: seq<Datum<V>>): seq<V>
    requires AllScalars(ds)
  {
    seq(|ds|, j requires 0 <= j < |ds| => ds[j].v)
  }

  // ----- expressions -----

  const MATH_CALLS: set<string> := {"sqrt", "abs", "exp", "log", "sin", "cos", "tan", "floor", "ceil", "round"}

  const BINOPS: set<Py.Operator> := {Py.Add, Py.Sub, Py.Mult, Py.Div, Py.Pow, Py.BitAnd, Py.BitOr, Py.BitXor}

  predicate IsConstant(e: Py.Expr) { e.IntConst? || e.BoolConst? || e.FloatConst? || e.OtherConst? }

  /** The operands of a node, and whether there is a kernel for it. */
  function Operands(e: Py.Expr): Option<seq<Py.Expr>> {
    match e
    case UnaryExpr(op, a) => if op == Py.OtherUnary then None else Some([a])
    case BinExpr(op, l, r) => if op in BINOPS then Some([l, r]) else None
    case MathCall(name, args, kw) => if name in MATH_CALLS && |args| == 1 && !kw then Some([args[0]]) else None
    case IfExp(t, y, n) => Some([t, y, n])
    case Compare(l, ops, rs) => if |ops| == 1 && |rs| == 1 && ops[0] != Py.OtherCmp then Some([l, rs[0]]) else None
    case _ => None
  }

  lemma OperandsSmaller(e: Py.Expr)
    ensures Operands(e).Some? ==>
              |Operands(e).value| < 4 && forall j | 0 <= j < |Operands(e).value| :: Operands(e).value[j] < e
  {
  }

  /** What a node does to its operands' values. */
  function Kernel<V>(m: Kernels<V>, e: Py.Expr): seq<V> -> Res<V>
    requires Operands(e).Some?
  {
    match e
    case UnaryExpr(op, _) => (vs: seq<V>) => if |vs| != 1 then Err("arity") else if op == Py.UAdd then Ok(vs[0]) else m.unary(op, vs[0])
    case BinExpr(op, _, _) => (vs: seq<V>) => if |vs| != 2 then Err("arity") else m.binary(op, vs[0], vs[1])
    case MathCall(name, _, _) => (vs: seq<V>) => if |vs| != 1 then Err("arity") else m.math(name, vs[0])
    case IfExp(_, _, _) => (vs: seq<V>) => if |vs| != 3 then Err("arity") else m.ifElse(vs[0], vs[1], vs[2])
    case Compare(_, ops, _) => (vs: seq<V>) => if |vs| != 2 then Err("arity") else m.compare(ops[0], vs[0], vs[1])
  }

  /** The closure for an expression; None if some node has no kernel or reads a free name. */
  function Lower<V>(m: Kernels<V>, param: string, e: Py.Expr): Option<seq<V> -> Res<Datum<V>>>
    decreases e, 4
  {
    if e.Name? then if e.id == param then Some(xs => Ok(Array(xs))) else None
    else if IsConstant(e) then Some(xs => Ok(Scalar(m.lit(e))))
    else if Operands(e).None? then None
    else
      OperandsSmaller(e);
      var fs :- LowerAll(m, param, e, Operands(e).value);
      Some(xs => RunAll(Kernel(m, e), fs, xs))
  }

  function LowerAll<V>(m: Kernels<V>, param: string, e: Py.Expr, es: seq<Py.Expr>): Option<seq<seq<V> -> Res<Datum<V>>>>
    requires forall j | 0 <= j < |es| :: es[j] < e
    decreases e, |es|
  {
    if es == [] then Some([])
    else
      var f :- Lower(m, param, es[0]);
      var fs :- LowerAll(m, param, e, es[1..]);
      Some([f] + fs)
  }

  /** Runs the operands' closures, then the node's operation on what they give. */
  function RunAll<V>(op: seq<V> -> Res<V>, fs: seq<seq<V> -> Res<Datum<V>>>, xs: seq<V>): Res<Datum<V>> {
    var ds :- Results(fs, xs);
    Broadcast(op, ds)
  }

  function Results<V>(fs: seq<seq<V> -> Res<Datum<V>>>, xs: seq<V>): Res<seq<Datum<V>>> {
    if fs == [] then Ok([])
    else
      var d :- fs[0](xs);
      var ds :- Results(fs[1..], xs);
      Ok([d] + ds)
  }

  /** The closure as the router calls it: a constant is repeated for every element. */
  function Fast<V>(compiled: seq<V> -> Res<Datum<V>>, xs: seq<V>): Res<seq<V>> {
    var d :- compiled(xs);
    match d
    case Array(ys) => Ok(ys)
    case Scalar(v) => Ok(seq(|xs|, _ => v))
  }

  // ----- the meaning on one element -----

  /** Evaluates every part, both arms of a conditional included. */
  function Eval<V>(m: Kernels<V>, param: string, e: Py.Expr, x: V): Res<V> {
    match e
    case Name(id) => if id == param then Ok(x) else Err("free name")
    case IntConst(_) => Ok(m.lit(e))
    case BoolConst(_) => Ok(m.lit(e))
    case FloatConst(_) => Ok(m.lit(e))
    case OtherConst => Ok(m.lit(e))
    case UnaryExpr(op, a) =>
      var v :- Eval(m, param, a, x);
      if op == Py.UAdd then Ok(v) else m.unary(op, v)
    case BinExpr(op, l, r) =>
      var u :- Eval(m, param, l, x);
      var v :- Eval(m, param, r, x);
      m.binary(op, u, v)
    case Compare(l, ops, rs) =>
      if |ops| == 1 && |rs| == 1 then
        var u :- Eval(m, param, l, x);
        var v :- Eval(m, param, rs[0], x);
        m.compare(ops[0], u, v)
      else Err("chained comparison")
    case IfExp(t, y, n) =>
      var c :- Eval(m, param, t, x);
      var u :- Eval(m, param, y, x);
      var v :- Eval(m, param, n, x);
      m.ifElse(c, u, v)
    case MathCall(name, args, _) =>
      if |args| == 1 then
        var v :- Eval(m, param, args[0], x);
        m.math(name, v)
      else Err("arguments")
    case _ => Err("no kernel")
  }

  /** Built from the parameter and constants by operations the array library has. */
  predicate Supported(param: string, e: Py.Expr) {
    match e
    case Name(id) => id == param
    case UnaryExpr(op, a) => !op.OtherUnary? && Supported(param, a)
    case BinExpr(op, l, r) => !op.FloorDiv? && !op.Mod? && !op.OtherOperator? && Supported(param, l) && Supported(param, r)
    case Compare(l, ops, rs) =>
      |ops| == 1 && |rs| == 1 && !ops[0].OtherCmp? && Supported(param, l) && Supported(param, rs[0])
    case IfExp(t, y, n) => Supported(param, t) && Supported(param, y) && Supported(param, n)
    case MathCall(name, args, kw) => |args| == 1 && !kw && name in MATH_CALLS && Supported(param, args[0])
    case Call(_, _, _) => false
    case OtherExpr => false
    case _ => true
  }

  predicate AllSupported(param: string, es: seq<Py.Expr>) { forall a <- es :: Supported(param, a) }

  /** A closure is made for exactly these. */
  lemma {:induction false} LowerAccepts<V>(m: Kernels<V>, param: string, e: Py.Expr)
    ensures Lower(m, param, e).Some? <==> Supported(param, e)
    decreases e, 4
  {
    if Operands(e).Some? {
      OperandsSmaller(e);
      var es := Operands(e).value;
      AllAccepts(m, param, e, es);
      OneLevel(m, param, e, es);
      PartsSupported(param, e, es);
    } else if e.BinExpr? {
      assert e.bop.FloorDiv? || e.bop.Mod? || e.bop.OtherOperator?;
    }
  }

  lemma PartsSupported(param: string, e: Py.Expr, es: seq<Py.Expr>)
    requires Operands(e) == Some(es)
    ensures Supported(param, e) <==> AllSupported(param, es)
  {
    assert |es| > 0 ==> es[0] in es;
    assert |es| > 1 ==> es[1] in es;
    assert |es| > 2 ==> es[2] in es;
  }

  lemma OneLevel<V>(m: Kernels<V>, param: string, e: Py.Expr, es: seq<Py.Expr>)
    requires Operands(e) == Some(es) && forall j | 0 <= j < |es| :: es[j] < e
    ensures Lower(m, param, e).Some? <==> LowerAll(m, param, e, es).Some?
  {
    hide LowerAll, Kernel, RunAll;
  }

  lemma {:induction false} AllAccepts<V>(m: Kernels<V>, param: string, e: Py.Expr, es: seq<Py.Expr>)
    requires forall j | 0 <= j < |es| :: es[j] < e
    ensures LowerAll(m, param, e, es).Some? <==> AllSupported(param, es)
    decreases e, |es|
  {
    hide Supported, Lower;
    if es != [] {
      LowerAccepts(m, param, es[0]);
      AllAccepts(m, param, e, es[1..]);
      assert es == [es[0]] + es[1..];
    }
  }

  // ----- pointwise -----

  /** An array result has the input's length and the right elements; a scalar is right for every input; and
      if it raises, some element does. */
  ghost predicate Pointwise<V(!new)>(m: Kernels<V>, param: string, e: Py.Expr, xs: seq<V>, r: Res<Datum<V>>) {
    match r
    case Ok(Array(ys)) => |ys| == |xs| && forall i | 0 <= i < |xs| :: Eval(m, param, e, xs[i]) == Ok(ys[i])
    case Ok(Scalar(v)) => forall x :: Eval(m, param, e, x) == Ok(v)
    case Err(_) => xs != [] ==> exists i | 0 <= i < |xs| :: Eval(m, param, e, xs[i]).Err?
  }

  lemma {:induction false} LowerPointwise<V(!new)>(m: Kernels<V>, param: string, e: Py.Expr, xs: seq<V>)
    requires Lower(m, param, e).Some?
    ensures Pointwise(m, param, e, xs, Lower(m, param, e).value(xs))
    decreases e, 4
  {
    if !e.Name? && !IsConstant(e) {
      OperandsSmaller(e);
      var es := Operands(e).value;
      var fs := LowerAll(m, param, e, es).value;
      LowerAllPointwise(m, param, e, es, xs);
      NodePointwise(m, param, e, es, fs, xs);
    }
  }

  /** The operands, one by one: each is pointwise. */
  ghost predicate AllPointwise<V(!new)>(m: Kernels<V>, param: string, es: seq<Py.Expr>, fs: seq<seq<V> -> Res<Datum<V>>>, xs: seq<V>) {
    |fs| == |es| && forall j | 0 <= j < |es| :: Pointwise(m, param, es[j], xs, fs[j](xs))
  }

  lemma {:induction false} LowerAllPointwise<V(!new)>(m: Kernels<V>, param: string, e: Py.Expr, es: seq<Py.Expr>, xs: seq<V>)
    requires (forall j | 0 <= j < |es| :: es[j] < e) && LowerAll(m, param, e, es).Some?
    ensures AllPointwise(m, param, es, LowerAll(m, param, e, es).value, xs)
    decreases e, |es|
  {
    hide Pointwise;
    if es != [] {
      LowerPointwise(m, param, es[0], xs);
      LowerAllPointwise(m, param, e, es[1..], xs);
      var fs := LowerAll(m, param, e, es[1..]).value;
      forall j | 0 <= j < |es| ensures Pointwise(m, param, es[j], xs, LowerAll(m, param, e, es).value[j](xs)) {
        if j > 0 {
          assert Pointwise(m, param, es[1..][j - 1], xs, fs[j - 1](xs));
        }
      }
    }
  }

  lemma {:induction false} ResultsIs<V>(fs: seq<seq<V> -> Res<Datum<V>>>, xs: seq<V>)
    ensures match Results(fs, xs)
            case Ok(ds) => |ds| == |fs| && forall j | 0 <= j < |fs| :: fs[j](xs) == Ok(ds[j])
            case Err(_) => exists j | 0 <= j < |fs| :: fs[j](xs).Err?
  {
    if fs != [] {
      ResultsIs(fs[1..], xs);
      assert fs == [fs[0]] + fs[1..];
    }
  }

  /** A node over pointwise operands is pointwise. */
  lemma NodePointwise<V(!new)>(m: Kernels<V>, param: string, e: Py.Expr, es: seq<Py.Expr>, fs: seq<seq<V> -> Res<Datum<V>>>, xs: seq<V>)
    requires !e.Name? && !IsConstant(e) && Operands(e) == Some(es) && AllPointwise(m, param, es, fs, xs)
    ensures Pointwise(m, param, e, xs, RunAll(Kernel(m, e), fs, xs))
  {
    hide Pointwise, Broadcast, Kernel;
    OperandsSmaller(e);
    ResultsIs(fs, xs);
    match Results(fs, xs)
    case Err(x) =>
      var j :| 0 <= j < |fs| && fs[j](xs).Err?;
      OperandRaises(m, param, e, es, j, xs, fs[j](xs).error, x);
    case Ok(ds) =>
      forall j | 0 <= j < |es| ensures Pointwise(m, param, es[j], xs, Ok(ds[j])) {
        assert fs[j](xs) == Ok(ds[j]);
      }
      if AllScalars(ds) {
        ScalarNode(m, param, e, es, xs, ds);
      } else {
        ArrayNode(m, param, e, es, xs, ds);
      }
  }

  lemma OperandRaises<V(!new)>(m: Kernels<V>, param: string, e: Py.Expr, es: seq<Py.Expr>, j: nat, xs: seq<V>, x: string, y: string)
    requires !e.Name? && !IsConstant(e) && Operands(e) == Some(es) && j < |es| && Pointwise(m, param, es[j], xs, Err(x))
    ensures Pointwise(m, param, e, xs, Err(y))
  {
    if xs != [] {
      var i :| 0 <= i < |xs| && Eval(m, param, es[j], xs[i]).Err?;
      PartRaises(m, param, e, es, j, xs[i]);
    }
  }

  lemma PartRaises<V>(m: Kernels<V>, param: string, e: Py.Expr, es: seq<Py.Expr>, j: nat, x: V)
    requires Operands(e) == Some(es) && j < |es| && Eval(m, param, es[j], x).Err?
    ensures Eval(m, param, e, x).Err?
  {
  }

  /** One level of evaluation is what the node's kernel does to the values of its operands. */
  lemma EvalNode<V>(m: Kernels<V>, param: string, e: Py.Expr, es: seq<Py.Expr>, x: V, vs: seq<V>)
    requires !e.Name? && !IsConstant(e) && Operands(e) == Some(es) && |vs| == |es|
    requires forall j | 0 <= j < |es| :: Eval(m, param, es[j], x) == Ok(vs[j])
    ensures Eval(m, param, e, x) == Kernel(m, e)(vs)
  {
    assert |es| > 0 && Eval(m, param, es[0], x) == Ok(vs[0]);
    assert |es| > 1 ==> Eval(m, param, es[1], x) == Ok(vs[1]);
    assert |es| > 2 ==> Eval(m, param, es[2], x) == Ok(vs[2]);
  }

  lemma ScalarNode<V(!new)>(m: Kernels<V>, param: string, e: Py.Expr, es: seq<Py.Expr>, xs: seq<V>, ds: seq<Datum<V>>)
    requires !e.Name? && !IsConstant(e) && Operands(e) == Some(es) && |ds| == |es| && AllScalars(ds)
    requires forall j | 0 <= j < |es| :: Pointwise(m, param, es[j], xs, Ok(ds[j]))
    ensures Pointwise(m, param, e, xs, Broadcast(Kernel(m, e), ds))
  {
    hide Kernel, Eval;
    var vs := Scalars(ds);
    forall x ensures Eval(m, param, e, x) == Kernel(m, e)(vs) {
      forall j | 0 <= j < |es| ensures Eval(m, param, es[j], x) == Ok(vs[j]) {
        assert Pointwise(m, param, es[j], xs, Ok(ds[j]));
      }
      EvalNode(m, param, e, es, x, vs);
    }
    if xs != [] {
      assert Eval(m, param, e, xs[0]) == Kernel(m, e)(vs);
    }
  }

  lemma {:induction false} LengthIs<V>(ds: seq<Datum<V>>, n: nat)
    requires !AllScalars(ds) && forall j | 0 <= j < |ds| :: Fits(ds[j], n)
    ensures Length(ds) == n
  {
    if ds[0].Scalar? {
      assert ds == [ds[0]] + ds[1..];
      LengthIs(ds[1..], n);
    }
  }

  lemma ArrayNode<V(!new)>(m: Kernels<V>, param: string, e: Py.Expr, es: seq<Py.Expr>, xs: seq<V>, ds: seq<Datum<V>>)
    requires !e.Name? && !IsConstant(e) && Operands(e) == Some(es) && |ds| == |es| && !AllScalars(ds)
    requires forall j | 0 <= j < |es| :: Pointwise(m, param, es[j], xs, Ok(ds[j]))
    ensures Pointwise(m, param, e, xs, Broadcast(Kernel(m, e), ds))
  {
    hide Kernel, Eval, MapAll, Length, AllScalars;
    var n := |xs|;
    forall j | 0 <= j < |ds| ensures Fits(ds[j], n) {
      assert Pointwise(m, param, es[j], xs, Ok(ds[j]));
    }
    LengthIs(ds, n);
    var rows := Rows(ds, n);
    var op := Kernel(m, e);
    forall i | 0 <= i < n ensures Eval(m, param, e, xs[i]) == op(rows[i]) {
      forall j | 0 <= j < |es| ensures Eval(m, param, es[j], xs[i]) == Ok(rows[i][j]) {
        assert Pointwise(m, param, es[j], xs, Ok(ds[j]));
      }
      EvalNode(m, param, e, es, xs[i], rows[i]);
    }
    match MapAll(op, rows)
    case Ok(rs) =>
      MapAllOk(op, rows, rs);
      assert Broadcast(op, ds) == Ok(Array(rs));
    case Err(x) =>
      MapAllErr(op, rows, x);
      var i: nat :| i < |rows| && AllBefore(op, rows, i) && op(rows[i]) == Err(x);
      assert Eval(m, param, e, xs[i]).Err?;
      assert Broadcast(op, ds) == Err(x);
  }

  /** For every accepted expression and every non-empty array the fast path returns `ys` exactly when `ys` is
      the expression evaluated at each element; otherwise it raises. */
  lemma FastIsPointwise<V(!new)>(m: Kernels<V>, param: string, e: Py.Expr, xs: seq<V>, ys: seq<V>)
    requires Lower(m, param, e).Some? && xs != []
    ensures Fast(Lower(m, param, e).value, xs) == Ok(ys) <==>
            |ys| == |xs| && forall i | 0 <= i < |xs| :: Eval(m, param, e, xs[i]) == Ok(ys[i])
  {
    hide Lower, Eval;
    LowerPointwise(m, param, e, xs);
    match Lower(m, param, e).value(xs)
    case Ok(Array(zs)) =>
      if |ys| == |xs| && forall i | 0 <= i < |xs| :: Eval(m, param, e, xs[i]) == Ok(ys[i]) {
        assert ys == zs;
      }
    case Ok(Scalar(v)) =>
      if |ys| == |xs| && forall i | 0 <= i < |xs| :: Eval(m, param, e, xs[i]) == Ok(ys[i]) {
        assert ys == seq(|xs|, _ => v);
      }
    case Err(_) =>
  }

  // ----- the empty array -----

  /** No part of `e` that does not mention the parameter raises. */
  predicate ConstantsQuiet<V>(m: Kernels<V>, param: string, e: Py.Expr, x: V)
    decreases e, 4
  {
    if Operands(e).None? then true
    else
      OperandsSmaller(e);
      && AllQuiet(m, param, e, Operands(e).value, x)
      && (Closed(e) ==> Eval(m, param, e, x).Ok?)
  }

  predicate AllQuiet<V>(m: Kernels<V>, param: string, e: Py.Expr, es: seq<Py.Expr>, x: V)
    requires forall j | 0 <= j < |es| :: es[j] < e
    decreases e, |es|
  {
    es == [] || (ConstantsQuiet(m, param, es[0], x) && AllQuiet(m, param, e, es[1..], x))
  }

  /** Reads no name. */
  predicate Closed(e: Py.Expr)
    decreases e, 4
  {
    if e.Name? then false
    else if Operands(e).None? then true
    else OperandsSmaller(e); AllClosed(e, Operands(e).value)
  }

  predicate AllClosed(e: Py.Expr, es: seq<Py.Expr>)
    requires forall j | 0 <= j < |es| :: es[j] < e
    decreases e, |es|
  {
    es == [] || (Closed(es[0]) && AllClosed(e, es[1..]))
  }

  /** On the empty array a constant part is still evaluated: the closure raises exactly when one of them does,
      although there is no element that could. */
  lemma {:induction false} EmptyArray<V(!new)>(m: Kernels<V>, param: string, e: Py.Expr, x: V)
    requires Lower(m, param, e).Some?
    ensures var r := Lower(m, param, e).value([]);
            (r.Ok? <==> ConstantsQuiet(m, param, e, x)) && (r.Ok? ==> (r.value.Scalar? <==> Closed(e)))
    decreases e, 4
  {
    if !e.Name? && !IsConstant(e) {
      hide Kernel, Pointwise, Broadcast;
      OperandsSmaller(e);
      var es := Operands(e).value;
      var fs := LowerAll(m, param, e, es).value;
      EmptyAll(m, param, e, es, x);
      LowerAllPointwise(m, param, e, es, []);
      ResultsIs(fs, []);
      if Results(fs, []).Ok? {
        var ds := Results(fs, []).value;
        forall j | 0 <= j < |es| ensures Pointwise(m, param, es[j], [], Ok(ds[j])) {
          assert fs[j]([]) == Ok(ds[j]);
        }
        EmptyNode(m, param, e, es, ds, x);
      }
    }
  }

  /** So the fast path gives nothing for nothing, or raises. */
  lemma FastOnEmpty<V(!new)>(m: Kernels<V>, param: string, e: Py.Expr, x: V, ys: seq<V>)
    requires Lower(m, param, e).Some?
    ensures Fast(Lower(m, param, e).value, []) == Ok(ys) <==> ys == [] && ConstantsQuiet(m, param, e, x)
  {
    hide Lower, Eval, ConstantsQuiet;
    EmptyArray(m, param, e, x);
    LowerPointwise(m, param, e, []);
    match Lower(m, param, e).value([])
    case Ok(Array(zs)) => assert zs == [];
    case Ok(Scalar(v)) => assert seq(0, _ => v) == [];
    case Err(_) =>
  }

  lemma {:induction false} EmptyAll<V(!new)>(m: Kernels<V>, param: string, e: Py.Expr, es: seq<Py.Expr>, x: V)
    requires (forall j | 0 <= j < |es| :: es[j] < e) && LowerAll(m, param, e, es).Some?
    ensures var r := Results(LowerAll(m, param, e, es).value, []);
            (r.Ok? <==> AllQuiet(m, param, e, es, x)) && (r.Ok? ==> (AllScalars(r.value) <==> AllClosed(e, es)))
    decreases e, |es|
  {
    hide ConstantsQuiet, Closed, Lower;
    if es != [] {
      EmptyArray(m, param, es[0], x);
      EmptyAll(m, param, e, es[1..], x);
      var fs := LowerAll(m, param, e, es[1..]).value;
      var all := LowerAll(m, param, e, es).value;
      assert all[0] == Lower(m, param, es[0]).value && all[1..] == fs;
      if Results(all, []).Ok? {
        ScalarsFirst(Results(all, []).value);
        assert Results(all, []).value[1..] == Results(fs, []).value;
      }
    }
  }

  lemma ScalarsFirst<V>(ds: seq<Datum<V>>)
    requires ds != []
    ensures AllScalars(ds) <==> ds[0].Scalar? && AllScalars(ds[1..])
  {
    assert ds == [ds[0]] + ds[1..];
  }

  lemma EmptyNode<V(!new)>(m: Kernels<V>, param: string, e: Py.Expr, es: seq<Py.Expr>, ds: seq<Datum<V>>, x: V)
    requires !e.Name? && !IsConstant(e) && Operands(e) == Some(es) && |ds| == |es|
    requires forall j | 0 <= j < |es| :: Pointwise(m, param, es[j], [], Ok(ds[j]))
    ensures var r := Broadcast(Kernel(m, e), ds);
            && (AllScalars(ds) ==> (r.Ok? <==> Eval(m, param, e, x).Ok?) && (r.Ok? ==> r.value.Scalar?))
            && (!AllScalars(ds) ==> r == Ok(Array([])))
  {
    hide Kernel, Eval, Length, AllScalars;
    if AllScalars(ds) {
      var vs := Scalars(ds);
      forall j | 0 <= j < |es| ensures Eval(m, param, es[j], x) == Ok(vs[j]) {
        assert Pointwise(m, param, es[j], [], Ok(ds[j]));
        AllScalarsAt(ds, j);
      }
      EvalNode(m, param, e, es, x, vs);
    } else {
      forall j | 0 <= j < |ds| ensures Fits(ds[j], 0) {
        assert Pointwise(m, param, es[j], [], Ok(ds[j]));
      }
      LengthIs(ds, 0);
      assert Rows(ds, 0) == [];
    }
  }

  lemma AllScalarsAt<V>(ds: seq<Datum<V>>, j: nat)
    requires AllScalars(ds) && j < |ds|
    ensures ds[j].Scalar? && Scalars(ds)[j] == ds[j].v
  {
  }
}
