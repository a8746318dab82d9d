/** The marshaller from Python syntax to the typed IR (`_Walker` in gilmap/_jit.py).  The functions say
    what it produces; the class does it by updating its table of locals. */
module Walker {
  import opened Wrappers
  import opened Ir
  import Py = PyAst

  datatype WalkError =
    | UnknownName | UnsupportedConstant | UnsupportedOp | FloatFloorOrMod | ChainedComparison
    | UnsupportedCall | UnsupportedNode | ReturnMismatch | BadTarget | AugChangesType | ElseClause
    | BadRange | EmptyReturn

  type Walked<+T> = Result<T, WalkError>

  type Types = map<string, Dtype>

  /** The parameter and its dtype: fixed for one function. */
  datatype Fn = Fn(param: string, inT: Dtype)

  /** What walking a body changes. */
  datatype State = State(locals: Types, out: Option<Dtype>)

  function Promote(l: Expr, lt: Dtype, r: Expr, rt: Dtype): (Expr, Expr, Dtype) {
    if lt == rt then (l, r, lt)
    else (if lt == I64 then CastToF64(l) else l, if rt == I64 then CastToF64(r) else r, F64)
  }

  function BinOpOf(op: Py.Operator): Walked<BinOp> {
    match op
    case Add => Ok(Add)
    case Sub => Ok(Sub)
    case Mult => Ok(Mul)
    case Div => Ok(Div)
    case FloorDiv => Ok(FloorDiv)
    case Mod => Ok(Mod)
    case Pow => Ok(Pow)
    case _ => Err(UnsupportedOp)
  }

  function CmpOpOf(op: Py.CmpOp): Walked<CmpOp> {
    match op
    case Lt => Ok(Lt)
    case LtE => Ok(Le)
    case Gt => Ok(Gt)
    case GtE => Ok(Ge)
    case Eq => Ok(Eq)
    case NotEq => Ok(Ne)
    case OtherCmp => Err(UnsupportedOp)
  }

  const MATH_MAP: map<string, MathFn> :=
    map["sqrt" := Sqrt, "fabs" := FAbs, "abs" := FAbs, "exp" := Exp, "log" := Log, "sin" := Sin,
        "cos" := Cos, "tan" := Tan, "floor" := Floor, "ceil" := Ceil]

  /** The IR of an expression and its dtype.  (An integer that is no i64 fails when the IR is read back,
      which rejects the function all the same.) */
  function WalkExpr(f: Fn, ls: Types, e: Py.Expr): Walked<(Expr, Dtype)> {
    match e
    case Name(id) =>
      if id == f.param then Ok((Param, f.inT))
      else if id in ls then Ok((Local(id), ls[id]))
      else Err(UnknownName)
    case BoolConst(b) => Ok((ConstBool(b), I64))
    case IntConst(n) => if InI64(n) then Ok((ConstI64(n), I64)) else Err(UnsupportedConstant)
    case FloatConst(w) => Ok((ConstF64(w), F64))
    case OtherConst => Err(UnsupportedConstant)
    case UnaryExpr(op, a) =>
      if op != Py.USub && op != Py.UAdd then Err(UnsupportedOp)
      else
        var (u, d) :- WalkExpr(f, ls, a);
        Ok((Unary(if op == Py.USub then Neg else Plus, u), d))
    case BinExpr(op, l, r) =>
      var o :- BinOpOf(op);
      var (u, lt) :- WalkExpr(f, ls, l);
      var (v, rt) :- WalkExpr(f, ls, r);
      var (u', v', d) := Promote(u, lt, v, rt);
      if (o == FloorDiv || o == Mod) && d == F64 then Err(FloatFloorOrMod) else Ok((Binary(o, u', v'), d))
    case Compare(l, ops, rs) =>
      if |ops| != 1 || |rs| != 1 then Err(ChainedComparison)
      else
        var o :- CmpOpOf(ops[0]);
        var (u, lt) :- WalkExpr(f, ls, l);
        var (v, rt) :- WalkExpr(f, ls, rs[0]);
        var (u', v', _) := Promote(u, lt, v, rt);
        Ok((Compare(o, u', v'), I64))
    case IfExp(t, y, n) =>
      var (c, _) :- WalkExpr(f, ls, t);
      var (u, yt) :- WalkExpr(f, ls, y);
      var (v, nt) :- WalkExpr(f, ls, n);
      var (u', v', d) := Promote(u, yt, v, nt);
      Ok((IfExpr(c, u', v'), d))
    case MathCall(attr, args, kw) =>
      if attr in MATH_MAP && |args| == 1 && !kw then
        var (u, d) :- WalkExpr(f, ls, args[0]);
        Ok((MathCall(MATH_MAP[attr], if d == I64 then CastToF64(u) else u), F64))
      else Err(UnsupportedCall)
    case Call(g, args, kw) =>
      if !kw && |args| == 1 then
        var (u, d) :- WalkExpr(f, ls, args[0]);
        if g == "int" then Ok((if d == F64 then CastToI64(u) else u, I64))
        else if g == "float" then Ok((if d == I64 then CastToF64(u) else u, F64))
        else Err(UnsupportedCall)
      else Err(UnsupportedCall)
    case OtherExpr => Err(UnsupportedNode)
  }

  function RecordReturn(s: State, d: Dtype): Walked<State> {
    if s.out.None? then Ok(s.(out := Some(d)))
    else if s.out.value != d then Err(ReturnMismatch)
    else Ok(s)
  }

  /** The IR of a list, whether it is terminated, and the walker's state after it.  Statements after a
      terminating one are not walked. */
  function WalkBody(f: Fn, s: State, ss: seq<Py.Stmt>): Walked<(seq<Stmt>, bool, State)>
    decreases ss, 1
  {
    WalkList(f, s, Py.StripDocstring(ss))
  }

  function WalkList(f: Fn, s: State, ss: seq<Py.Stmt>): Walked<(seq<Stmt>, bool, State)>
    decreases ss, 0
  {
    if ss == [] then Ok(([], false, s))
    else
      var (ir, term, s') :- WalkStmt(f, s, ss[0]);
      if term then Ok(([ir], true, s'))
      else
        var (rest, t, s'') :- WalkList(f, s', ss[1..]);
        Ok(([ir] + rest, t, s''))
  }

  /** The bounds of a counted loop, cast to i64. */
  function WalkRange(f: Fn, ls: Types, e: Py.Expr): Walked<(Expr, Expr)> {
    if !(e.Call? && e.func == "range" && !e.keywords && 1 <= |e.args| <= 2) then Err(BadRange)
    else
      var (a, at) :- WalkExpr(f, ls, e.args[0]);
      if |e.args| == 1 then Ok((ConstI64(0), AsI64(a, at)))
      else
        var (b, bt) :- WalkExpr(f, ls, e.args[1]);
        Ok((AsI64(a, at), AsI64(b, bt)))
  }

  function AsI64(e: Expr, d: Dtype): Expr { if d == F64 then CastToI64(e) else e }

  function WalkStmt(f: Fn, s: State, stmt: Py.Stmt): Walked<(Stmt, bool, State)>
    decreases stmt, 0
  {
    match stmt
    case Assign(ts, e) =>
      if |ts| != 1 || !ts[0].Name? then Err(BadTarget)
      else
        var (v, d) :- WalkExpr(f, s.locals, e);
        Ok((Assign(ts[0].id, d, v), false, s.(locals := s.locals[ts[0].id := d])))
    case AugAssign(t, op, e) =>
      if !t.Name? then Err(BadTarget)
      else if t.id !in s.locals then Err(UnknownName)
      else
        var o :- BinOpOf(op);
        var (u, lt) :- WalkExpr(f, s.locals, t);
        var (v, rt) :- WalkExpr(f, s.locals, e);
        var (u', v', d) := Promote(u, lt, v, rt);
        if d != s.locals[t.id] then Err(AugChangesType)
        else Ok((Assign(t.id, d, Binary(o, u', v')), false, s))
    case Return(r) =>
      if r.None? then Err(EmptyReturn)
      else
        var (v, d) :- WalkExpr(f, s.locals, r.value);
        var s' :- RecordReturn(s, d);
        Ok((Return(v), true, s'))
    case If(t, yes, no) =>
      var (c, _) :- WalkExpr(f, s.locals, t);
      var (a, at, s1) :- WalkBody(f, s, yes);
      if no == [] then Ok((If(c, a, []), false, s1))
      else
        var (b, bt, s2) :- WalkBody(f, s1, no);
        Ok((If(c, a, b), at && bt, s2))
    case For(t, iter, body, orelse) =>
      if !t.Name? then Err(BadTarget)
      else if orelse != [] then Err(ElseClause)
      else
        var (lo, hi) :- WalkRange(f, s.locals, iter);
        var (b, _, s') :- WalkBody(f, s.(locals := s.locals[t.id := I64]), body);
        Ok((ForRange(t.id, lo, hi, b), false, s'))
    case While(t, body, orelse) =>
      if orelse != [] then Err(ElseClause)
      else
        var (c, _) :- WalkExpr(f, s.locals, t);
        var (b, _, s') :- WalkBody(f, s, body);
        Ok((While(c, b), false, s'))
    case Break => Ok((Break, true, s))
    case Continue => Ok((Continue, true, s))
    case _ => Err(UnsupportedNode)
  }

  /** A callable as far as compilation looks at it: its parameters, and a body or, for a lambda, an expression. */
  datatype Callable = Def(params: seq<string>, body: seq<Py.Stmt>) | Lambda(params: seq<string>, expr: Py.Expr)

  /** The kernel `try_compile` hands to the code generator; None if the callable is rejected. */
  function KernelOf(c: Callable, inT: Dtype): Option<Kernel> {
    if |c.params| != 1 then None
    else
      var f := Fn(c.params[0], inT);
      match c
      case Lambda(_, e) =>
        (match WalkExpr(f, map[], e)
         case Ok((v, d)) => Some(Kernel(inT, d, [Return(v)]))
         case Err(_) => None)
      case Def(_, body) =>
        (match WalkBody(f, State(map[], None), body)
         case Ok((ir, term, s)) =>
           if term then Some(Kernel(inT, if s.out.Some? then s.out.value else inT, ir)) else None
         case Err(_) => None)
  }
}
