/** What a compiled function computes, said on the Python source: integers are i64 words, floats are what an `Fpu` does, an
    integer that meets a float becomes one.  It is Python's meaning but for four things: words wrap around, `//`, `%`
    and `/` on integers round towards zero and trap, both arms of a conditional are evaluated and brought to one kind, and
    the bounds of a range may be floats. */
module Numbers {
  import opened Wrappers
  import opened Ir
  import opened Machine
  import Py = PyAst

  datatype Number = Int(n: I64) | Flt(w: F64)

  /** What evaluation comes to: a number, a trap, or nothing that is said here (a name without a value, a form that is
      not of this subset). */
  datatype Found = Is(a: Number) | Traps | Unknown

  type Env = map<string, Number>

  // ----- operations -----

  function Float(m: Fpu, a: Number): F64 {
    match a
    case Int(n) => m.fromInt(n)
    case Flt(w) => w
  }

  function IntArith(op: Py.Operator, a: I64, b: I64): Found {
    match op
    case Add => Is(Int(Wrap(a + b)))
    case Sub => Is(Int(Wrap(a - b)))
    case Mult => Is(Int(Wrap(a * b)))
    case FloorDiv => Quotient(a, b)
    case Div => Quotient(a, b)
    case Mod => if b == 0 then Traps else Is(Int(Wrap(TruncRem(a, b))))
    case _ => Unknown
  }

  function Quotient(a: I64, b: I64): Found {
    if b == 0 || (a == -TWO_63 && b == -1) then Traps else Is(Int(Wrap(TruncDiv(a, b))))
  }

  function FloatArith(m: Fpu, op: Py.Operator, a: F64, b: F64): Found {
    match op
    case Add => Is(Flt(m.add(a, b)))
    case Sub => Is(Flt(m.sub(a, b)))
    case Mult => Is(Flt(m.mul(a, b)))
    case Div => Is(Flt(m.div(a, b)))
    case Pow => Is(Flt(m.pow(a, b)))
    case _ => Unknown
  }

  function Arith(m: Fpu, op: Py.Operator, a: Number, b: Number): Found {
    if a.Int? && b.Int? then IntArith(op, a.n, b.n) else FloatArith(m, op, Float(m, a), Float(m, b))
  }

  function IntTest(op: Py.CmpOp, a: I64, b: I64): Option<bool> {
    match op
    case Lt => Some(a < b)
    case LtE => Some(a <= b)
    case Gt => Some(a > b)
    case GtE => Some(a >= b)
    case Eq => Some(a == b)
    case NotEq => Some(a != b)
    case OtherCmp => None
  }

  function FloatTest(m: Fpu, op: Py.CmpOp, a: F64, b: F64): Option<bool> {
    match op
    case Lt => Some(m.cmp(Lt, a, b))
    case LtE => Some(m.cmp(Le, a, b))
    case Gt => Some(m.cmp(Gt, a, b))
    case GtE => Some(m.cmp(Ge, a, b))
    case Eq => Some(m.cmp(Eq, a, b))
    case NotEq => Some(m.cmp(Ne, a, b))
    case OtherCmp => None
  }

  function Compared(m: Fpu, op: Py.CmpOp, a: Number, b: Number): Found {
    match if a.Int? && b.Int? then IntTest(op, a.n, b.n) else FloatTest(m, op, Float(m, a), Float(m, b))
    case Some(t) => Is(Int(if t then 1 else 0))
    case None => Unknown
  }

  function Signed(m: Fpu, op: Py.UnaryOp, a: Number): Found {
    match op
    case USub => Is(match a case Int(n) => Int(Wrap(0 - n)) case Flt(w) => Flt(m.neg(w)))
    case UAdd => Is(a)
    case _ => Unknown
  }

  /** The function of the math module that has this name. */
  function MathFunction(name: string): Option<MathFn> {
    if name == "sqrt" then Some(Sqrt)
    else if name == "fabs" || name == "abs" then Some(FAbs)
    else if name == "exp" then Some(Exp)
    else if name == "log" then Some(Log)
    else if name == "sin" then Some(Sin)
    else if name == "cos" then Some(Cos)
    else if name == "tan" then Some(Tan)
    else if name == "floor" then Some(Floor)
    else if name == "ceil" then Some(Ceil)
    else None
  }

  /** `int(a)`: towards zero, and a trap if there is no such i64. */
  function ToInt(m: Fpu, a: Number): Found {
    match a
    case Int(n) => Is(a)
    case Flt(w) => (match m.toInt(w) case Some(n) => Is(Int(n)) case None => Traps)
  }

  /** One arm of a conditional, a float if the other arm is. */
  function Arm(m: Fpu, a: Number, other: Number): Number { if other.Flt? then Flt(Float(m, a)) else a }

  /** Whether a test succeeds; of a float nothing is said. */
  function Holds(a: Number): Option<bool> {
    match a
    case Int(n) => Some(n != 0)
    case Flt(_) => None
  }

  function Choose(m: Fpu, c: Number, a: Number, b: Number): Found {
    match Holds(c)
    case Some(t) => Is(if t then Arm(m, a, b) else Arm(m, b, a))
    case None => Unknown
  }

  /** What comes of parts that are not all numbers. */
  function Fails(u: Found, v: Found): Found { if u.Unknown? || v.Unknown? then Unknown else Traps }

  function Calculated(m: Fpu, op: Py.Operator, u: Found, v: Found): Found {
    if u.Is? && v.Is? then Arith(m, op, u.a, v.a) else Fails(u, v)
  }

  function Tested(m: Fpu, op: Py.CmpOp, u: Found, v: Found): Found {
    if u.Is? && v.Is? then Compared(m, op, u.a, v.a) else Fails(u, v)
  }

  function Chosen(m: Fpu, c: Found, u: Found, v: Found): Found {
    if c.Is? && u.Is? && v.Is? then Choose(m, c.a, u.a, v.a) else Fails(c, Fails(u, v))
  }

  // ----- expressions -----

  function Meaning(m: Fpu, e: Py.Expr, env: Env): Found {
    match e
    case Name(id) => if id in env then Is(env[id]) else Unknown
    case IntConst(n) => if InI64(n) then Is(Int(n)) else Unknown
    case BoolConst(b) => Is(Int(if b then 1 else 0))
    case FloatConst(w) => Is(Flt(w))
    case UnaryExpr(op, a) =>
      var u := Meaning(m, a, env);
      if u.Is? then Signed(m, op, u.a) else u
    case BinExpr(op, l, r) => Calculated(m, op, Meaning(m, l, env), Meaning(m, r, env))
    case Compare(l, ops, rs) =>
      if |ops| == 1 && |rs| == 1 then Tested(m, ops[0], Meaning(m, l, env), Meaning(m, rs[0], env)) else Unknown
    case IfExp(t, y, n) => Chosen(m, Meaning(m, t, env), Meaning(m, y, env), Meaning(m, n, env))
    case MathCall(name, args, kw) =>
      if |args| == 1 && !kw && MathFunction(name).Some? then
        var u := Meaning(m, args[0], env);
        if u.Is? then Is(Flt(m.math(MathFunction(name).value, Float(m, u.a)))) else u
      else Unknown
    case Call(g, args, kw) =>
      if |args| == 1 && !kw && (g == "int" || g == "float") then
        var u := Meaning(m, args[0], env);
        if !u.Is? then u else if g == "int" then ToInt(m, u.a) else Is(Flt(Float(m, u.a)))
      else Unknown
    case _ => Unknown
  }

  // ----- statements -----

  function Names(e: Py.Expr): set<string> {
    match e
    case Name(id) => {id}
    case UnaryExpr(_, a) => Names(a)
    case BinExpr(_, l, r) => Names(l) + Names(r)
    case Compare(l, _, rs) => Names(l) + (if rs != [] then Names(rs[0]) else {})
    case IfExp(t, y, n) => Names(t) + Names(y) + Names(n)
    case MathCall(_, args, _) => if args != [] then Names(args[0]) else {}
    case Call(_, args, _) => if args != [] then Names(args[0]) else {}
    case _ => {}
  }

  datatype Outcome =
    | Normal(env: Env)
    | Broke(env: Env)
    | Continued(env: Env)
    | Returned(a: Number)
    | Trapped
    | Timeout
    | Unbound          // an expression was evaluated of which a name has no value
    | Unsupported      // a form that has no meaning here

  /** How evaluation of `e` has failed. */
  function Failed(u: Found, e: Py.Expr, env: Env): Outcome {
    if u.Traps? then Trapped else if Names(e) <= env.Keys then Unsupported else Unbound
  }

  function Exec(m: Fpu, fuel: nat, ss: seq<Py.Stmt>, env: Env): Outcome
    decreases fuel, ss, 0
  {
    if ss == [] then Normal(env)
    else
      match ExecStmt(m, fuel, ss[0], env)
      case Normal(env') => Exec(m, fuel, ss[1..], env')
      case other => other
  }

  function ExecStmt(m: Fpu, fuel: nat, s: Py.Stmt, env: Env): Outcome
    decreases fuel, s, 0
  {
    match s
    case Assign(ts, e) =>
      (match Meaning(m, e, env)
       case Is(a) => if |ts| == 1 && ts[0].Name? then Normal(env[ts[0].id := a]) else Unsupported
       case u => Failed(u, e, env))
    case AugAssign(t, op, e) =>
      (match Meaning(m, Py.BinExpr(op, t, e), env)
       case Is(a) => if t.Name? then Normal(env[t.id := a]) else Unsupported
       case u => Failed(u, Py.BinExpr(op, t, e), env))
    case Return(r) =>
      if r.None? then Unsupported
      else (match Meaning(m, r.value, env) case Is(a) => Returned(a) case u => Failed(u, r.value, env))
    case If(t, yes, no) =>
      (match Meaning(m, t, env)
       case Is(c) =>
         (match Holds(c)
          case Some(b) => if b then Exec(m, fuel, yes, env) else Exec(m, fuel, no, env)
          case None => Unsupported)
       case u => Failed(u, t, env))
    case For(t, iter, body, orelse) =>
      if t.Name? && orelse == [] && IsRange(iter) then
        var (from, to) := Ends(iter);
        (match (Bound(m, from, env), Bound(m, to, env))
         case (Is(Int(lo)), Is(Int(hi))) => ExecFor(m, fuel, t.id, lo, hi, body, env)
         case (Is(_), v) => Failed(v, to, env)
         case (u, Is(_)) => Failed(u, from, env)
         case (u, v) => Failed(Fails(u, v), if u.Unknown? then from else to, env))
      else Unsupported
    case While(t, body, orelse) => if orelse == [] then ExecWhile(m, fuel, t, body, env) else Unsupported
    case Break => Broke(env)
    case Continue => Continued(env)
    case StringExpr => Normal(env)
    case OtherStmt => Unsupported
  }

  /** `range(end)` or `range(start, end)`. */
  predicate IsRange(e: Py.Expr) { e.Call? && e.func == "range" && !e.keywords && 1 <= |e.args| <= 2 }

  function Ends(e: Py.Expr): (Py.Expr, Py.Expr)
    requires IsRange(e)
  {
    if |e.args| == 1 then (Py.IntConst(0), e.args[0]) else (e.args[0], e.args[1])
  }

  function Bound(m: Fpu, e: Py.Expr, env: Env): Found {
    var u := Meaning(m, e, env);
    if u.Is? then ToInt(m, u.a) else u
  }

  function ExecFor(m: Fpu, fuel: nat, v: string, i: I64, hi: I64, body: seq<Py.Stmt>, env: Env): Outcome
    decreases fuel, body, 1
  {
    if fuel == 0 then Timeout
    else if i >= hi then Normal(env)
    else
      match Exec(m, fuel, body, env[v := Int(i)])
      case Normal(env') => ExecFor(m, fuel - 1, v, i + 1, hi, body, env')
      case Continued(env') => ExecFor(m, fuel - 1, v, i + 1, hi, body, env')
      case Broke(env') => Normal(env')
      case other => other
  }

  function ExecWhile(m: Fpu, fuel: nat, t: Py.Expr, body: seq<Py.Stmt>, env: Env): Outcome
    decreases fuel, body, 1
  {
    if fuel == 0 then Timeout
    else
      match Meaning(m, t, env)
      case Is(c) =>
        (match Holds(c)
         case None => Unsupported
         case Some(false) => Normal(env)
         case Some(true) =>
           match Exec(m, fuel, body, env)
           case Normal(env') => ExecWhile(m, fuel - 1, t, body, env')
           case Continued(env') => ExecWhile(m, fuel - 1, t, body, env')
           case Broke(env') => Normal(env')
           case other => other)
      case u => Failed(u, t, env)
  }
}
