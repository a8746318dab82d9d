/** The part of Python's abstract syntax the walker looks at, and what it means on integers. */
module PyAst {
  import opened Wrappers
  import Ir

  datatype UnaryOp = USub | UAdd | Invert | OtherUnary

  datatype Operator = Add | Sub | Mult | Div | FloorDiv | Mod | Pow | BitAnd | BitOr | BitXor | OtherOperator

  datatype CmpOp = Lt | LtE | Gt | GtE | Eq | NotEq | OtherCmp

  datatype Expr =
    | Name(id: string)
    | IntConst(n: int)
    | BoolConst(b: bool)
    | FloatConst(w: Ir.F64)
    | OtherConst
    | UnaryExpr(uop: UnaryOp, operand: Expr)
    | BinExpr(bop: Operator, left: Expr, right: Expr)
    | Compare(first: Expr, ops: seq<CmpOp>, comparators: seq<Expr>)
    | IfExp(test: Expr, body: Expr, orelse: Expr)
    | MathCall(attr: string, margs: seq<Expr>, mkeywords: bool)    // math.<attr>(...)
    | Call(func: string, args: seq<Expr>, keywords: bool)          // <func>(...)
    | OtherExpr

  datatype Stmt =
    | Assign(targets: seq<Expr>, value: Expr)
    | AugAssign(target: Expr, op: Operator, value: Expr)
    | Return(result: Option<Expr>)
    | If(test: Expr, body: seq<Stmt>, orelse: seq<Stmt>)
    | For(target: Expr, iter: Expr, body: seq<Stmt>, orelse: seq<Stmt>)
    | While(test: Expr, body: seq<Stmt>, orelse: seq<Stmt>)
    | Break
    | Continue
    | StringExpr                       // a string on its own, such as a docstring
    | OtherStmt

  function StripDocstring(ss: seq<Stmt>): seq<Stmt> {
    if ss != [] && ss[0].StringExpr? then ss[1..] else ss
  }
}

/** Python's meaning of the all-integer subset: unbounded integers, floor division, lazy conditional
    expressions, loop variables taken from the range. */
module PySemantics {
  import opened Wrappers
  import opened PyAst

  type Env = map<string, int>

  function FloorQuotient(a: int, b: int): int
    requires b != 0
  {
    // Dafny's `/` leaves a remainder in [0, |b|); Python's remainder has the sign of the divisor.
    if b > 0 || a % b == 0 then a / b else a / b - 1
  }

  function FloorRemainder(a: int, b: int): int
    requires b != 0
  {
    a - b * FloorQuotient(a, b)
  }

  function Arith(op: Operator, a: int, b: int): Option<int> {
    match op
    case Add => Some(a + b)
    case Sub => Some(a - b)
    case Mult => Some(a * b)
    case FloorDiv => if b == 0 then None else Some(FloorQuotient(a, b))
    case Mod => if b == 0 then None else Some(FloorRemainder(a, b))
    case _ => None
  }

  function Test(op: CmpOp, a: int, b: int): Option<bool> {
    match op
    case Lt => Some(a < b)
    case LtE => Some(a <= b)
    case Gt => Some(a > b)
    case GtE => Some(a >= b)
    case Eq => Some(a == b)
    case NotEq => Some(a != b)
    case OtherCmp => None
  }

  /** The integer an expression evaluates to (True is 1); None if it raises or is not of this subset. */
  function Eval(e: Expr, env: Env): Option<int> {
    match e
    case Name(id) => if id in env then Some(env[id]) else None
    case IntConst(n) => Some(n)
    case BoolConst(b) => Some(if b then 1 else 0)
    case UnaryExpr(op, a) =>
      var v :- Eval(a, env);
      (match op case USub => Some(-v) case UAdd => Some(v) case _ => None)
    case BinExpr(op, l, r) =>
      var u :- Eval(l, env);
      var v :- Eval(r, env);
      Arith(op, u, v)
    case Compare(l, ops, rs) =>
      if |ops| == 1 && |rs| == 1 then
        var u :- Eval(l, env);
        var v :- Eval(rs[0], env);
        var b :- Test(ops[0], u, v);
        Some(if b then 1 else 0)
      else None
    case IfExp(t, y, n) =>
      var c :- Eval(t, env);
      if c != 0 then Eval(y, env) else Eval(n, env)
    case Call(f, args, kw) =>
      if f == "int" && |args| == 1 && !kw then Eval(args[0], env) else None
    case _ => None
  }

  datatype Outcome =
    | Normal(env: Env)
    | Broke(env: Env)
    | Continued(env: Env)
    | Returned(v: int)
    | Raised
    | Timeout

  function Exec(fuel: nat, ss: seq<Stmt>, env: Env): Outcome
    decreases fuel, ss, 0
  {
    if ss == [] then Normal(env)
    else
      match ExecStmt(fuel, ss[0], env)
      case Normal(env') => Exec(fuel, ss[1..], env')
      case other => other
  }

  function ExecStmt(fuel: nat, s: Stmt, env: Env): Outcome
    decreases fuel, s, 0
  {
    match s
    case Assign(ts, e) =>
      (match Eval(e, env)
       case Some(v) => if |ts| == 1 && ts[0].Name? then Normal(env[ts[0].id := v]) else Raised
       case None => Raised)
    case AugAssign(t, op, e) =>
      (match (Eval(t, env), Eval(e, env))
       case (Some(u), Some(v)) =>
         (match Arith(op, u, v)
          case Some(w) => if t.Name? then Normal(env[t.id := w]) else Raised
          case None => Raised)
       case _ => Raised)
    case Return(r) =>
      if r.None? then Raised else (match Eval(r.value, env) case Some(v) => Returned(v) case None => Raised)
    case If(t, yes, no) =>
      (match Eval(t, env)
       case Some(c) => if c != 0 then Exec(fuel, yes, env) else Exec(fuel, no, env)
       case None => Raised)
    case For(t, iter, body, orelse) =>
      (match RangeOf(iter, env)
       case Some((lo, hi)) => if t.Name? && orelse == [] then ExecFor(fuel, t.id, lo, hi, body, env) else Raised
       case None => Raised)
    case While(t, body, orelse) => if orelse == [] then ExecWhile(fuel, t, body, env) else Raised
    case Break => Broke(env)
    case Continue => Continued(env)
    case StringExpr => Normal(env)
    case OtherStmt => Raised
  }

  /** The bounds of `range(end)` or `range(start, end)`. */
  function RangeOf(e: Expr, env: Env): Option<(int, int)> {
    if e.Call? && e.func == "range" && !e.keywords && |e.args| == 1 then
      var hi :- Eval(e.args[0], env);
      Some((0, hi))
    else if e.Call? && e.func == "range" && !e.keywords && |e.args| == 2 then
      var lo :- Eval(e.args[0], env);
      var hi :- Eval(e.args[1], env);
      Some((lo, hi))
    else None
  }

  function ExecFor(fuel: nat, v: string, i: int, hi: int, body: seq<Stmt>, env: Env): Outcome
    decreases fuel, body, 1
  {
    if fuel == 0 then Timeout
    else if i >= hi then Normal(env)
    else
      match Exec(fuel, body, env[v := i])
      case Normal(env') => ExecFor(fuel - 1, v, i + 1, hi, body, env')
      case Continued(env') => ExecFor(fuel - 1, v, i + 1, hi, body, env')
      case Broke(env') => Normal(env')
      case other => other
  }

  function ExecWhile(fuel: nat, t: Expr, body: seq<Stmt>, env: Env): Outcome
    decreases fuel, body, 1
  {
    if fuel == 0 then Timeout
    else
      match Eval(t, env)
      case None => Raised
      case Some(c) =>
        if c == 0 then Normal(env)
        else
          match Exec(fuel, body, env)
          case Normal(env') => ExecWhile(fuel - 1, t, body, env')
          case Continued(env') => ExecWhile(fuel - 1, t, body, env')
          case Broke(env') => Normal(env')
          case other => other
  }
}
