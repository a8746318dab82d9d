/** What an IR body means: a fuel-indexed big-step semantics that never mentions blocks, jumps or
    the dtype a consumer "expects", and the typing discipline under which it is the meaning of the
    generated code. */
module Semantics {
  import opened Wrappers
  import opened Ir
  import opened Machine

  type Store = map<string, Val>

  // ----- expressions -----

  function IntArith(op: BinOp, a: I64, b: I64): Option<Val> {
    match op
    case Add => Some(IntV(Wrap(a + b)))
    case Sub => Some(IntV(Wrap(a - b)))
    case Mul => Some(IntV(Wrap(a * b)))
    case Div => Quotient(a, b)
    case FloorDiv => Quotient(a, b)
    case Mod => if b == 0 then None else Some(IntV(Wrap(TruncRem(a, b))))
    case Pow => None
  }

  /** Hardware division: truncating, and trapping on a zero divisor and on overflow. */
  function Quotient(a: I64, b: I64): Option<Val> {
    if b == 0 || (a == -TWO_63 && b == -1) then None else Some(IntV(Wrap(TruncDiv(a, b))))
  }

  function FloatArith(m: Fpu, op: BinOp, a: F64, b: F64): Option<Val> {
    match op
    case Add => Some(FltV(m.add(a, b)))
    case Sub => Some(FltV(m.sub(a, b)))
    case Mul => Some(FltV(m.mul(a, b)))
    case Div => Some(FltV(m.div(a, b)))
    case Pow => Some(FltV(m.pow(a, b)))
    case FloorDiv => None
    case Mod => None
  }

  function Arith(m: Fpu, op: BinOp, u: Option<Val>, v: Option<Val>): Option<Val> {
    match (u, v)
    case (Some(IntV(a)), Some(IntV(b))) => IntArith(op, a, b)
    case (Some(FltV(a)), Some(FltV(b))) => FloatArith(m, op, a, b)
    case _ => None
  }

  function Compared(m: Fpu, op: CmpOp, u: Option<Val>, v: Option<Val>): Option<Val> {
    match (u, v)
    case (Some(IntV(a)), Some(IntV(b))) => Some(FlagV(IntCmp(op, a, b)))
    case (Some(FltV(a)), Some(FltV(b))) => Some(FlagV(m.cmp(op, a, b)))
    case _ => None
  }

  function Signed(m: Fpu, op: UnaryOp, u: Option<Val>): Option<Val> {
    if op == Plus then u
    else
      match u
      case Some(IntV(a)) => Some(IntV(Wrap(0 - a)))
      case Some(FltV(a)) => Some(FltV(m.neg(a)))
      case _ => None
  }

  function Chosen(c: Option<Val>, u: Option<Val>, v: Option<Val>): Option<Val> {
    if c.None? || u.None? || v.None? || Truth(c.value).None? then None
    else if Truth(c.value).value then u else v
  }

  function Called(m: Fpu, f: MathFn, u: Option<Val>): Option<Val> {
    match u
    case Some(FltV(a)) => Some(FltV(m.math(f, a)))
    case _ => None
  }

  function ToI64(m: Fpu, u: Option<Val>): Option<Val> {
    match u
    case Some(FltV(a)) => (match m.toInt(a) case Some(n) => Some(IntV(n)) case None => None)
    case _ => None
  }

  function ToF64(m: Fpu, u: Option<Val>): Option<Val> {
    match u
    case Some(IntV(a)) => Some(FltV(m.fromInt(a)))
    case _ => None
  }

  /** The value of `e` on input `x`; None when evaluation traps.  Operations pick the integer or the
      float form from the operands they meet.  Both arms of a conditional are evaluated. */
  function Eval(m: Fpu, e: Expr, x: Val, s: Store): Option<Val> {
    match e
    case Param => Some(x)
    case Local(name) => if name in s then Some(s[name]) else None
    case ConstI64(n) => Some(IntV(n))
    case ConstF64(w) => Some(FltV(w))
    case ConstBool(b) => Some(IntV(if b then 1 else 0))
    case Unary(op, a) => Signed(m, op, Eval(m, a, x, s))
    case Binary(op, l, r) => Arith(m, op, Eval(m, l, x, s), Eval(m, r, x, s))
    case Compare(op, l, r) => Compared(m, op, Eval(m, l, x, s), Eval(m, r, x, s))
    case IfExpr(t, y, n) => Chosen(Eval(m, t, x, s), Eval(m, y, x, s), Eval(m, n, x, s))
    case MathCall(f, a) => Called(m, f, Eval(m, a, x, s))
    case CastToI64(a) => ToI64(m, Eval(m, a, x, s))
    case CastToF64(a) => ToF64(m, Eval(m, a, x, s))
  }

  // ----- statements -----

  datatype Outcome =
    | Normal(s: Store)
    | Broke(s: Store)
    | Continued(s: Store)
    | Returned(v: Val, s: Store)
    | Trapped
    | Timeout              // the fuel ran out

  /** Runs a statement list.  Every loop iteration costs one unit of fuel. */
  function Exec(m: Fpu, fuel: nat, ss: seq<Stmt>, x: Val, s: Store): Outcome
    decreases fuel, ss, 0
  {
    if ss == [] then Normal(s)
    else
      match ExecStmt(m, fuel, ss[0], x, s)
      case Normal(s') => Exec(m, fuel, ss[1..], x, s')
      case other => other
  }

  function ExecStmt(m: Fpu, fuel: nat, stmt: Stmt, x: Val, s: Store): Outcome
    decreases fuel, stmt, 0
  {
    match stmt
    case Assign(name, _, e) =>
      (match Eval(m, e, x, s) case None => Trapped case Some(v) => Normal(s[name := v]))
    case Return(e) =>
      (match Eval(m, e, x, s) case None => Trapped case Some(v) => Returned(v, s))
    case Break => Broke(s)
    case Continue => Continued(s)
    case If(t, yes, no) =>
      (match EvalTest(m, t, x, s)
       case None => Trapped
       case Some(b) => if b then Exec(m, fuel, yes, x, s) else Exec(m, fuel, no, x, s))
    case While(t, body) => ExecWhile(m, fuel, t, body, x, s)
    case ForRange(v, lo, hi, body) =>
      (match (Eval(m, lo, x, s), Eval(m, hi, x, s))
       case (Some(from), Some(to)) => ExecFor(m, fuel, v, to, body, x, s[v := from])
       case _ => Trapped)
  }

  function EvalTest(m: Fpu, t: Expr, x: Val, s: Store): Option<bool> {
    var v :- Eval(m, t, x, s);
    Truth(v)
  }

  function ExecWhile(m: Fpu, fuel: nat, t: Expr, body: seq<Stmt>, x: Val, s: Store): Outcome
    decreases fuel, body, 1
  {
    if fuel == 0 then Timeout
    else
      match EvalTest(m, t, x, s)
      case None => Trapped
      case Some(false) => Normal(s)
      case Some(true) =>
        match Exec(m, fuel, body, x, s)
        case Normal(s') => ExecWhile(m, fuel - 1, t, body, x, s')
        case Continued(s') => ExecWhile(m, fuel - 1, t, body, x, s')
        case Broke(s') => Normal(s')
        case other => other
  }

  /** A counted loop.  The counter is the local itself; the bound was evaluated before the loop. */
  function ExecFor(m: Fpu, fuel: nat, v: string, to: Val, body: seq<Stmt>, x: Val, s: Store): Outcome
    decreases fuel, body, 1
  {
    if fuel == 0 then Timeout
    else if !(v in s && s[v].IntV? && to.IntV?) then Trapped
    else if s[v].n >= to.n then Normal(s)
    else
      match Exec(m, fuel, body, x, s)
      case Normal(s') => ExecFor(m, fuel - 1, v, to, body, x, Bump(s', v))
      case Continued(s') => ExecFor(m, fuel - 1, v, to, body, x, Bump(s', v))
      case Broke(s') => Normal(s')
      case other => other
  }

  function Bump(s: Store, v: string): Store {
    if v in s && s[v].IntV? then s[v := IntV(Wrap(s[v].n + 1))] else s
  }

  // ----- typing -----

  type Types = map<string, Dtype>

  /** The dtype of a value expression.  A comparison has none: its result may only be tested. */
  function ExprType(e: Expr, ts: Types, inT: Dtype): Option<Dtype>
    decreases e, 0
  {
    match e
    case Param => Some(inT)
    case Local(name) => if name in ts then Some(ts[name]) else None
    case ConstI64(_) => Some(I64)
    case ConstF64(_) => Some(F64)
    case ConstBool(_) => Some(I64)
    case Unary(_, a) => ExprType(a, ts, inT)
    case Binary(op, l, r) =>
      var d :- ExprType(l, ts, inT);
      if ExprType(r, ts, inT) == Some(d) && HasArith(op, d) then Some(d) else None
    case Compare(_, _, _) => None
    case IfExpr(t, y, n) =>
      var d :- ExprType(y, ts, inT);
      if ExprType(n, ts, inT) == Some(d) && IsTest(t, ts, inT) then Some(d) else None
    case MathCall(_, a) => if ExprType(a, ts, inT) == Some(F64) then Some(F64) else None
    case CastToI64(a) => if ExprType(a, ts, inT) == Some(F64) then Some(I64) else None
    case CastToF64(a) => if ExprType(a, ts, inT) == Some(I64) then Some(F64) else None
  }

  /** Operators the code generator has an instruction for. */
  predicate HasArith(op: BinOp, d: Dtype) {
    match d
    case I64 => op != Pow
    case F64 => op != FloorDiv && op != Mod
  }

  /** Fit for test position: a comparison of like operands, or an i64. */
  predicate IsTest(t: Expr, ts: Types, inT: Dtype)
    decreases t, 1
  {
    match t
    case Compare(_, l, r) => ExprType(l, ts, inT).Some? && ExprType(l, ts, inT) == ExprType(r, ts, inT)
    case _ => ExprType(t, ts, inT) == Some(I64)
  }

  /** Types a statement list; yields the types of the locals after it, in textual order. */
  function BodyTypes(ss: seq<Stmt>, ts: Types, inT: Dtype, outT: Dtype, inLoop: bool): Option<Types>
    decreases ss, 0
  {
    if ss == [] then Some(ts)
    else
      var ts' :- StmtTypes(ss[0], ts, inT, outT, inLoop);
      if Jumps(ss[0]) then Some(ts') else BodyTypes(ss[1..], ts', inT, outT, inLoop)
  }

  /** Statements that never fall through: what follows them in a list is dropped. */
  predicate Jumps(s: Stmt) { s.Return? || s.Break? || s.Continue? }

  function StmtTypes(s: Stmt, ts: Types, inT: Dtype, outT: Dtype, inLoop: bool): Option<Types>
    decreases s, 0
  {
    match s
    case Assign(name, d, e) =>
      if ExprType(e, ts, inT) == Some(d) && (name in ts ==> ts[name] == d) then Some(ts[name := d]) else None
    case Return(e) => if ExprType(e, ts, inT) == Some(outT) then Some(ts) else None
    case Break => if inLoop then Some(ts) else None
    case Continue => if inLoop then Some(ts) else None
    case If(t, yes, no) =>
      if !IsTest(t, ts, inT) then None
      else
        var ts' :- BodyTypes(yes, ts, inT, outT, inLoop);
        BodyTypes(no, ts', inT, outT, inLoop)
    case While(t, body) =>
      if !IsTest(t, ts, inT) then None else BodyTypes(body, ts, inT, outT, true)
    case ForRange(v, lo, hi, body) =>
      if ExprType(lo, ts, inT) == Some(I64) && ExprType(hi, ts, inT) == Some(I64)
         && (v in ts ==> ts[v] == I64)
      then BodyTypes(body, ts[v := I64], inT, outT, true) else None
  }
}
