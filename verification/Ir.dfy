/** The typed IR shared by the Python walker and the code generator (src/ast_ir.rs). */
module Ir {
  type I64 = n: int | -0x8000_0000_0000_0000 <= n < 0x8000_0000_0000_0000
  /** An f64, as its 64-bit pattern. */
  type F64 = w: int | 0 <= w < 0x1_0000_0000_0000_0000

  predicate InI64(n: int) { -0x8000_0000_0000_0000 <= n < 0x8000_0000_0000_0000 }

  datatype Dtype = I64 | F64

  datatype BinOp = Add | Sub | Mul | Div | FloorDiv | Mod | Pow

  datatype CmpOp = Lt | Le | Gt | Ge | Eq | Ne

  datatype UnaryOp = Neg | Plus

  datatype MathFn = Sqrt | FAbs | Exp | Log | Sin | Cos | Tan | Floor | Ceil

  datatype Expr =
    | Param
    | Local(name: string)
    | ConstI64(n: I64)
    | ConstF64(w: F64)
    | ConstBool(b: bool)
    | Binary(bop: BinOp, left: Expr, right: Expr)
    | Unary(uop: UnaryOp, operand: Expr)
    | Compare(cop: CmpOp, cleft: Expr, cright: Expr)
    | IfExpr(test: Expr, yes: Expr, no: Expr)
    | MathCall(func: MathFn, arg: Expr)
    | CastToI64(ivalue: Expr)
    | CastToF64(fvalue: Expr)

  datatype Stmt =
    | Assign(name: string, dtype: Dtype, value: Expr)
    | ForRange(loopVar: string, start: Expr, end: Expr, body: seq<Stmt>)
    | While(cond: Expr, wbody: seq<Stmt>)
    | If(test: Expr, thenBody: seq<Stmt>, elseBody: seq<Stmt>)
    | Return(result: Expr)
    | Break
    | Continue

  datatype Kernel = Kernel(inputDtype: Dtype, outputDtype: Dtype, body: seq<Stmt>)

  /** May the kernel get a vector main loop? */
  predicate IsVectorizablePhase1(k: Kernel) {
    && |k.body| == 1
    && k.body[0].Return?
    && IsPureSimdExpr(k.body[0].result)
  }

  predicate IsPureSimdExpr(e: Expr) {
    match e
    case Param => true
    case ConstI64(_) => true
    case ConstF64(_) => true
    case ConstBool(_) => true
    case Local(_) => false
    case MathCall(_, _) => false
    case Unary(_, a) => IsPureSimdExpr(a)
    case Binary(op, l, r) => !(op in {Mod, FloorDiv, Div, Pow}) && IsPureSimdExpr(l) && IsPureSimdExpr(r)
    case Compare(_, l, r) => IsPureSimdExpr(l) && IsPureSimdExpr(r)
    case IfExpr(t, y, n) => IsPureSimdExpr(t) && IsPureSimdExpr(y) && IsPureSimdExpr(n)
    case CastToI64(v) => IsPureSimdExpr(v)
    case CastToF64(v) => IsPureSimdExpr(v)
  }
}
