/** The scalar code generator (`Lowerer` in src/jit.rs): from structured statements to basic blocks.
    `ExprCode`, `LowerStmt` and `LowerBody` say what is generated; the class `Lowerer` generates it
    by mutating a builder and is proved to generate exactly that. */
module Lowering {
  import opened Wrappers
  import opened Ir
  import opened Machine
  import opened Cfg

  /** `i_var` and `result_var`, the first two variables every kernel declares. */
  const I_VAR: nat := 0
  const RESULT_VAR: nat := 1

  datatype Slot = Slot(v: nat, d: Dtype)

  type Locals = map<string, Slot>

  datatype LoopFrame = LoopFrame(header: nat, exit: nat)

  datatype LowerError =
    | UnknownLocal | LocalRedeclared | MathNeedsF64 | NoIntegerPow | NoFloatFloorOrMod
    | BreakOutsideLoop | ContinueOutsideLoop | NoSimdPow | NotVectorizable

  type Lowered<+T> = Result<T, LowerError>

  /** What stays fixed while one body is lowered. */
  datatype Target = Target(inT: Dtype, outT: Dtype, param: nat, exit: nat)

  // ----- expressions -----

  /** Instructions to append to the current block, the next free value number, and the result. */
  datatype Code = Code(instrs: seq<Instr>, next: nat, res: nat)

  function Coerced(k: Code, actual: Dtype, want: Dtype): (r: Code)
    ensures k.next <= r.next && (k.res < k.next ==> r.res < r.next)
  {
    if actual == want then k
    else if actual == I64 then Code(k.instrs + [FromSint(k.next, k.res)], k.next + 1, k.next)
    else Code(k.instrs + [ToSint(k.next, k.res)], k.next + 1, k.next)
  }

  function IntOpFor(op: BinOp): Lowered<IntOp> {
    match op
    case Add => Ok(Iadd)
    case Sub => Ok(Isub)
    case Mul => Ok(Imul)
    case Div => Ok(Sdiv)
    case FloorDiv => Ok(Sdiv)
    case Mod => Ok(Srem)
    case Pow => Err(NoIntegerPow)
  }

  function FloatOpFor(op: BinOp): Lowered<FloatOp> {
    match op
    case Add => Ok(Fadd)
    case Sub => Ok(Fsub)
    case Mul => Ok(Fmul)
    case Div => Ok(Fdiv)
    case FloorDiv => Err(NoFloatFloorOrMod)
    case Mod => Err(NoFloatFloorOrMod)
    case Pow => Ok(CallPow)
  }

  function BinInstr(op: BinOp, want: Dtype, dst: nat, l: nat, r: nat): Lowered<Instr> {
    match want
    case I64 => var o :- IntOpFor(op); Ok(IntBin(dst, o, l, r))
    case F64 => var o :- FloatOpFor(op); Ok(FloatBin(dst, o, l, r))
  }

  function CmpInstr(op: CmpOp, d: Dtype, dst: nat, l: nat, r: nat): Instr {
    match d
    case I64 => Icmp(dst, op, l, r)
    case F64 => Fcmp(dst, op, l, r)
  }

  /** The guess for one operand of a comparison, from the shape of its expression. */
  function Inspect(t: Target, locals: Locals, e: Expr): Option<Dtype> {
    match e
    case ConstF64(_) => Some(F64)
    case MathCall(_, _) => Some(F64)
    case CastToF64(_) => Some(F64)
    case ConstI64(_) => Some(I64)
    case CastToI64(_) => Some(I64)
    case Param => Some(t.inT)
    case Local(name) => if name in locals then Some(locals[name].d) else None
    case Binary(_, l, r) => OrElse(Inspect(t, locals, l), Inspect(t, locals, r))
    case Compare(_, l, r) => OrElse(Inspect(t, locals, l), Inspect(t, locals, r))
    case Unary(_, a) => Inspect(t, locals, a)
    case IfExpr(_, y, n) => OrElse(Inspect(t, locals, y), Inspect(t, locals, n))
    case ConstBool(_) => Some(I64)
  }

  function OrElse<T>(a: Option<T>, b: Option<T>): Option<T> { if a.Some? then a else b }

  function GuessCmpDtype(t: Target, locals: Locals, l: Expr, r: Expr): Dtype {
    match OrElse(Inspect(t, locals, l), Inspect(t, locals, r))
    case Some(d) => d
    case None => I64
  }

  /** The code for `e` when its consumer wants a value of dtype `want`. */
  function ExprCode(t: Target, locals: Locals, e: Expr, want: Dtype, next: nat): (r: Lowered<Code>)
    ensures r.Ok? ==> next <= r.value.next
    ensures r.Ok? && t.param < next ==> r.value.res < r.value.next
    decreases e, 1
  {
    if IsLeaf(e) then LeafCode(t, locals, e, want, next)
    else if IsUnary(e) then UnaryCode(t, locals, e, want, next)
    else if e.Binary? then BinaryCode(t, locals, e, want, next)
    else if e.Compare? then CompareCode(t, locals, e, next)
    else IfExprCode(t, locals, e, want, next)
  }

  predicate IsUnary(e: Expr) { e.Unary? || e.MathCall? || e.CastToI64? || e.CastToF64? }

  predicate IsLeaf(e: Expr) { e.Param? || e.Local? || e.ConstI64? || e.ConstF64? || e.ConstBool? }

  function LeafCode(t: Target, locals: Locals, e: Expr, want: Dtype, next: nat): (r: Lowered<Code>)
    requires IsLeaf(e)
    ensures r.Ok? ==> next <= r.value.next
    ensures r.Ok? && t.param < next ==> r.value.res < r.value.next
  {
    match e
    case Param => Ok(Coerced(Code([], next, t.param), t.inT, want))
    case Local(name) =>
      if name in locals then
        Ok(Coerced(Code([UseVar(next, locals[name].v)], next + 1, next), locals[name].d, want))
      else Err(UnknownLocal)
    case ConstI64(n) => Ok(Coerced(Code([Iconst(next, n)], next + 1, next), I64, want))
    case ConstF64(w) => Ok(Coerced(Code([F64const(next, w)], next + 1, next), F64, want))
    case ConstBool(b) => Ok(Code([Iconst(next, if b then 1 else 0)], next + 1, next))
  }

  /** The operand of a one-operand form, and the dtype it is wanted in. */
  function Operand(e: Expr, want: Dtype): (Expr, Dtype)
    requires IsUnary(e)
  {
    match e
    case Unary(_, a) => (a, want)
    case MathCall(_, a) => (a, F64)
    case CastToI64(a) => (a, F64)
    case CastToF64(a) => (a, I64)
  }

  function UnaryInstr(e: Expr, want: Dtype, dst: nat, src: nat): Instr
    requires IsUnary(e)
  {
    match e
    case Unary(_, _) => if want == I64 then Ineg(dst, src) else Fneg(dst, src)
    case MathCall(f, _) => CallMath(dst, f, src)
    case CastToI64(_) => ToSint(dst, src)
    case CastToF64(_) => FromSint(dst, src)
  }

  function UnaryCode(t: Target, locals: Locals, e: Expr, want: Dtype, next: nat): (r: Lowered<Code>)
    requires IsUnary(e)
    ensures r.Ok? ==> next <= r.value.next
    ensures r.Ok? && t.param < next ==> r.value.res < r.value.next
    decreases e, 0
  {
    if e.MathCall? && want != F64 then Err(MathNeedsF64)
    else
      var k :- ExprCode(t, locals, Operand(e, want).0, Operand(e, want).1, next);
      if e.Unary? && e.uop == Plus then Ok(k)
      else Ok(Code(k.instrs + [UnaryInstr(e, want, k.next, k.res)], k.next + 1, k.next))
  }

  function BinaryCode(t: Target, locals: Locals, e: Expr, want: Dtype, next: nat): (r: Lowered<Code>)
    requires e.Binary?
    ensures r.Ok? ==> next <= r.value.next
    ensures r.Ok? && t.param < next ==> r.value.res < r.value.next
    decreases e, 0
  {
    var a :- ExprCode(t, locals, e.left, want, next);
    var b :- ExprCode(t, locals, e.right, want, a.next);
    var ins :- BinInstr(e.bop, want, b.next, a.res, b.res);
    Ok(Code(a.instrs + b.instrs + [ins], b.next + 1, b.next))
  }

  /** A comparison: its operands are wanted in the guessed dtype. */
  function CompareCode(t: Target, locals: Locals, e: Expr, next: nat): (r: Lowered<Code>)
    requires e.Compare?
    ensures r.Ok? ==> next <= r.value.next
    ensures r.Ok? && t.param < next ==> r.value.res < r.value.next
    decreases e, 0
  {
    var d := GuessCmpDtype(t, locals, e.cleft, e.cright);
    var a :- ExprCode(t, locals, e.cleft, d, next);
    var b :- ExprCode(t, locals, e.cright, d, a.next);
    Ok(Code(a.instrs + b.instrs + [CmpInstr(e.cop, d, b.next, a.res, b.res)], b.next + 1, b.next))
  }

  function IfExprCode(t: Target, locals: Locals, e: Expr, want: Dtype, next: nat): (r: Lowered<Code>)
    requires e.IfExpr?
    ensures r.Ok? ==> next <= r.value.next
    ensures r.Ok? && t.param < next ==> r.value.res < r.value.next
    decreases e, 0
  {
    var c :- ExprCode(t, locals, e.test, I64, next);
    var a :- ExprCode(t, locals, e.yes, want, c.next);
    var b :- ExprCode(t, locals, e.no, want, a.next);
    Ok(Code(c.instrs + a.instrs + b.instrs + [Select(b.next, c.res, a.res, b.res)], b.next + 1, b.next))
  }

  // ----- builder states -----

  datatype Build = Build(
    blocks: seq<Block>, cur: nat, nvals: nat, nvars: nat,
    locals: Locals, terminated: bool, loops: seq<LoopFrame>)

  /** The current block exists and has no terminator: code may be appended to it. */
  predicate Open(st: Build) {
    st.cur < |st.blocks| && st.blocks[st.cur].term.None?
  }

  function Emit(st: Build, code: seq<Instr>, next: nat): Build {
    if st.cur >= |st.blocks| then st
    else
      var blk := st.blocks[st.cur];
      st.(blocks := st.blocks[st.cur := blk.(instrs := blk.instrs + code)], nvals := next)
  }

  function Close(st: Build, t: Terminator): Build {
    if st.cur >= |st.blocks| then st
    else st.(blocks := st.blocks[st.cur := st.blocks[st.cur].(term := Some(t))])
  }

  function NewBlocks(st: Build, n: nat): Build {
    st.(blocks := st.blocks + seq(n, _ => EMPTY))
  }

  function Switch(st: Build, b: nat): Build {
    st.(cur := b, terminated := false)
  }

  /** Ends the current block with a jump that is not a fall-through. */
  function Leave(st: Build, b: nat): Build {
    Close(st, Jump(b)).(terminated := true)
  }

  /** Falls through to `next` unless the current block has already been left, and goes on at `b`. */
  function Fill(st: Build, next: nat, b: nat): Build {
    Switch(if st.terminated then st else Close(st, Jump(next)), b)
  }

  function PushLoop(st: Build, f: LoopFrame): Build { st.(loops := st.loops + [f]) }

  function PopLoop(st: Build): Build {
    if st.loops == [] then st else st.(loops := st.loops[..|st.loops| - 1])
  }

  /** The variable behind a local, declared on first use. */
  function Declare(st: Build, name: string, d: Dtype): Build {
    if name in st.locals then st
    else st.(locals := st.locals[name := Slot(st.nvars, d)], nvars := st.nvars + 1)
  }

  function VarOf(st: Build, name: string): nat {
    if name in st.locals then st.locals[name].v else st.nvars
  }

  // ----- statements -----

  function LowerBody(t: Target, st: Build, ss: seq<Stmt>): Lowered<Build>
    decreases ss, 0
  {
    if ss == [] || st.terminated then Ok(st)
    else
      var a :- LowerStmt(t, st, ss[0]);
      LowerBody(t, a, ss[1..])
  }

  function LowerStmt(t: Target, st: Build, s: Stmt): Lowered<Build>
    decreases s, 0
  {
    var b := |st.blocks|;
    match s
    case Assign(name, d, e) =>
      var k :- ExprCode(t, st.locals, e, d, st.nvals);
      if name in st.locals && st.locals[name].d != d then Err(LocalRedeclared)
      else Ok(Emit(Declare(st, name, d), k.instrs + [DefVar(VarOf(st, name), k.res)], k.next))
    case Return(e) =>
      var k :- ExprCode(t, st.locals, e, t.outT, st.nvals);
      Ok(Leave(Emit(st, k.instrs + [DefVar(RESULT_VAR, k.res)], k.next), t.exit))
    case Break =>
      if st.loops == [] then Err(BreakOutsideLoop) else Ok(Leave(st, st.loops[|st.loops| - 1].exit))
    case Continue =>
      if st.loops == [] then Err(ContinueOutsideLoop) else Ok(Leave(st, st.loops[|st.loops| - 1].header))
    case If(c, yes, no) =>
      var k :- ExprCode(t, st.locals, c, I64, st.nvals);
      var st1 :- LowerBody(t, IfHead(st, k), yes);
      var st2 :- LowerBody(t, Fill(st1, b + 2, b + 1), no);
      Ok(Fill(st2, b + 2, b + 2))
    case While(c, body) =>
      var k :- ExprCode(t, st.locals, c, I64, st.nvals);
      var st1 :- LowerBody(t, PushLoop(WhileHead(st, k), LoopFrame(b, b + 2)), body);
      Ok(Fill(PopLoop(st1), b, b + 2))
    case ForRange(v, lo, hi, body) =>
      var from :- ExprCode(t, st.locals, lo, I64, st.nvals);
      var to :- ExprCode(t, st.locals, hi, I64, from.next);
      var st1 :- LowerBody(t, PushLoop(ForHead(st, v, from, to), LoopFrame(b + 3, b + 2)), body);
      Ok(Fill(PopLoop(st1), b + 3, b + 2))
  }

  /** The branch of a conditional.  Blocks: `b` then (entered), `b + 1` else, `b + 2` after. */
  function IfHead(st: Build, k: Code): Build {
    var b := |st.blocks|;
    Switch(Close(NewBlocks(Emit(st, k.instrs, k.next), 3), Brif(k.res, b, b + 1)), b)
  }

  /** Blocks: `b` header, which tests on every iteration; `b + 1` body (entered); `b + 2` exit. */
  function WhileHead(st: Build, k: Code): Build {
    var b := |st.blocks|;
    Switch(Close(Emit(WhileEntry(st), k.instrs, k.next), Brif(k.res, b + 1, b + 2)), b + 1)
  }

  function WhileEntry(st: Build): Build {
    Switch(Close(NewBlocks(st, 3), Jump(|st.blocks|)), |st.blocks|)
  }

  /** Everything a counted loop emits before its body: the bounds and the first value of the counter,
      the header, and the increment that `continue` goes through.
      Blocks: `b` header, `b + 1` body (entered), `b + 2` exit, `b + 3` increment. */
  function ForHead(st: Build, v: string, from: Code, to: Code): Build {
    var step := ForStep(to.next + 2, VarOf(st, v));
    Switch(Close(Emit(ForHeader(st, v, from, to), step, to.next + 5), Jump(|st.blocks|)), |st.blocks| + 1)
  }

  function ForHeader(st: Build, v: string, from: Code, to: Code): Build {
    var b := |st.blocks|;
    var n := to.next;
    var st1 := Emit(ForEntry(st, v, from, to), ForTest(n, VarOf(st, v), to.res), n + 2);
    Switch(NewBlocks(Close(st1, Brif(n + 1, b + 1, b + 2)), 1), b + 3)
  }

  function ForEntry(st: Build, v: string, from: Code, to: Code): Build {
    var b := |st.blocks|;
    var first := from.instrs + to.instrs + [DefVar(VarOf(st, v), from.res)];
    Switch(Close(NewBlocks(Emit(Declare(st, v, I64), first, to.next), 3), Jump(b)), b)
  }

  function ForTest(n: nat, counter: nat, end: nat): seq<Instr> {
    [UseVar(n, counter), Icmp(n + 1, Lt, n, end)]
  }

  function ForStep(n: nat, counter: nat): seq<Instr> {
    [UseVar(n, counter), Iconst(n + 1, 1), IntBin(n + 2, Iadd, n, n + 1), DefVar(counter, n + 2)]
  }
}
