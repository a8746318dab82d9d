/** Straight-line code for expressions computes what the expression means: implicit conversions never
    fire on typed expressions, and the guessed comparison dtype is the operands' own. */
module ExprCorrect {
  import opened Wrappers
  import opened Ir
  import opened Machine
  import opened Cfg
  import opened Lowering
  import opened Semantics

  function TypesOf(locals: Locals): Types {
    map a | a in locals :: locals[a].d
  }

  /** The registers hold the store: every local of `locals` has a value of its dtype in its variable. */
  predicate Holds(locals: Locals, s: Store, vars: map<nat, Val>) {
    forall a <- locals ::
      a in s && HasType(s[a], locals[a].d) && locals[a].v in vars && vars[locals[a].v] == s[a]
  }

  /** SSA values numbered below `n` are as they were. */
  predicate Kept(a: map<nat, Val>, b: map<nat, Val>, n: nat) {
    forall k <- a | k < n :: k in b && b[k] == a[k]
  }

  predicate StoreTyped(s: Store, ts: Types) {
    forall a <- ts :: a in s && HasType(s[a], ts[a])
  }

  /** The guess finds the dtype of a typed operand. */
  lemma {:induction false} InspectFinds(t: Target, locals: Locals, e: Expr)
    requires ExprType(e, TypesOf(locals), t.inT).Some?
    ensures Inspect(t, locals, e) == ExprType(e, TypesOf(locals), t.inT)
  {
    match e
    case Binary(_, l, r) => InspectFinds(t, locals, l);
    case Unary(_, a) => InspectFinds(t, locals, a);
    case IfExpr(_, y, n) => InspectFinds(t, locals, y);
    case _ =>
  }

  /** `guess_cmp_dtype` recovers the dtype the walker promoted both operands to. */
  lemma GuessIsOperandType(t: Target, locals: Locals, l: Expr, r: Expr)
    requires IsTest(Compare(Lt, l, r), TypesOf(locals), t.inT)
    ensures Some(GuessCmpDtype(t, locals, l, r)) == ExprType(l, TypesOf(locals), t.inT)
  {
    InspectFinds(t, locals, l);
  }

  predicate MaybeTyped(v: Option<Val>, d: Dtype) { v.Some? ==> HasType(v.value, d) }

  lemma OpsTyped(m: Fpu, op: BinOp, uop: UnaryOp, c: Option<Val>, u: Option<Val>, v: Option<Val>, d: Dtype)
    requires MaybeTyped(u, d) && MaybeTyped(v, d)
    ensures MaybeTyped(Arith(m, op, u, v), d)
    ensures MaybeTyped(Signed(m, uop, u), d)
    ensures MaybeTyped(Chosen(c, u, v), d)
  {
    hide Wrap, TruncDiv, TruncRem;
  }

  /** A typed expression that does not trap yields a value of its dtype. */
  lemma {:induction false} EvalTyped(m: Fpu, e: Expr, x: Val, s: Store, ts: Types, inT: Dtype)
    requires HasType(x, inT) && StoreTyped(s, ts)
    ensures ExprType(e, ts, inT).Some? ==> MaybeTyped(Eval(m, e, x, s), ExprType(e, ts, inT).value)
  {
    hide Arith, Signed, Chosen, IsTest;
    if ExprType(e, ts, inT).Some? {
      var d := ExprType(e, ts, inT).value;
      match e
      case Unary(op, a) =>
        EvalTyped(m, a, x, s, ts, inT);
        OpsTyped(m, Add, op, None, Eval(m, a, x, s), None, d);
      case Binary(op, l, r) =>
        EvalTyped(m, l, x, s, ts, inT);
        EvalTyped(m, r, x, s, ts, inT);
        OpsTyped(m, op, Plus, None, Eval(m, l, x, s), Eval(m, r, x, s), d);
      case IfExpr(t, y, n) =>
        EvalTyped(m, y, x, s, ts, inT);
        EvalTyped(m, n, x, s, ts, inT);
        OpsTyped(m, Add, Plus, Eval(m, t, x, s), Eval(m, y, x, s), Eval(m, n, x, s), d);
      case _ =>
    }
  }

  /** The registers after running `k` hold `v` as its result, and nothing below `n` has changed. */
  predicate Yields(p: Program, k: Code, r: Regs, n: nat, v: Option<Val>) {
    match Run(p, k.instrs, r)
    case None => v.None?
    case Some(r') =>
      && v.Some? && k.res in r'.vals && r'.vals[k.res] == v.value
      && r'.vars == r.vars && r'.out == r.out && Kept(r.vals, r'.vals, n)
  }

  /** Code that ends with one more instruction. */
  lemma RunSnoc(p: Program, a: seq<Instr>, ins: Instr, r: Regs)
    ensures Run(p, a + [ins], r) == (match Run(p, a, r) case None => None case Some(r') => ExecInstr(p, ins, r'))
  {
    hide ExecInstr;
    RunConcat(p, a, [ins], r);
    match Run(p, a, r)
    case None =>
    case Some(r') =>
      match ExecInstr(p, ins, r')
      case None =>
      case Some(r'') => assert Run(p, [ins][1..], r'') == Some(r'');
  }

  /** Code that computes one value from registers in which its operands already are. */
  lemma YieldsLast(p: Program, code: seq<Instr>, ins: Instr, r: Regs, n: nat, r1: Regs, v: Option<Val>)
    requires Run(p, code, r) == Some(r1) && r1.vars == r.vars && r1.out == r.out && Kept(r.vals, r1.vals, n)
    requires !ins.DefVar? && !ins.StoreAt? && n <= ins.dst && Computed(p, ins, r1) == v
    ensures Yields(p, Code(code + [ins], ins.dst + 1, ins.dst), r, n, v)
  {
    hide Computed;
    RunSnoc(p, code, ins, r);
  }

  /** Code that traps before its last instruction. */
  lemma YieldsTrap(p: Program, code: seq<Instr>, ins: Instr, r: Regs, n: nat, next: nat, res: nat)
    requires Run(p, code, r).None?
    ensures Yields(p, Code(code + [ins], next, res), r, n, None)
  {
    RunSnoc(p, code, ins, r);
  }

  // ----- one instruction of each kind -----

  lemma BinaryComputes(p: Program, op: BinOp, d: Dtype, dst: nat, l: nat, rt: nat, r: Regs, u: Val, v: Val)
    requires HasType(u, d) && HasType(v, d) && HasArith(op, d)
    requires Lookup(r.vals, l) == Some(u) && Lookup(r.vals, rt) == Some(v)
    ensures BinInstr(op, d, dst, l, rt).Ok?
    ensures var ins := BinInstr(op, d, dst, l, rt).value;
            !ins.DefVar? && !ins.StoreAt? && ins.dst == dst && Computed(p, ins, r) == Arith(p.fpu, op, Some(u), Some(v))
  {
    hide Wrap, TruncDiv, TruncRem;
  }

  lemma CompareComputes(p: Program, op: CmpOp, d: Dtype, dst: nat, l: nat, rt: nat, r: Regs, u: Val, v: Val)
    requires HasType(u, d) && HasType(v, d)
    requires Lookup(r.vals, l) == Some(u) && Lookup(r.vals, rt) == Some(v)
    ensures var ins := CmpInstr(op, d, dst, l, rt);
            !ins.DefVar? && !ins.StoreAt? && ins.dst == dst && Computed(p, ins, r) == Compared(p.fpu, op, Some(u), Some(v))
  {
  }

  lemma SelectComputes(p: Program, d: Dtype, dst: nat, c: nat, l: nat, rt: nat, r: Regs, t: Val, u: Val, v: Val)
    requires HasType(u, d) && HasType(v, d) && Truth(t).Some?
    requires Lookup(r.vals, c) == Some(t) && Lookup(r.vals, l) == Some(u) && Lookup(r.vals, rt) == Some(v)
    ensures Computed(p, Select(dst, c, l, rt), r) == Chosen(Some(t), Some(u), Some(v))
  {
  }

  function UnaryVal(m: Fpu, e: Expr, u: Option<Val>): Option<Val>
    requires IsUnary(e)
  {
    match e
    case Unary(op, _) => Signed(m, op, u)
    case MathCall(f, _) => Called(m, f, u)
    case CastToI64(_) => ToI64(m, u)
    case CastToF64(_) => ToF64(m, u)
  }

  lemma UnaryComputes(p: Program, e: Expr, want: Dtype, dst: nat, src: nat, r: Regs, u: Val)
    requires IsUnary(e) && (e.Unary? ==> e.uop == Neg)
    requires HasType(u, Operand(e, want).1) && Lookup(r.vals, src) == Some(u)
    ensures var ins := UnaryInstr(e, want, dst, src);
            !ins.DefVar? && !ins.StoreAt? && ins.dst == dst && Computed(p, ins, r) == UnaryVal(p.fpu, e, Some(u))
  {
  }

  // ----- one level of the definitions, and what typing says of the parts -----

  lemma UnaryCases(m: Fpu, t: Target, locals: Locals, e: Expr, want: Dtype, next: nat, x: Val, s: Store)
    requires IsUnary(e)
    requires Fits(e, want, locals, t.inT)
    ensures var (a, d) := Operand(e, want);
            a < e && ExprType(a, TypesOf(locals), t.inT) == Some(d) && Eval(m, e, x, s) == UnaryVal(m, e, Eval(m, a, x, s))
    ensures e.MathCall? ==> want == F64
    ensures UnaryVal(m, e, None) == None && (e.Unary? && e.uop == Plus ==> forall u :: UnaryVal(m, e, u) == u)
  {
    hide ExprCode;
  }


  lemma BinaryCases(m: Fpu, t: Target, locals: Locals, e: Expr, want: Dtype, x: Val, s: Store)
    requires e.Binary? && Fits(e, want, locals, t.inT)
    ensures ExprType(e.left, TypesOf(locals), t.inT) == ExprType(e.right, TypesOf(locals), t.inT) == Some(want)
    ensures HasArith(e.bop, want)
    ensures Eval(m, e, x, s) == Arith(m, e.bop, Eval(m, e.left, x, s), Eval(m, e.right, x, s))
  {
    hide ExprCode, Arith;
  }


  lemma CompareCases(m: Fpu, t: Target, locals: Locals, e: Expr, x: Val, s: Store)
    requires e.Compare? && Fits(e, I64, locals, t.inT)
    ensures IsTest(Compare(Lt, e.cleft, e.cright), TypesOf(locals), t.inT)
    ensures Eval(m, e, x, s) == Compared(m, e.cop, Eval(m, e.cleft, x, s), Eval(m, e.cright, x, s))
  {
    hide ExprCode;
  }


  lemma IfExprCases(m: Fpu, t: Target, locals: Locals, e: Expr, want: Dtype, x: Val, s: Store)
    requires e.IfExpr? && Fits(e, want, locals, t.inT)
    ensures IsTest(e.test, TypesOf(locals), t.inT)
    ensures ExprType(e.yes, TypesOf(locals), t.inT) == ExprType(e.no, TypesOf(locals), t.inT) == Some(want)
    ensures Eval(m, e, x, s) == Chosen(Eval(m, e.test, x, s), Eval(m, e.yes, x, s), Eval(m, e.no, x, s))
  {
    hide ExprCode;
  }


  lemma CodeLevel(t: Target, locals: Locals, e: Expr, want: Dtype, next: nat)
    ensures IsUnary(e) ==> ExprCode(t, locals, e, want, next) == UnaryCode(t, locals, e, want, next)
    ensures e.Binary? ==> ExprCode(t, locals, e, want, next) == BinaryCode(t, locals, e, want, next)
    ensures e.Compare? ==> ExprCode(t, locals, e, want, next) == CompareCode(t, locals, e, next)
    ensures e.IfExpr? ==> ExprCode(t, locals, e, want, next) == IfExprCode(t, locals, e, want, next)
    ensures IsLeaf(e) ==> ExprCode(t, locals, e, want, next) == LeafCode(t, locals, e, want, next)
  {
    hide UnaryCode, BinaryCode, CompareCode, IfExprCode, LeafCode;
  }

  // ----- the simulation -----

  /** An expression in a position that wants `want`: of that dtype, or a comparison under test. */
  predicate Fits(e: Expr, want: Dtype, locals: Locals, inT: Dtype) {
    ExprType(e, TypesOf(locals), inT) == Some(want) || (want == I64 && IsTest(e, TypesOf(locals), inT))
  }

  /** The parameter is in its SSA value and the store in the registers. */
  predicate Ready(t: Target, locals: Locals, next: nat, x: Val, s: Store, r: Regs) {
    && t.param < next && Lookup(r.vals, t.param) == Some(x) && HasType(x, t.inT)
    && Holds(locals, s, r.vars)
  }

  predicate Simulates(p: Program, t: Target, locals: Locals, e: Expr, want: Dtype, next: nat, x: Val, s: Store, r: Regs) {
    && ExprCode(t, locals, e, want, next).Ok?
    && Yields(p, ExprCode(t, locals, e, want, next).value, r, next, Eval(p.fpu, e, x, s))
  }

  /** Typed expressions are accepted, and their code yields their meaning. */
  lemma {:induction false} ExprSim(p: Program, t: Target, locals: Locals, e: Expr, want: Dtype, next: nat,
                                   x: Val, s: Store, r: Regs)
    requires Fits(e, want, locals, t.inT) && Ready(t, locals, next, x, s, r)
    ensures Simulates(p, t, locals, e, want, next, x, s, r)
    decreases e, 2
  {
    match e
    case Unary(_, _) => UnarySim(p, t, locals, e, want, next, x, s, r);
    case MathCall(_, _) => UnarySim(p, t, locals, e, want, next, x, s, r);
    case CastToI64(_) => UnarySim(p, t, locals, e, want, next, x, s, r);
    case CastToF64(_) => UnarySim(p, t, locals, e, want, next, x, s, r);
    case Binary(_, _, _) => BinarySim(p, t, locals, e, want, next, x, s, r);
    case Compare(_, _, _) => CompareSim(p, t, locals, e, next, x, s, r);
    case IfExpr(_, _, _) => IfExprSim(p, t, locals, e, want, next, x, s, r);
    case _ => LeafSim(p, t, locals, e, want, next, x, s, r);
  }

  lemma LeafSim(p: Program, t: Target, locals: Locals, e: Expr, want: Dtype, next: nat, x: Val, s: Store, r: Regs)
    requires e.Param? || e.Local? || e.ConstI64? || e.ConstF64? || e.ConstBool?
    requires Fits(e, want, locals, t.inT) && Ready(t, locals, next, x, s, r)
    ensures Simulates(p, t, locals, e, want, next, x, s, r)
  {
    hide IntBinVal, FloatBinVal, IcmpVal, FcmpVal, InegVal, FnegVal, SelectVal, BitselectVal, ToSintVal, FromSintVal;
    hide SplatVal, Pair, Index;
    if !e.Param? {
      var ins := ExprCode(t, locals, e, want, next).value.instrs[0];
      assert [] + [ins] == [ins];
      assert Run(p, [], r) == Some(r);
      YieldsLast(p, [], ins, r, next, r, Eval(p.fpu, e, x, s));
    }
  }

  lemma {:induction false} UnarySim(p: Program, t: Target, locals: Locals, e: Expr, want: Dtype, next: nat,
                                    x: Val, s: Store, r: Regs)
    requires IsUnary(e)
    requires Fits(e, want, locals, t.inT) && Ready(t, locals, next, x, s, r)
    ensures Simulates(p, t, locals, e, want, next, x, s, r)
    decreases e, 1
  {
    hide Computed, ExecInstr, Run, ExprCode, Eval, ExprType, IsTest, UnaryInstr, UnaryVal;
    UnaryCases(p.fpu, t, locals, e, want, next, x, s);
    var (a, d) := Operand(e, want);
    ExprSim(p, t, locals, a, d, next, x, s, r);
    EvalTyped(p.fpu, a, x, s, TypesOf(locals), t.inT);
    var k := ExprCode(t, locals, a, d, next).value;
    CodeLevel(t, locals, e, want, next);
    var u := Eval(p.fpu, a, x, s);
    if e.Unary? && e.uop == Plus {
    } else if u.None? {
      YieldsTrap(p, k.instrs, UnaryInstr(e, want, k.next, k.res), r, next, k.next + 1, k.next);
    } else {
      var r1 := Run(p, k.instrs, r).value;
      UnaryComputes(p, e, want, k.next, k.res, r1, u.value);
      YieldsLast(p, k.instrs, UnaryInstr(e, want, k.next, k.res), r, next, r1, UnaryVal(p.fpu, e, u));
    }
  }

  lemma {:induction false} BinarySim(p: Program, t: Target, locals: Locals, e: Expr, want: Dtype, next: nat,
                                     x: Val, s: Store, r: Regs)
    requires e.Binary?
    requires Fits(e, want, locals, t.inT) && Ready(t, locals, next, x, s, r)
    ensures Simulates(p, t, locals, e, want, next, x, s, r)
    decreases e, 1
  {
    hide Computed, ExecInstr, Run, Arith, ExprCode, Eval, ExprType, IsTest, HasArith, BinInstr;
    BinaryCases(p.fpu, t, locals, e, want, x, s);
    var r2 := PairSim(p, t, locals, e, e.left, e.right, want, next, x, s, r);
    var a := ExprCode(t, locals, e.left, want, next).value;
    var b := ExprCode(t, locals, e.right, want, a.next).value;
    var u, v := Eval(p.fpu, e.left, x, s), Eval(p.fpu, e.right, x, s);
    EvalTyped(p.fpu, e.left, x, s, TypesOf(locals), t.inT);
    EvalTyped(p.fpu, e.right, x, s, TypesOf(locals), t.inT);
    BinInstrOk(e.bop, want, b.next, a.res, b.res);
    CodeLevel(t, locals, e, want, next);
    var ins := BinInstr(e.bop, want, b.next, a.res, b.res).value;
    if u.None? || v.None? {
      YieldsTrap(p, a.instrs + b.instrs, ins, r, next, b.next + 1, b.next);
      ArithNone(p.fpu, e.bop, u, v);
    } else {
      BinaryComputes(p, e.bop, want, b.next, a.res, b.res, r2, u.value, v.value);
      YieldsLast(p, a.instrs + b.instrs, ins, r, next, r2, Arith(p.fpu, e.bop, u, v));
    }
  }

  lemma BinInstrOk(op: BinOp, d: Dtype, dst: nat, l: nat, r: nat)
    requires HasArith(op, d)
    ensures BinInstr(op, d, dst, l, r).Ok?
  {
  }

  lemma ArithNone(m: Fpu, op: BinOp, u: Option<Val>, v: Option<Val>)
    requires u.None? || v.None?
    ensures Arith(m, op, u, v).None?
  {
  }

  lemma {:induction false} CompareSim(p: Program, t: Target, locals: Locals, e: Expr, next: nat,
                                      x: Val, s: Store, r: Regs)
    requires e.Compare?
    requires Fits(e, I64, locals, t.inT) && Ready(t, locals, next, x, s, r)
    ensures Simulates(p, t, locals, e, I64, next, x, s, r)
    decreases e, 1
  {
    hide Computed, ExecInstr, Run, ExprCode, Eval, ExprType, GuessCmpDtype, CmpInstr;
    CompareCases(p.fpu, t, locals, e, x, s);
    GuessIsOperandType(t, locals, e.cleft, e.cright);
    var d := GuessCmpDtype(t, locals, e.cleft, e.cright);
    var r2 := PairSim(p, t, locals, e, e.cleft, e.cright, d, next, x, s, r);
    var a := ExprCode(t, locals, e.cleft, d, next).value;
    var b := ExprCode(t, locals, e.cright, d, a.next).value;
    var u, v := Eval(p.fpu, e.cleft, x, s), Eval(p.fpu, e.cright, x, s);
    EvalTyped(p.fpu, e.cleft, x, s, TypesOf(locals), t.inT);
    EvalTyped(p.fpu, e.cright, x, s, TypesOf(locals), t.inT);
    var ins := CmpInstr(e.cop, d, b.next, a.res, b.res);
    CodeLevel(t, locals, e, I64, next);
    if u.None? || v.None? {
      YieldsTrap(p, a.instrs + b.instrs, ins, r, next, b.next + 1, b.next);
    } else {
      CompareComputes(p, e.cop, d, b.next, a.res, b.res, r2, u.value, v.value);
      YieldsLast(p, a.instrs + b.instrs, ins, r, next, r2, Compared(p.fpu, e.cop, u, v));
    }
  }

  /** Two operands of the same dtype, one after the other. */
  lemma {:induction false} PairSim(p: Program, t: Target, locals: Locals, e: Expr, l: Expr, rt: Expr, d: Dtype,
                                   next: nat, x: Val, s: Store, r: Regs) returns (r2: Regs)
    requires l < e && rt < e
    requires Fits(l, d, locals, t.inT) && Fits(rt, d, locals, t.inT) && Ready(t, locals, next, x, s, r)
    ensures ExprCode(t, locals, l, d, next).Ok?
    ensures ExprCode(t, locals, rt, d, ExprCode(t, locals, l, d, next).value.next).Ok?
    ensures var a := ExprCode(t, locals, l, d, next).value;
            var b := ExprCode(t, locals, rt, d, a.next).value;
            BothRun(p, a, b, r, next, Eval(p.fpu, l, x, s), Eval(p.fpu, rt, x, s), r2)
    decreases e, 0
  {
    hide Computed, ExecInstr, Run, ExprCode, Eval, Fits, IsTest, ExprType;
    ExprSim(p, t, locals, l, d, next, x, s, r);
    var a := ExprCode(t, locals, l, d, next).value;
    var u, v := Eval(p.fpu, l, x, s), Eval(p.fpu, rt, x, s);
    var r1 := if u.Some? then Run(p, a.instrs, r).value else r;
    ExprSim(p, t, locals, rt, d, a.next, x, s, r1);
    var b := ExprCode(t, locals, rt, d, a.next).value;
    RunConcat(p, a.instrs, b.instrs, r);
    r2 := if u.Some? && v.Some? then Run(p, a.instrs + b.instrs, r).value else r;
  }

  predicate BothRun(p: Program, a: Code, b: Code, r: Regs, n: nat, u: Option<Val>, v: Option<Val>, r2: Regs) {
    && (u.None? || v.None? ==> Run(p, a.instrs + b.instrs, r).None?)
    && (u.Some? && v.Some? ==>
          && Run(p, a.instrs + b.instrs, r) == Some(r2)
          && Lookup(r2.vals, a.res) == u && Lookup(r2.vals, b.res) == v
          && r2.vars == r.vars && r2.out == r.out && Kept(r.vals, r2.vals, n))
  }

  lemma {:induction false} IfExprSim(p: Program, t: Target, locals: Locals, e: Expr, want: Dtype, next: nat,
                                     x: Val, s: Store, r: Regs)
    requires e.IfExpr?
    requires Fits(e, want, locals, t.inT) && Ready(t, locals, next, x, s, r)
    ensures Simulates(p, t, locals, e, want, next, x, s, r)
    decreases e, 1
  {
    hide Computed, ExecInstr, Run, ExprCode, Eval, ExprType, IsTest;
    IfExprCases(p.fpu, t, locals, e, want, x, s);
    ExprSim(p, t, locals, e.test, I64, next, x, s, r);
    var c := ExprCode(t, locals, e.test, I64, next).value;
    var tested := Eval(p.fpu, e.test, x, s);
    var r1 := if tested.Some? then Run(p, c.instrs, r).value else r;
    var r2 := PairSim(p, t, locals, e, e.yes, e.no, want, c.next, x, s, r1);
    var a := ExprCode(t, locals, e.yes, want, c.next).value;
    var b := ExprCode(t, locals, e.no, want, a.next).value;
    var u, v := Eval(p.fpu, e.yes, x, s), Eval(p.fpu, e.no, x, s);
    var code := c.instrs + a.instrs + b.instrs;
    RunConcat(p, c.instrs, a.instrs + b.instrs, r);
    assert c.instrs + (a.instrs + b.instrs) == code;
    EvalTyped(p.fpu, e.yes, x, s, TypesOf(locals), t.inT);
    EvalTyped(p.fpu, e.no, x, s, TypesOf(locals), t.inT);
    TestHasTruth(p.fpu, e.test, x, s, TypesOf(locals), t.inT);
    var ins := Select(b.next, c.res, a.res, b.res);
    CodeLevel(t, locals, e, want, next);
    if tested.None? || u.None? || v.None? {
      YieldsTrap(p, code, ins, r, next, b.next + 1, b.next);
    } else {
      SelectComputes(p, want, b.next, c.res, a.res, b.res, r2, tested.value, u.value, v.value);
      YieldsLast(p, code, ins, r, next, r2, Chosen(tested, u, v));
    }
  }

  /** What is fit for test position has a truth value. */
  lemma TestHasTruth(m: Fpu, e: Expr, x: Val, s: Store, ts: Types, inT: Dtype)
    requires HasType(x, inT) && StoreTyped(s, ts) && IsTest(e, ts, inT)
    ensures Eval(m, e, x, s).Some? ==> Truth(Eval(m, e, x, s).value).Some?
  {
    EvalTyped(m, e, x, s, ts, inT);
  }

  // ----- no access to memory -----

  /** The code of an expression computes in registers. */
  lemma {:induction false} ExprNoAccess(t: Target, locals: Locals, e: Expr, want: Dtype, next: nat)
    requires ExprCode(t, locals, e, want, next).Ok?
    ensures NoAccess(ExprCode(t, locals, e, want, next).value.instrs)
    decreases e
  {
    hide ExprCode, GuessCmpDtype;
    CodeLevel(t, locals, e, want, next);
    if IsUnary(e) {
      hide BinaryCode, CompareCode, IfExprCode, LeafCode;
      ExprNoAccess(t, locals, Operand(e, want).0, Operand(e, want).1, next);
    } else if e.Binary? {
      hide UnaryCode, CompareCode, IfExprCode, LeafCode;
      ExprNoAccess(t, locals, e.left, want, next);
      ExprNoAccess(t, locals, e.right, want, ExprCode(t, locals, e.left, want, next).value.next);
    } else if e.Compare? {
      hide UnaryCode, BinaryCode, IfExprCode, LeafCode;
      var d := GuessCmpDtype(t, locals, e.cleft, e.cright);
      ExprNoAccess(t, locals, e.cleft, d, next);
      ExprNoAccess(t, locals, e.cright, d, ExprCode(t, locals, e.cleft, d, next).value.next);
    } else if e.IfExpr? {
      hide UnaryCode, BinaryCode, CompareCode, LeafCode;
      var c := ExprCode(t, locals, e.test, I64, next).value;
      var a := ExprCode(t, locals, e.yes, want, c.next).value;
      ExprNoAccess(t, locals, e.test, I64, next);
      ExprNoAccess(t, locals, e.yes, want, c.next);
      ExprNoAccess(t, locals, e.no, want, a.next);
    }
  }
}
