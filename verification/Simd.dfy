/** The vector code generator (`SimdLowerer`): the same expression over two lanes at once.  Conditions
    are full-width masks and a conditional selects bit by bit.  `LaneEval` is what a lane computes, for every
    expression that is vectorised; where conditions are masks it is what the expression means. */
module Simd {
  import opened Wrappers
  import opened Ir
  import opened Machine
  import opened Cfg
  import opened Lowering
  import opened Semantics
  import EC = ExprCorrect

  // ----- bit selection -----

  function Pow2(k: nat): nat { if k == 0 then 1 else 2 * Pow2(k - 1) }

  lemma {:induction false} OnesSelect(k: nat, y: nat, n: nat)
    requires y < Pow2(k)
    ensures BitSelect(k, Pow2(k) - 1, y, n) == y
  {
    if k != 0 {
      OnesSelect(k - 1, y / 2, n / 2);
    }
  }

  lemma {:induction false} ZerosSelect(k: nat, y: nat, n: nat)
    requires n < Pow2(k)
    ensures BitSelect(k, 0, y, n) == n
  {
    if k != 0 {
      ZerosSelect(k - 1, y / 2, n / 2);
    }
  }

  /** Selecting ones over zeros gives back the condition itself. */
  lemma {:induction false} SelectOnes(k: nat, c: nat)
    requires c < Pow2(k)
    ensures BitSelect(k, c, Pow2(k) - 1, 0) == c
  {
    if k != 0 {
      SelectOnes(k - 1, c / 2);
    }
  }

  lemma Pow64()
    ensures Pow2(64) == TWO_64
  {
    EightMore(0); EightMore(8); EightMore(16); EightMore(24);
    EightMore(32); EightMore(40); EightMore(48); EightMore(56);
  }

  lemma EightMore(k: nat)
    ensures Pow2(k + 8) == 256 * Pow2(k)
  {
    assert Pow2(k + 2) == 4 * Pow2(k);
    assert Pow2(k + 4) == 4 * Pow2(k + 2);
    assert Pow2(k + 6) == 4 * Pow2(k + 4);
    assert Pow2(k + 8) == 4 * Pow2(k + 6);
  }

  /** A mask selects whole lanes. */
  lemma MaskSelects(b: bool, y: F64, n: F64)
    ensures SelectBits(Bits(Mask(b)), y, n) == if b then y else n
  {
    Pow64();
    OnesSelect(64, y, n);
    ZerosSelect(64, y, n);
  }

  lemma BitsRoundTrip(n: I64)
    ensures FromBits(Bits(n)) == n
  {
  }

  /** The i64 that `bitselect` makes of two i64 arms. */
  function SelectI64(c: I64, y: I64, n: I64): I64 { FromBits(SelectBits(Bits(c), Bits(y), Bits(n))) }

  lemma MaskSelectsI64(b: bool, y: I64, n: I64)
    ensures SelectI64(Mask(b), y, n) == if b then y else n
  {
    hide SelectBits, Bits, FromBits, Mask;
    MaskSelects(b, Bits(y), Bits(n));
    BitsRoundTrip(y);
    BitsRoundTrip(n);
  }

  /** Choosing between all ones and all zeros gives the condition itself. */
  lemma SelectsItself(c: I64)
    ensures SelectI64(c, -1, 0) == c
  {
    hide BitSelect;
    Pow64();
    SelectOnes(64, Bits(c));
    BitsRoundTrip(c);
    assert Bits(-1) == Pow2(64) - 1 && Bits(0) == 0;
  }

  /** `bitselect` is `select` exactly for the two masks: 0 and -1. */
  lemma BitselectIsSelect(c: I64)
    ensures (forall y: I64, n: I64 :: SelectI64(c, y, n) == if c != 0 then y else n) <==> c == 0 || c == -1
  {
    hide SelectI64;
    if c == 0 || c == -1 {
      forall y: I64, n: I64 ensures SelectI64(c, y, n) == if c != 0 then y else n {
        assert c == Mask(c == -1);
        MaskSelectsI64(c == -1, y, n);
      }
    } else {
      SelectsItself(c);
    }
  }

  // ----- vector code -----

  function InspectSimd(inT: Dtype, e: Expr): Option<Dtype> {
    match e
    case ConstF64(_) => Some(F64)
    case CastToF64(_) => Some(F64)
    case ConstI64(_) => Some(I64)
    case CastToI64(_) => Some(I64)
    case Param => Some(inT)
    case Binary(_, l, r) => OrElse(InspectSimd(inT, l), InspectSimd(inT, r))
    case Compare(_, l, r) => OrElse(InspectSimd(inT, l), InspectSimd(inT, r))
    case Unary(_, a) => InspectSimd(inT, a)
    case IfExpr(_, y, n) => OrElse(InspectSimd(inT, y), InspectSimd(inT, n))
    case ConstBool(_) => Some(I64)
    case Local(_) => None
    case MathCall(_, _) => None
  }

  function GuessSimdCmpDtype(inT: Dtype, l: Expr, r: Expr): Dtype {
    match OrElse(InspectSimd(inT, l), InspectSimd(inT, r))
    case Some(d) => d
    case None => I64
  }

  function SimdBinInstr(op: BinOp, want: Dtype, dst: nat, l: nat, r: nat): Lowered<Instr> {
    if op == Pow && want == F64 then Err(NoSimdPow) else BinInstr(op, want, dst, l, r)
  }

  /** The code for both lanes of `e`.  Locals and math calls never get here: the kernel's shape rules
      them out before vector code is considered. */
  function SimdCode(inT: Dtype, param: nat, e: Expr, want: Dtype, next: nat): (r: Lowered<Code>)
    ensures r.Ok? ==> next <= r.value.next && (param < next ==> r.value.res < r.value.next)
    decreases e, 1
  {
    if IsLeaf(e) then SimdLeafCode(inT, param, e, want, next)
    else if IsUnary(e) then SimdUnaryCode(inT, param, e, want, next)
    else if e.Binary? then SimdBinaryCode(inT, param, e, want, next)
    else if e.Compare? then SimdCompareCode(inT, param, e, next)
    else SimdIfCode(inT, param, e, want, next)
  }

  /** Constants are spread over both lanes; a boolean becomes a mask. */
  function SimdLeafCode(inT: Dtype, param: nat, e: Expr, want: Dtype, next: nat): (r: Lowered<Code>)
    requires IsLeaf(e)
    ensures r.Ok? ==> next <= r.value.next && (param < next ==> r.value.res < r.value.next)
  {
    match e
    case Param => Ok(Coerced(Code([], next, param), inT, want))
    case ConstI64(n) => Ok(Coerced(Code([Iconst(next, n), Splat(next + 1, next)], next + 2, next + 1), I64, want))
    case ConstF64(w) => Ok(Coerced(Code([F64const(next, w), Splat(next + 1, next)], next + 2, next + 1), F64, want))
    case ConstBool(b) => Ok(Code([Iconst(next, Mask(b)), Splat(next + 1, next)], next + 2, next + 1))
    case Local(_) => Err(NotVectorizable)
  }

  function SimdUnaryCode(inT: Dtype, param: nat, e: Expr, want: Dtype, next: nat): (r: Lowered<Code>)
    requires IsUnary(e)
    ensures r.Ok? ==> next <= r.value.next && (param < next ==> r.value.res < r.value.next)
    decreases e, 0
  {
    if e.MathCall? then Err(NotVectorizable)
    else
    var k :- SimdCode(inT, param, Operand(e, want).0, Operand(e, want).1, next);
    if e.Unary? && e.uop == Plus then Ok(k)
    else Ok(Code(k.instrs + [UnaryInstr(e, want, k.next, k.res)], k.next + 1, k.next))
  }

  function SimdBinaryCode(inT: Dtype, param: nat, e: Expr, want: Dtype, next: nat): (r: Lowered<Code>)
    requires e.Binary?
    ensures r.Ok? ==> next <= r.value.next && (param < next ==> r.value.res < r.value.next)
    decreases e, 0
  {
    var a :- SimdCode(inT, param, e.left, want, next);
    var b :- SimdCode(inT, param, e.right, want, a.next);
    var ins :- SimdBinInstr(e.bop, want, b.next, a.res, b.res);
    Ok(Code(a.instrs + b.instrs + [ins], b.next + 1, b.next))
  }

  function SimdCompareCode(inT: Dtype, param: nat, e: Expr, next: nat): (r: Lowered<Code>)
    requires e.Compare?
    ensures r.Ok? ==> next <= r.value.next && (param < next ==> r.value.res < r.value.next)
    decreases e, 0
  {
    var d := GuessSimdCmpDtype(inT, e.cleft, e.cright);
    var a :- SimdCode(inT, param, e.cleft, d, next);
    var b :- SimdCode(inT, param, e.cright, d, a.next);
    Ok(Code(a.instrs + b.instrs + [CmpInstr(e.cop, d, b.next, a.res, b.res)], b.next + 1, b.next))
  }

  function SimdIfCode(inT: Dtype, param: nat, e: Expr, want: Dtype, next: nat): (r: Lowered<Code>)
    requires e.IfExpr?
    ensures r.Ok? ==> next <= r.value.next && (param < next ==> r.value.res < r.value.next)
    decreases e, 0
  {
    var c :- SimdCode(inT, param, e.test, I64, next);
    var a :- SimdCode(inT, param, e.yes, want, c.next);
    var b :- SimdCode(inT, param, e.no, want, a.next);
    var k := MaskFor(want, c.res, b.next);
    Ok(Code(c.instrs + a.instrs + b.instrs + k.instrs + [Bitselect(k.next, k.res, a.res, b.res)], k.next + 1, k.next))
  }

  /** `bitselect` wants all three operands of one type: an f64 conditional reinterprets its mask. */
  function MaskFor(want: Dtype, c: nat, next: nat): (k: Code)
    ensures next <= k.next
  {
    match want
    case I64 => Code([], next, c)
    case F64 => Code([BitcastF64X2(next, c)], next + 1, next)
  }

  // ----- what a lane computes -----

  /** The mask that stands for a tested value. */
  function Masked(u: Option<Val>): Option<Val> {
    if u.Some? && Truth(u.value).Some? then Some(IntV(Mask(Truth(u.value).value))) else None
  }

  /** Bit by bit: the first arm where the condition has ones. */
  function Selected(c: Option<Val>, u: Option<Val>, v: Option<Val>): Option<Val> {
    match (c, u, v)
    case (Some(IntV(k)), Some(IntV(y)), Some(IntV(n))) => Some(IntV(SelectI64(k, y, n)))
    case (Some(IntV(k)), Some(FltV(y)), Some(FltV(n))) => Some(FltV(SelectBits(Bits(k), y, n)))
    case _ => None
  }

  /** Like the meaning of an expression, except that booleans and comparisons are masks and conditionals select
      by bits. */
  function LaneEval(m: Fpu, e: Expr, x: Val): Option<Val> {
    match e
    case Param => Some(x)
    case ConstI64(n) => Some(IntV(n))
    case ConstF64(w) => Some(FltV(w))
    case ConstBool(b) => Some(IntV(Mask(b)))
    case Unary(op, a) => Signed(m, op, LaneEval(m, a, x))
    case Binary(op, l, r) => Arith(m, op, LaneEval(m, l, x), LaneEval(m, r, x))
    case Compare(op, l, r) => Masked(Compared(m, op, LaneEval(m, l, x), LaneEval(m, r, x)))
    case IfExpr(t, y, n) => Selected(LaneEval(m, t, x), LaneEval(m, y, x), LaneEval(m, n, x))
    case CastToI64(a) => ToI64(m, LaneEval(m, a, x))
    case CastToF64(a) => ToF64(m, LaneEval(m, a, x))
    case _ => None
  }

  /** Booleans and comparisons are tested and nothing else, and nothing else is tested. */
  predicate MasksOnly(e: Expr) {
    match e
    case ConstBool(_) => false
    case Compare(_, _, _) => false
    case Unary(_, a) => MasksOnly(a)
    case Binary(_, l, r) => MasksOnly(l) && MasksOnly(r)
    case IfExpr(t, y, n) =>
      && MasksOnly(y) && MasksOnly(n)
      && (t.ConstBool? || (t.Compare? && MasksOnly(t.cleft) && MasksOnly(t.cright)))
    case CastToI64(a) => MasksOnly(a)
    case CastToF64(a) => MasksOnly(a)
    case _ => true
  }

  /** On input `x` no boolean but False is a value, and every integer under test is 0 or -1. */
  predicate MasksOn(m: Fpu, e: Expr, x: Val)
    decreases e, 0
  {
    match e
    case ConstBool(b) => !b
    case Compare(_, _, _) => false
    case Unary(_, a) => MasksOn(m, a, x)
    case Binary(_, l, r) => MasksOn(m, l, x) && MasksOn(m, r, x)
    case IfExpr(t, y, n) =>
      && MasksOn(m, y, x) && MasksOn(m, n, x)
      && IsCondition(m, t, x)
    case CastToI64(a) => MasksOn(m, a, x)
    case CastToF64(a) => MasksOn(m, a, x)
    case _ => true
  }

  predicate IsCondition(m: Fpu, t: Expr, x: Val)
    decreases t, 1
  {
    match t
    case ConstBool(_) => true
    case Compare(_, l, r) => MasksOn(m, l, x) && MasksOn(m, r, x)
    case _ => MasksOn(m, t, x) && Eval(m, t, x, map[]) in {None, Some(IntV(0)), Some(IntV(-1))}
  }

  lemma {:induction false} MasksOnlyOn(m: Fpu, e: Expr, x: Val)
    requires MasksOnly(e)
    ensures MasksOn(m, e, x)
  {
    hide Eval;
    match e
    case Unary(_, a) => MasksOnlyOn(m, a, x);
    case Binary(_, l, r) =>
      MasksOnlyOn(m, l, x);
      MasksOnlyOn(m, r, x);
    case IfExpr(t, y, n) =>
      MasksOnlyOn(m, y, x);
      MasksOnlyOn(m, n, x);
      if t.Compare? {
        MasksOnlyOn(m, t.cleft, x);
        MasksOnlyOn(m, t.cright, x);
      }
    case CastToI64(a) => MasksOnlyOn(m, a, x);
    case CastToF64(a) => MasksOnlyOn(m, a, x);
    case _ =>
  }

  /** The two guesses of a comparison's dtype agree on everything that is vectorised. */
  lemma {:induction false} GuessesAgree(t: Target, locals: Locals, e: Expr)
    requires IsPureSimdExpr(e)
    ensures InspectSimd(t.inT, e) == Inspect(t, locals, e)
  {
    match e
    case Unary(_, a) => GuessesAgree(t, locals, a);
    case Binary(_, l, r) => GuessesAgree(t, locals, l); GuessesAgree(t, locals, r);
    case Compare(_, l, r) => GuessesAgree(t, locals, l); GuessesAgree(t, locals, r);
    case IfExpr(_, y, n) => GuessesAgree(t, locals, y); GuessesAgree(t, locals, n);
    case _ =>
  }

  // ----- the two lanes -----

  /** Two scalar results as a vector; none if either element traps. */
  function Lanes(u: Option<Val>, v: Option<Val>): Option<Val> {
    if u.Some? && v.Some? then Pair(u.value, v.value) else None
  }

  predicate IsVec(v: Val, d: Dtype) {
    match d
    case I64 => v.IntX2?
    case F64 => v.FltX2?
  }

  function Lane0(v: Val): Val
    requires v.IntX2? || v.FltX2?
  {
    match v
    case IntX2(a, _) => IntV(a)
    case FltX2(a, _) => FltV(a)
  }

  function Lane1(v: Val): Val
    requires v.IntX2? || v.FltX2?
  {
    match v
    case IntX2(_, b) => IntV(b)
    case FltX2(_, b) => FltV(b)
  }

  lemma BinaryLanes(p: Program, op: BinOp, d: Dtype, dst: nat, l: nat, rt: nat, r: Regs, u: Val, v: Val)
    requires IsVec(u, d) && IsVec(v, d) && op in {Add, Sub, Mul}
    requires Lookup(r.vals, l) == Some(u) && Lookup(r.vals, rt) == Some(v)
    ensures SimdBinInstr(op, d, dst, l, rt).Ok?
    ensures var ins := SimdBinInstr(op, d, dst, l, rt).value;
            !ins.DefVar? && !ins.StoreAt? && ins.dst == dst && Computed(p, ins, r) ==
              Lanes(Arith(p.fpu, op, Some(Lane0(u)), Some(Lane0(v))), Arith(p.fpu, op, Some(Lane1(u)), Some(Lane1(v))))
  {
    hide Wrap;
  }

  lemma CompareLanes(p: Program, op: CmpOp, d: Dtype, dst: nat, l: nat, rt: nat, r: Regs, u: Val, v: Val)
    requires IsVec(u, d) && IsVec(v, d)
    requires Lookup(r.vals, l) == Some(u) && Lookup(r.vals, rt) == Some(v)
    ensures var ins := CmpInstr(op, d, dst, l, rt);
            !ins.DefVar? && !ins.StoreAt? && ins.dst == dst && Computed(p, ins, r) ==
              Lanes(Masked(Compared(p.fpu, op, Some(Lane0(u)), Some(Lane0(v)))),
                    Masked(Compared(p.fpu, op, Some(Lane1(u)), Some(Lane1(v)))))
  {
    hide Mask, IntCmp;
    match (u, v)
    case (IntX2(a0, a1), IntX2(b0, b1)) =>
      var f0, f1 := IntCmp(op, a0, b0), IntCmp(op, a1, b1);
      assert Computed(p, CmpInstr(op, d, dst, l, rt), r) == Some(IntX2(Mask(f0), Mask(f1)));
      assert Masked(Some(FlagV(f0))) == Some(IntV(Mask(f0))) && Masked(Some(FlagV(f1))) == Some(IntV(Mask(f1)));
    case (FltX2(a0, a1), FltX2(b0, b1)) =>
      var f0, f1 := p.fpu.cmp(op, a0, b0), p.fpu.cmp(op, a1, b1);
      assert Computed(p, CmpInstr(op, d, dst, l, rt), r) == Some(IntX2(Mask(f0), Mask(f1)));
      assert Masked(Some(FlagV(f0))) == Some(IntV(Mask(f0))) && Masked(Some(FlagV(f1))) == Some(IntV(Mask(f1)));
    case _ =>
  }

  lemma UnaryLanes(p: Program, e: Expr, want: Dtype, dst: nat, src: nat, r: Regs, u: Val)
    requires IsUnary(e) && !e.MathCall? && (e.Unary? ==> e.uop == Neg)
    requires IsVec(u, Operand(e, want).1) && Lookup(r.vals, src) == Some(u)
    ensures var ins := UnaryInstr(e, want, dst, src);
            !ins.DefVar? && !ins.StoreAt? && ins.dst == dst && Computed(p, ins, r) ==
              Lanes(EC.UnaryVal(p.fpu, e, Some(Lane0(u))), EC.UnaryVal(p.fpu, e, Some(Lane1(u))))
  {
    hide Wrap;
  }

  /** The condition brought to the type of the arms. */
  function Condition(d: Dtype, c0: I64, c1: I64): Val {
    if d == I64 then IntX2(c0, c1) else FltX2(Bits(c0), Bits(c1))
  }

  lemma SelectLanes(d: Dtype, c0: I64, c1: I64, u: Val, v: Val)
    requires IsVec(u, d) && IsVec(v, d)
    ensures BitselectVal(Condition(d, c0, c1), u, v) ==
            Lanes(Selected(Some(IntV(c0)), Some(Lane0(u)), Some(Lane0(v))), Selected(Some(IntV(c1)), Some(Lane1(u)), Some(Lane1(v))))
  {
    hide SelectBits, Bits, FromBits;
  }

  /** A mask chooses. */
  lemma MaskChooses(b: bool, u: Val, v: Val)
    requires SameShape(u, v) && (u.IntV? || u.FltV?)
    ensures Selected(Some(IntV(Mask(b))), Some(u), Some(v)) == Some(if b then u else v)
  {
    hide SelectBits, Bits, Mask, SelectI64;
    match u
    case IntV(y) => MaskSelectsI64(b, y, v.n);
    case FltV(y) => MaskSelects(b, y, v.w);
  }

  // ----- the simulation -----

  /** Of dtype `d`; or under test, where an i64 is wanted. */
  predicate Value(e: Expr, d: Dtype, inT: Dtype) {
    IsPureSimdExpr(e) && (ExprType(e, map[], inT) == Some(d) || (d == I64 && IsTest(e, map[], inT)))
  }

  lemma {:induction false} LaneTyped(m: Fpu, e: Expr, d: Dtype, inT: Dtype, x: Val)
    requires Value(e, d, inT) && HasType(x, inT)
    ensures LaneEval(m, e, x).Some? ==> HasType(LaneEval(m, e, x).value, d)
  {
    hide Arith, Compared, SelectI64, SelectBits, Wrap;
    match e
    case Unary(_, a) => LaneTyped(m, a, d, inT, x);
    case Binary(op, l, r) =>
      LaneTyped(m, l, d, inT, x);
      LaneTyped(m, r, d, inT, x);
      EC.OpsTyped(m, op, Plus, None, LaneEval(m, l, x), LaneEval(m, r, x), d);
    case IfExpr(_, y, n) =>
      LaneTyped(m, y, d, inT, x);
      LaneTyped(m, n, d, inT, x);
    case _ =>
  }

  /** Both lanes of the parameter are in its SSA value. */
  predicate Holding(inT: Dtype, param: nat, next: nat, x0: Val, x1: Val, r: Regs) {
    param < next && HasType(x0, inT) && HasType(x1, inT) && Lookup(r.vals, param) == Pair(x0, x1)
  }

  predicate LanesSim(p: Program, inT: Dtype, param: nat, e: Expr, want: Dtype, next: nat, x0: Val, x1: Val, r: Regs) {
    && SimdCode(inT, param, e, want, next).Ok?
    && EC.Yields(p, SimdCode(inT, param, e, want, next).value, r, next,
                 Lanes(LaneEval(p.fpu, e, x0), LaneEval(p.fpu, e, x1)))
  }

  /** The vector code of an expression computes `LaneEval` in both lanes. */
  lemma {:induction false} ValueSim(p: Program, inT: Dtype, param: nat, e: Expr, want: Dtype, next: nat,
                                    x0: Val, x1: Val, r: Regs)
    requires Value(e, want, inT) && Holding(inT, param, next, x0, x1, r)
    ensures LanesSim(p, inT, param, e, want, next, x0, x1, r)
    decreases e, 2
  {
    if IsLeaf(e) {
      LeafSim(p, inT, param, e, want, next, x0, x1, r);
    } else if IsUnary(e) {
      UnarySim(p, inT, param, e, want, next, x0, x1, r);
    } else if e.Binary? {
      BinarySim(p, inT, param, e, want, next, x0, x1, r);
    } else if e.Compare? {
      CompareSim(p, inT, param, e, want, next, x0, x1, r);
    } else {
      IfSim(p, inT, param, e, want, next, x0, x1, r);
    }
  }

  /** The value of a typed expression in both lanes is a vector of that dtype. */
  lemma LanesTyped(m: Fpu, e: Expr, d: Dtype, inT: Dtype, x0: Val, x1: Val)
    requires Value(e, d, inT) && HasType(x0, inT) && HasType(x1, inT)
    ensures var u, v := LaneEval(m, e, x0), LaneEval(m, e, x1);
            (u.Some? ==> HasType(u.value, d)) && (v.Some? ==> HasType(v.value, d)) &&
            (u.Some? && v.Some? ==> Lanes(u, v).Some? && IsVec(Lanes(u, v).value, d)
                                    && Lane0(Lanes(u, v).value) == u.value && Lane1(Lanes(u, v).value) == v.value)
  {
    hide LaneEval, Value;
    LaneTyped(m, e, d, inT, x0);
    LaneTyped(m, e, d, inT, x1);
  }

  lemma LeafSim(p: Program, inT: Dtype, param: nat, e: Expr, want: Dtype, next: nat, x0: Val, x1: Val, r: Regs)
    requires IsLeaf(e) && Value(e, want, inT) && Holding(inT, param, next, x0, x1, r)
    ensures LanesSim(p, inT, param, e, want, next, x0, x1, r)
  {
    if !e.Param? {
      ConstSim(p, if e.ConstI64? then IntV(e.n) else if e.ConstF64? then FltV(e.w) else IntV(Mask(e.b)), next, r);
    }
  }

  function ConstInstr(v: Val, n: nat): Instr
    requires v.IntV? || v.FltV?
  {
    if v.IntV? then Iconst(n, v.n) else F64const(n, v.w)
  }

  lemma ConstSim(p: Program, v: Val, next: nat, r: Regs)
    requires v.IntV? || v.FltV?
    ensures EC.Yields(p, Code([ConstInstr(v, next), Splat(next + 1, next)], next + 2, next + 1), r, next, Pair(v, v))
  {
    var ins := ConstInstr(v, next);
    var r1 := r.(vals := r.vals[next := v]);
    assert ExecInstr(p, ins, r) == Some(r1);
    assert [ins][1..] == [];
    assert Run(p, [ins], r) == Some(r1);
    assert [ins] + [Splat(next + 1, next)] == [ins, Splat(next + 1, next)];
    EC.YieldsLast(p, [ins], Splat(next + 1, next), r, next, r1, Pair(v, v));
  }

  lemma {:induction false} UnarySim(p: Program, inT: Dtype, param: nat, e: Expr, want: Dtype, next: nat,
                                    x0: Val, x1: Val, r: Regs)
    requires IsUnary(e) && Value(e, want, inT) && Holding(inT, param, next, x0, x1, r)
    ensures LanesSim(p, inT, param, e, want, next, x0, x1, r)
    decreases e, 1
  {
    hide Computed, ExecInstr, Run, LaneEval, SimdCode, UnaryInstr, EC.UnaryVal;
    var (a, d) := Operand(e, want);
    UnaryValue(p.fpu, inT, param, e, want, next, x0, x1);
    ValueSim(p, inT, param, a, d, next, x0, x1, r);
    LanesTyped(p.fpu, a, d, inT, x0, x1);
    var k := SimdCode(inT, param, a, d, next).value;
    var u0, u1 := LaneEval(p.fpu, a, x0), LaneEval(p.fpu, a, x1);
    if e.Unary? && e.uop == Plus {
    } else if u0.None? || u1.None? {
      EC.YieldsTrap(p, k.instrs, UnaryInstr(e, want, k.next, k.res), r, next, k.next + 1, k.next);
    } else {
      var r1 := Run(p, k.instrs, r).value;
      UnaryLanes(p, e, want, k.next, k.res, r1, Lanes(u0, u1).value);
      EC.YieldsLast(p, k.instrs, UnaryInstr(e, want, k.next, k.res), r, next, r1,
                    Lanes(EC.UnaryVal(p.fpu, e, u0), EC.UnaryVal(p.fpu, e, u1)));
    }
  }

  lemma UnaryValue(m: Fpu, inT: Dtype, param: nat, e: Expr, want: Dtype, next: nat, x0: Val, x1: Val)
    requires IsUnary(e) && Value(e, want, inT)
    ensures !e.MathCall?
    ensures var (a, d) := Operand(e, want);
            && a < e && Value(a, d, inT)
            && LaneEval(m, e, x0) == EC.UnaryVal(m, e, LaneEval(m, a, x0))
            && LaneEval(m, e, x1) == EC.UnaryVal(m, e, LaneEval(m, a, x1))
    ensures EC.UnaryVal(m, e, None) == None && (e.Unary? && e.uop == Plus ==> forall u :: EC.UnaryVal(m, e, u) == u)
    ensures SimdCode(inT, param, e, want, next) == SimdUnaryCode(inT, param, e, want, next)
  {
    hide SimdUnaryCode;
  }

  lemma {:induction false} BinarySim(p: Program, inT: Dtype, param: nat, e: Expr, want: Dtype, next: nat,
                                     x0: Val, x1: Val, r: Regs)
    requires e.Binary? && Value(e, want, inT) && Holding(inT, param, next, x0, x1, r)
    ensures LanesSim(p, inT, param, e, want, next, x0, x1, r)
    decreases e, 1
  {
    hide Computed, ExecInstr, Run, LaneEval, SimdCode, Arith, SimdBinInstr, ExprType;
    BinaryValue(p.fpu, inT, param, e, want, next, x0, x1);
    var r2 := PairSim(p, inT, param, e, e.left, e.right, want, next, x0, x1, r);
    var a := SimdCode(inT, param, e.left, want, next).value;
    var b := SimdCode(inT, param, e.right, want, a.next).value;
    LanesTyped(p.fpu, e.left, want, inT, x0, x1);
    LanesTyped(p.fpu, e.right, want, inT, x0, x1);
    var u0, u1 := LaneEval(p.fpu, e.left, x0), LaneEval(p.fpu, e.left, x1);
    var v0, v1 := LaneEval(p.fpu, e.right, x0), LaneEval(p.fpu, e.right, x1);
    SimdBinOk(e.bop, want, b.next, a.res, b.res);
    var ins := SimdBinInstr(e.bop, want, b.next, a.res, b.res).value;
    if Lanes(u0, u1).None? || Lanes(v0, v1).None? {
      EC.YieldsTrap(p, a.instrs + b.instrs, ins, r, next, b.next + 1, b.next);
      LaneNone(p.fpu, e.bop, u0, u1, v0, v1);
    } else {
      BinaryLanes(p, e.bop, want, b.next, a.res, b.res, r2, Lanes(u0, u1).value, Lanes(v0, v1).value);
      EC.YieldsLast(p, a.instrs + b.instrs, ins, r, next, r2,
                    Lanes(Arith(p.fpu, e.bop, u0, v0), Arith(p.fpu, e.bop, u1, v1)));
    }
  }

  lemma SimdBinOk(op: BinOp, d: Dtype, dst: nat, l: nat, r: nat)
    requires op in {Add, Sub, Mul}
    ensures SimdBinInstr(op, d, dst, l, r).Ok?
  {
  }

  lemma LaneNone(m: Fpu, op: BinOp, u0: Option<Val>, u1: Option<Val>, v0: Option<Val>, v1: Option<Val>)
    requires u0.None? || u1.None? || v0.None? || v1.None?
    ensures Lanes(Arith(m, op, u0, v0), Arith(m, op, u1, v1)).None?
  {
    if u0.None? || v0.None? {
      EC.ArithNone(m, op, u0, v0);
    } else {
      EC.ArithNone(m, op, u1, v1);
    }
  }

  lemma BinaryValue(m: Fpu, inT: Dtype, param: nat, e: Expr, want: Dtype, next: nat, x0: Val, x1: Val)
    requires e.Binary? && Value(e, want, inT)
    ensures Value(e.left, want, inT) && Value(e.right, want, inT) && e.bop in {Add, Sub, Mul}
    ensures LaneEval(m, e, x0) == Arith(m, e.bop, LaneEval(m, e.left, x0), LaneEval(m, e.right, x0))
    ensures LaneEval(m, e, x1) == Arith(m, e.bop, LaneEval(m, e.left, x1), LaneEval(m, e.right, x1))
    ensures SimdCode(inT, param, e, want, next) == SimdBinaryCode(inT, param, e, want, next)
  {
    hide SimdBinaryCode, Arith;
  }

  /** Two operands of one dtype, one after the other. */
  lemma {:induction false} PairSim(p: Program, inT: Dtype, param: nat, e: Expr, l: Expr, rt: Expr, d: Dtype, next: nat,
                                   x0: Val, x1: Val, r: Regs) returns (r2: Regs)
    requires l < e && rt < e
    requires Value(l, d, inT) && Value(rt, d, inT) && Holding(inT, param, next, x0, x1, r)
    ensures SimdCode(inT, param, l, d, next).Ok?
    ensures SimdCode(inT, param, rt, d, SimdCode(inT, param, l, d, next).value.next).Ok?
    ensures var a := SimdCode(inT, param, l, d, next).value;
            var b := SimdCode(inT, param, rt, d, a.next).value;
            EC.BothRun(p, a, b, r, next, Lanes(LaneEval(p.fpu, l, x0), LaneEval(p.fpu, l, x1)),
                       Lanes(LaneEval(p.fpu, rt, x0), LaneEval(p.fpu, rt, x1)), r2)
    decreases e, 0
  {
    hide Run, SimdCode, LaneEval, Value, Lanes, EC.Kept, EC.BothRun, Holding;
    NothingLost(r.vals, next);
    HoldingParam(inT, param, next, x0, x1, r);
    ValueSim(p, inT, param, l, d, next, x0, x1, r);
    var a := SimdCode(inT, param, l, d, next).value;
    var u := Lanes(LaneEval(p.fpu, l, x0), LaneEval(p.fpu, l, x1));
    var v := Lanes(LaneEval(p.fpu, rt, x0), LaneEval(p.fpu, rt, x1));
    var r1 := if u.Some? then Run(p, a.instrs, r).value else r;
    StillHolding(inT, param, next, a.next, x0, x1, r, r1);
    ValueSim(p, inT, param, rt, d, a.next, x0, x1, r1);
    var b := SimdCode(inT, param, rt, d, a.next).value;
    r2 := BothYield(p, a, b, r, next, u, v);
  }

  /** Two pieces of code run one after the other keep both results. */
  lemma BothYield(p: Program, a: Code, b: Code, r: Regs, next: nat, u: Option<Val>, v: Option<Val>) returns (r2: Regs)
    requires EC.Yields(p, a, r, next, u) && next <= a.next && a.res < a.next
    requires u.Some? ==> EC.Yields(p, b, Run(p, a.instrs, r).value, a.next, v)
    ensures EC.BothRun(p, a, b, r, next, u, v, r2)
  {
    hide Run, EC.Kept;
    RunConcat(p, a.instrs, b.instrs, r);
    r2 := r;
    if u.Some? && v.Some? {
      r2 := Run(p, a.instrs + b.instrs, r).value;
      KeptOn(r.vals, Run(p, a.instrs, r).value.vals, r2.vals, next, a.next, a.res);
    }
  }

  lemma StillHolding(inT: Dtype, param: nat, n: nat, m: nat, x0: Val, x1: Val, r: Regs, r1: Regs)
    requires Holding(inT, param, n, x0, x1, r) && EC.Kept(r.vals, r1.vals, n) && n <= m
    ensures Holding(inT, param, m, x0, x1, r1)
  {
  }

  lemma KeptOn(a: map<nat, Val>, b: map<nat, Val>, c: map<nat, Val>, n: nat, m: nat, k: nat)
    requires EC.Kept(a, b, n) && EC.Kept(b, c, m) && n <= m
    ensures EC.Kept(a, c, n) && (k < m && k in b ==> Lookup(c, k) == Lookup(b, k))
  {
  }

  lemma HoldingParam(inT: Dtype, param: nat, n: nat, x0: Val, x1: Val, r: Regs)
    requires Holding(inT, param, n, x0, x1, r)
    ensures param < n
  {
  }

  lemma NothingLost(a: map<nat, Val>, n: nat)
    ensures EC.Kept(a, a, n)
  {
  }

  /** The mask of a comparison, in both lanes. */
  lemma {:induction false} CompareSim(p: Program, inT: Dtype, param: nat, e: Expr, want: Dtype, next: nat,
                                      x0: Val, x1: Val, r: Regs)
    requires e.Compare? && Value(e, want, inT) && Holding(inT, param, next, x0, x1, r)
    ensures LanesSim(p, inT, param, e, want, next, x0, x1, r)
    decreases e, 1
  {
    hide Computed, ExecInstr, Run, LaneEval, SimdCode, Compared, GuessSimdCmpDtype, ExprType, Value;
    CompareValue(p.fpu, inT, param, e, want, next, x0, x1);
    var d := GuessSimdCmpDtype(inT, e.cleft, e.cright);
    var r2 := PairSim(p, inT, param, e, e.cleft, e.cright, d, next, x0, x1, r);
    var a := SimdCode(inT, param, e.cleft, d, next).value;
    var b := SimdCode(inT, param, e.cright, d, a.next).value;
    LanesTyped(p.fpu, e.cleft, d, inT, x0, x1);
    LanesTyped(p.fpu, e.cright, d, inT, x0, x1);
    var u0, u1 := LaneEval(p.fpu, e.cleft, x0), LaneEval(p.fpu, e.cleft, x1);
    var v0, v1 := LaneEval(p.fpu, e.cright, x0), LaneEval(p.fpu, e.cright, x1);
    var ins := CmpInstr(e.cop, d, b.next, a.res, b.res);
    if Lanes(u0, u1).None? || Lanes(v0, v1).None? {
      EC.YieldsTrap(p, a.instrs + b.instrs, ins, r, next, b.next + 1, b.next);
      ComparedNone(p.fpu, e.cop, u0, v0);
      ComparedNone(p.fpu, e.cop, u1, v1);
    } else {
      CompareLanes(p, e.cop, d, b.next, a.res, b.res, r2, Lanes(u0, u1).value, Lanes(v0, v1).value);
      EC.YieldsLast(p, a.instrs + b.instrs, ins, r, next, r2,
                    Lanes(Masked(Compared(p.fpu, e.cop, u0, v0)), Masked(Compared(p.fpu, e.cop, u1, v1))));
    }
  }

  lemma ComparedNone(m: Fpu, op: CmpOp, u: Option<Val>, v: Option<Val>)
    ensures u.None? || v.None? ==> Compared(m, op, u, v).None?
  {
  }

  lemma CompareValue(m: Fpu, inT: Dtype, param: nat, e: Expr, want: Dtype, next: nat, x0: Val, x1: Val)
    requires e.Compare? && Value(e, want, inT)
    ensures var d := GuessSimdCmpDtype(inT, e.cleft, e.cright); Value(e.cleft, d, inT) && Value(e.cright, d, inT)
    ensures LaneEval(m, e, x0) == Masked(Compared(m, e.cop, LaneEval(m, e.cleft, x0), LaneEval(m, e.cright, x0)))
    ensures LaneEval(m, e, x1) == Masked(Compared(m, e.cop, LaneEval(m, e.cleft, x1), LaneEval(m, e.cright, x1)))
    ensures SimdCode(inT, param, e, want, next) == SimdCompareCode(inT, param, e, next)
  {
    hide SimdCompareCode, Compared, Masked;
    var t := Target(inT, inT, 0, 0);
    GuessesAgree(t, map[], e.cleft);
    GuessesAgree(t, map[], e.cright);
    assert EC.TypesOf(map[]) == map[];
    EC.GuessIsOperandType(t, map[], e.cleft, e.cright);
  }

  lemma IfValue(m: Fpu, inT: Dtype, param: nat, e: Expr, want: Dtype, next: nat, x0: Val, x1: Val)
    requires e.IfExpr? && Value(e, want, inT)
    ensures Value(e.test, I64, inT) && Value(e.yes, want, inT) && Value(e.no, want, inT)
    ensures LaneEval(m, e, x0) == Selected(LaneEval(m, e.test, x0), LaneEval(m, e.yes, x0), LaneEval(m, e.no, x0))
    ensures LaneEval(m, e, x1) == Selected(LaneEval(m, e.test, x1), LaneEval(m, e.yes, x1), LaneEval(m, e.no, x1))
    ensures SimdCode(inT, param, e, want, next) == SimdIfCode(inT, param, e, want, next)
  {
    hide SimdIfCode, Selected;
  }

  /** The condition brought to the type of the arms. */
  lemma MaskRuns(p: Program, want: Dtype, c: nat, next: nat, c0: I64, c1: I64, r: Regs) returns (r1: Regs)
    requires c < next && Lookup(r.vals, c) == Some(IntX2(c0, c1))
    ensures var k := MaskFor(want, c, next);
            && Run(p, k.instrs, r) == Some(r1) && r1.vars == r.vars && r1.out == r.out && EC.Kept(r.vals, r1.vals, next)
            && Lookup(r1.vals, k.res) == Some(Condition(want, c0, c1))
  {
    hide Bits;
    if want == I64 {
      r1 := r;
    } else {
      var ins := BitcastF64X2(next, c);
      r1 := r.(vals := r.vals[next := FltX2(Bits(c0), Bits(c1))]);
      assert ExecInstr(p, ins, r) == Some(r1);
      assert [ins][1..] == [];
      assert Run(p, [ins][1..], r1) == Some(r1);
    }
  }

  lemma {:induction false} IfSim(p: Program, inT: Dtype, param: nat, e: Expr, want: Dtype, next: nat,
                                 x0: Val, x1: Val, r: Regs)
    requires e.IfExpr? && Value(e, want, inT) && Holding(inT, param, next, x0, x1, r)
    ensures LanesSim(p, inT, param, e, want, next, x0, x1, r)
    decreases e, 1
  {
    hide Computed, ExecInstr, Run, LaneEval, SimdCode, MaskFor, BitselectVal, Value, Selected, IsVec, Lane0, Lane1, Condition;
    IfValue(p.fpu, inT, param, e, want, next, x0, x1);
    ValueSim(p, inT, param, e.test, I64, next, x0, x1, r);
    var c := SimdCode(inT, param, e.test, I64, next).value;
    var t0, t1 := LaneEval(p.fpu, e.test, x0), LaneEval(p.fpu, e.test, x1);
    LaneTyped(p.fpu, e.test, I64, inT, x0);
    LaneTyped(p.fpu, e.test, I64, inT, x1);
    var r1 := if t0.Some? && t1.Some? then Run(p, c.instrs, r).value else r;
    var r2 := PairSim(p, inT, param, e, e.yes, e.no, want, c.next, x0, x1, r1);
    var a := SimdCode(inT, param, e.yes, want, c.next).value;
    var b := SimdCode(inT, param, e.no, want, a.next).value;
    var u0, u1 := LaneEval(p.fpu, e.yes, x0), LaneEval(p.fpu, e.yes, x1);
    var v0, v1 := LaneEval(p.fpu, e.no, x0), LaneEval(p.fpu, e.no, x1);
    ArmsTyped(p.fpu, inT, e, want, x0, x1);
    RunConcat(p, c.instrs, a.instrs + b.instrs, r);
    var code := c.instrs + a.instrs + b.instrs;
    assert c.instrs + (a.instrs + b.instrs) == code;
    var k := MaskFor(want, c.res, b.next);
    RunConcat(p, code, k.instrs, r);
    var ins := Bitselect(k.next, k.res, a.res, b.res);
    if t0.None? || t1.None? || Lanes(u0, u1).None? || Lanes(v0, v1).None? {
      EC.YieldsTrap(p, code + k.instrs, ins, r, next, k.next + 1, k.next);
      SelectedNone(t0, u0, v0);
      SelectedNone(t1, u1, v1);
    } else {
      var r3 := MaskRuns(p, want, c.res, b.next, t0.value.n, t1.value.n, r2);
      SelectComputes(p, want, t0.value.n, t1.value.n, k, a, b, r3, Lanes(u0, u1).value, Lanes(v0, v1).value);
      EC.YieldsLast(p, code + k.instrs, ins, r, next, r3, Lanes(Selected(t0, u0, v0), Selected(t1, u1, v1)));
    }
  }

  lemma SelectedNone(c: Option<Val>, u: Option<Val>, v: Option<Val>)
    ensures c.None? || u.None? || v.None? ==> Selected(c, u, v).None?
  {
  }

  lemma ArmsTyped(m: Fpu, inT: Dtype, e: Expr, want: Dtype, x0: Val, x1: Val)
    requires e.IfExpr? && Value(e.yes, want, inT) && Value(e.no, want, inT) && HasType(x0, inT) && HasType(x1, inT)
    ensures var u := Lanes(LaneEval(m, e.yes, x0), LaneEval(m, e.yes, x1));
            u.Some? ==> IsVec(u.value, want) && Some(Lane0(u.value)) == LaneEval(m, e.yes, x0) && Some(Lane1(u.value)) == LaneEval(m, e.yes, x1)
    ensures var v := Lanes(LaneEval(m, e.no, x0), LaneEval(m, e.no, x1));
            v.Some? ==> IsVec(v.value, want) && Some(Lane0(v.value)) == LaneEval(m, e.no, x0) && Some(Lane1(v.value)) == LaneEval(m, e.no, x1)
    ensures LaneEval(m, e.yes, x0).Some? && LaneEval(m, e.yes, x1).Some? ==> Lanes(LaneEval(m, e.yes, x0), LaneEval(m, e.yes, x1)).Some?
    ensures LaneEval(m, e.no, x0).Some? && LaneEval(m, e.no, x1).Some? ==> Lanes(LaneEval(m, e.no, x0), LaneEval(m, e.no, x1)).Some?
  {
    hide LaneEval, Value;
    LanesTyped(m, e.yes, want, inT, x0, x1);
    LanesTyped(m, e.no, want, inT, x0, x1);
  }

  lemma SelectComputes(p: Program, want: Dtype, c0: I64, c1: I64, k: Code, a: Code, b: Code, r: Regs, u: Val, v: Val)
    requires IsVec(u, want) && IsVec(v, want) && Lookup(r.vals, a.res) == Some(u) && Lookup(r.vals, b.res) == Some(v)
    requires Lookup(r.vals, k.res) == Some(Condition(want, c0, c1))
    ensures Computed(p, Bitselect(k.next, k.res, a.res, b.res), r) ==
            Lanes(Selected(Some(IntV(c0)), Some(Lane0(u)), Some(Lane0(v))), Selected(Some(IntV(c1)), Some(Lane1(u)), Some(Lane1(v))))
  {
    hide Condition, BitselectVal, Selected;
    SelectLanes(want, c0, c1, u, v);
  }

  // ----- where a lane computes what the expression means -----

  /** On an input on which conditions are masks a lane computes the expression's value... */
  lemma {:induction false} MasksAgree(m: Fpu, e: Expr, d: Dtype, inT: Dtype, x: Val)
    requires Value(e, d, inT) && MasksOn(m, e, x) && HasType(x, inT)
    ensures LaneEval(m, e, x) == Eval(m, e, x, map[])
    decreases e, 1
  {
    hide Arith, Compared, Selected, Chosen, Signed;
    match e
    case Unary(_, a) => MasksAgree(m, a, d, inT, x);
    case Binary(_, l, r) =>
      MasksAgree(m, l, d, inT, x);
      MasksAgree(m, r, d, inT, x);
    case CastToI64(a) => MasksAgree(m, a, F64, inT, x);
    case CastToF64(a) => MasksAgree(m, a, I64, inT, x);
    case IfExpr(t, y, n) =>
      MasksAgree(m, y, d, inT, x);
      MasksAgree(m, n, d, inT, x);
      LaneTyped(m, y, d, inT, x);
      LaneTyped(m, n, d, inT, x);
      ConditionMasked(m, t, inT, x);
      EC.TestHasTruth(m, t, x, map[], map[], inT);
      MaskedSelects(Eval(m, t, x, map[]), LaneEval(m, y, x), LaneEval(m, n, x), d);
    case _ =>
  }

  /** ...and of a condition, the mask. */
  lemma {:induction false} ConditionMasked(m: Fpu, t: Expr, inT: Dtype, x: Val)
    requires Value(t, I64, inT) && IsCondition(m, t, x) && HasType(x, inT)
    ensures LaneEval(m, t, x) == Masked(Eval(m, t, x, map[]))
    decreases t, 2
  {
    if t.Compare? {
      hide Compared, Masked;
      var d := ExprType(t.cleft, map[], inT).value;
      MasksAgree(m, t.cleft, d, inT, x);
      MasksAgree(m, t.cright, d, inT, x);
    } else if !t.ConstBool? {
      MasksAgree(m, t, I64, inT, x);
    }
  }

  lemma MaskedSelects(c: Option<Val>, u: Option<Val>, v: Option<Val>, d: Dtype)
    requires (u.Some? ==> HasType(u.value, d)) && (v.Some? ==> HasType(v.value, d)) && (c.Some? ==> Truth(c.value).Some?)
    ensures Selected(Masked(c), u, v) == Chosen(c, u, v)
  {
    hide Selected, Mask;
    SelectedNone(Masked(c), u, v);
    if c.Some? && u.Some? && v.Some? {
      MaskChooses(Truth(c.value).value, u.value, v.value);
    }
  }

  // ----- no access to memory -----

  lemma SimdLevel(inT: Dtype, param: nat, e: Expr, want: Dtype, next: nat)
    ensures IsUnary(e) ==> SimdCode(inT, param, e, want, next) == SimdUnaryCode(inT, param, e, want, next)
    ensures e.Binary? ==> SimdCode(inT, param, e, want, next) == SimdBinaryCode(inT, param, e, want, next)
    ensures e.Compare? ==> SimdCode(inT, param, e, want, next) == SimdCompareCode(inT, param, e, next)
    ensures e.IfExpr? ==> SimdCode(inT, param, e, want, next) == SimdIfCode(inT, param, e, want, next)
    ensures IsLeaf(e) ==> SimdCode(inT, param, e, want, next) == SimdLeafCode(inT, param, e, want, next)
  {
    hide SimdUnaryCode, SimdBinaryCode, SimdCompareCode, SimdIfCode, SimdLeafCode;
  }

  /** The vector code of an expression computes in registers. */
  lemma {:induction false} SimdNoAccess(inT: Dtype, param: nat, e: Expr, want: Dtype, next: nat)
    requires SimdCode(inT, param, e, want, next).Ok?
    ensures NoAccess(SimdCode(inT, param, e, want, next).value.instrs)
    decreases e
  {
    hide SimdCode, GuessSimdCmpDtype;
    SimdLevel(inT, param, e, want, next);
    if IsUnary(e) {
      hide SimdBinaryCode, SimdCompareCode, SimdIfCode, SimdLeafCode;
      if !e.MathCall? {
        SimdNoAccess(inT, param, Operand(e, want).0, Operand(e, want).1, next);
      }
    } else if e.Binary? {
      hide SimdUnaryCode, SimdCompareCode, SimdIfCode, SimdLeafCode;
      SimdNoAccess(inT, param, e.left, want, next);
      SimdNoAccess(inT, param, e.right, want, SimdCode(inT, param, e.left, want, next).value.next);
    } else if e.Compare? {
      hide SimdUnaryCode, SimdBinaryCode, SimdIfCode, SimdLeafCode;
      var d := GuessSimdCmpDtype(inT, e.cleft, e.cright);
      SimdNoAccess(inT, param, e.cleft, d, next);
      SimdNoAccess(inT, param, e.cright, d, SimdCode(inT, param, e.cleft, d, next).value.next);
    } else if e.IfExpr? {
      hide SimdUnaryCode, SimdBinaryCode, SimdCompareCode, SimdLeafCode;
      var c := SimdCode(inT, param, e.test, I64, next).value;
      var a := SimdCode(inT, param, e.yes, want, c.next).value;
      SimdNoAccess(inT, param, e.test, I64, next);
      SimdNoAccess(inT, param, e.yes, want, c.next);
      SimdNoAccess(inT, param, e.no, want, a.next);
    }
  }
}
