/** Blocks, instructions and the machine that runs them.  An SSA value is a number; a Cranelift
    `Variable` is a mutable register.  Memory is the input buffer and the output buffer, addressed
    by element. */
module Cfg {
  import opened Wrappers
  import opened Ir
  import opened Machine

  datatype IntOp = Iadd | Isub | Imul | Sdiv | Srem

  datatype FloatOp = Fadd | Fsub | Fmul | Fdiv | CallPow

  datatype Instr =
    | Iconst(dst: nat, n: I64)
    | F64const(dst: nat, w: F64)
    | UseVar(dst: nat, v: nat)
    | DefVar(v: nat, src: nat)
    | IntBin(dst: nat, iop: IntOp, l: nat, r: nat)
    | FloatBin(dst: nat, fop: FloatOp, l: nat, r: nat)
    | Ineg(dst: nat, src: nat)
    | Fneg(dst: nat, src: nat)
    | Icmp(dst: nat, cc: CmpOp, l: nat, r: nat)
    | Fcmp(dst: nat, cc: CmpOp, l: nat, r: nat)
    | IcmpUlt(dst: nat, l: nat, r: nat)
    | Urem(dst: nat, l: nat, r: nat)
    | Select(dst: nat, c: nat, l: nat, r: nat)
    | Bitselect(dst: nat, c: nat, l: nat, r: nat)
    | BitcastF64X2(dst: nat, src: nat)
    | Splat(dst: nat, src: nat)
    | CallMath(dst: nat, fn: MathFn, src: nat)
    | ToSint(dst: nat, src: nat)
    | FromSint(dst: nat, src: nat)
    | Load(dst: nat, idx: nat)
    | LoadX2(dst: nat, idx: nat)
    | StoreAt(idx: nat, src: nat)

  datatype Terminator = Jump(target: nat) | Brif(c: nat, yes: nat, no: nat) | Ret

  datatype Block = Block(instrs: seq<Instr>, term: Option<Terminator>)

  const EMPTY := Block([], None)

  /** Registers and memory. */
  datatype Regs = Regs(vals: map<nat, Val>, vars: map<nat, Val>, out: seq<Val>)

  /** A position in the code, or the end of a run: a trap, an access outside the buffers, or a return. */
  datatype Config = At(b: nat, i: nat, r: Regs) | Fault | Stray | Done(out: seq<Val>)

  datatype Program = Program(fpu: Fpu, blocks: seq<Block>, inp: seq<Val>)

  // ----- what one instruction computes -----

  function IntOpVal(op: IntOp, a: I64, b: I64): Option<I64> {
    match op
    case Iadd => Some(Wrap(a + b))
    case Isub => Some(Wrap(a - b))
    case Imul => Some(Wrap(a * b))
    case Sdiv => if b == 0 || (a == -TWO_63 && b == -1) then None else Some(Wrap(TruncDiv(a, b)))
    case Srem => if b == 0 then None else Some(Wrap(TruncRem(a, b)))
  }

  function FloatOpVal(m: Fpu, op: FloatOp, a: F64, b: F64): F64 {
    match op
    case Fadd => m.add(a, b)
    case Fsub => m.sub(a, b)
    case Fmul => m.mul(a, b)
    case Fdiv => m.div(a, b)
    case CallPow => m.pow(a, b)
  }

  function Mask(b: bool): I64 { if b then -1 else 0 }

  /** The 64-bit pattern of an i64, and back. */
  function Bits(n: I64): F64 { Unsigned(n) }

  function FromBits(w: F64): I64 { Wrap(w) }

  /** Bit by bit, over the low `k` bits: the bit of `y` where `c` has a one, the bit of `n` elsewhere. */
  function BitSelect(k: nat, c: nat, y: nat, n: nat): nat {
    if k == 0 then 0
    else 2 * BitSelect(k - 1, c / 2, y / 2, n / 2) + (if c % 2 == 1 then y % 2 else n % 2)
  }

  function SelectBits(c: F64, y: F64, n: F64): F64 { BitSelect(64, c, y, n) % TWO_64 }

  function IntBinVal(op: IntOp, u: Val, v: Val): Option<Val> {
    match (u, v)
    case (IntV(a), IntV(b)) => var n :- IntOpVal(op, a, b); Some(IntV(n))
    case (IntX2(a0, a1), IntX2(b0, b1)) =>
      var n0 :- IntOpVal(op, a0, b0);
      var n1 :- IntOpVal(op, a1, b1);
      Some(IntX2(n0, n1))
    case _ => None
  }

  function FloatBinVal(m: Fpu, op: FloatOp, u: Val, v: Val): Option<Val> {
    match (u, v)
    case (FltV(a), FltV(b)) => Some(FltV(FloatOpVal(m, op, a, b)))
    case (FltX2(a0, a1), FltX2(b0, b1)) => Some(FltX2(FloatOpVal(m, op, a0, b0), FloatOpVal(m, op, a1, b1)))
    case _ => None
  }

  /** A scalar comparison yields an 8-bit flag, a vector one a full-width mask per lane. */
  function IcmpVal(op: CmpOp, u: Val, v: Val): Option<Val> {
    match (u, v)
    case (IntV(a), IntV(b)) => Some(FlagV(IntCmp(op, a, b)))
    case (IntX2(a0, a1), IntX2(b0, b1)) => Some(IntX2(Mask(IntCmp(op, a0, b0)), Mask(IntCmp(op, a1, b1))))
    case _ => None
  }

  function FcmpVal(m: Fpu, op: CmpOp, u: Val, v: Val): Option<Val> {
    match (u, v)
    case (FltV(a), FltV(b)) => Some(FlagV(m.cmp(op, a, b)))
    case (FltX2(a0, a1), FltX2(b0, b1)) => Some(IntX2(Mask(m.cmp(op, a0, b0)), Mask(m.cmp(op, a1, b1))))
    case _ => None
  }

  function InegVal(v: Val): Option<Val> {
    match v
    case IntV(a) => Some(IntV(Wrap(0 - a)))
    case IntX2(a0, a1) => Some(IntX2(Wrap(0 - a0), Wrap(0 - a1)))
    case _ => None
  }

  function FnegVal(m: Fpu, v: Val): Option<Val> {
    match v
    case FltV(a) => Some(FltV(m.neg(a)))
    case FltX2(a0, a1) => Some(FltX2(m.neg(a0), m.neg(a1)))
    case _ => None
  }

  predicate SameShape(u: Val, v: Val) {
    match u
    case IntV(_) => v.IntV?
    case FltV(_) => v.FltV?
    case FlagV(_) => v.FlagV?
    case IntX2(_, _) => v.IntX2?
    case FltX2(_, _) => v.FltX2?
  }

  function SelectVal(c: Val, u: Val, v: Val): Option<Val> {
    var b :- Truth(c);
    if SameShape(u, v) then Some(if b then u else v) else None
  }

  function BitselectVal(c: Val, u: Val, v: Val): Option<Val> {
    match (c, u, v)
    case (IntX2(c0, c1), IntX2(y0, y1), IntX2(n0, n1)) =>
      Some(IntX2(FromBits(SelectBits(Bits(c0), Bits(y0), Bits(n0))),
                 FromBits(SelectBits(Bits(c1), Bits(y1), Bits(n1)))))
    case (FltX2(c0, c1), FltX2(y0, y1), FltX2(n0, n1)) =>
      Some(FltX2(SelectBits(c0, y0, n0), SelectBits(c1, y1, n1)))
    case _ => None
  }

  function ToSintVal(m: Fpu, v: Val): Option<Val> {
    match v
    case FltV(a) => var n :- m.toInt(a); Some(IntV(n))
    case FltX2(a0, a1) =>
      var n0 :- m.toInt(a0);
      var n1 :- m.toInt(a1);
      Some(IntX2(n0, n1))
    case _ => None
  }

  function FromSintVal(m: Fpu, v: Val): Option<Val> {
    match v
    case IntV(a) => Some(FltV(m.fromInt(a)))
    case IntX2(a0, a1) => Some(FltX2(m.fromInt(a0), m.fromInt(a1)))
    case _ => None
  }

  function SplatVal(v: Val): Option<Val> {
    match v
    case IntV(a) => Some(IntX2(a, a))
    case FltV(a) => Some(FltX2(a, a))
    case _ => None
  }

  function Pair(u: Val, v: Val): Option<Val> {
    match (u, v)
    case (IntV(a), IntV(b)) => Some(IntX2(a, b))
    case (FltV(a), FltV(b)) => Some(FltX2(a, b))
    case _ => None
  }

  function Lookup(vs: map<nat, Val>, k: nat): Option<Val> {
    if k in vs then Some(vs[k]) else None
  }

  /** The element index held in a pointer-sized value. */
  function Index(vs: map<nat, Val>, k: nat): Option<nat> {
    var v :- Lookup(vs, k);
    if v.IntV? && v.n >= 0 then Some(v.n) else None
  }

  /** The value an instruction with a destination computes. */
  function Computed(p: Program, ins: Instr, r: Regs): Option<Val>
    requires !ins.DefVar? && !ins.StoreAt?
  {
    match ins
    case Iconst(_, n) => Some(IntV(n))
    case F64const(_, w) => Some(FltV(w))
    case UseVar(_, v) => Lookup(r.vars, v)
    case IntBin(_, op, a, b) => var u :- Lookup(r.vals, a); var v :- Lookup(r.vals, b); IntBinVal(op, u, v)
    case FloatBin(_, op, a, b) => var u :- Lookup(r.vals, a); var v :- Lookup(r.vals, b); FloatBinVal(p.fpu, op, u, v)
    case Ineg(_, a) => var u :- Lookup(r.vals, a); InegVal(u)
    case Fneg(_, a) => var u :- Lookup(r.vals, a); FnegVal(p.fpu, u)
    case Icmp(_, op, a, b) => var u :- Lookup(r.vals, a); var v :- Lookup(r.vals, b); IcmpVal(op, u, v)
    case Fcmp(_, op, a, b) => var u :- Lookup(r.vals, a); var v :- Lookup(r.vals, b); FcmpVal(p.fpu, op, u, v)
    case IcmpUlt(_, a, b) =>
      var u :- Lookup(r.vals, a);
      var v :- Lookup(r.vals, b);
      if u.IntV? && v.IntV? then Some(FlagV(Unsigned(u.n) < Unsigned(v.n))) else None
    case Urem(_, a, b) =>
      var u :- Lookup(r.vals, a);
      var v :- Lookup(r.vals, b);
      if u.IntV? && v.IntV? && v.n != 0 then Some(IntV(Wrap(Unsigned(u.n) % Unsigned(v.n)))) else None
    case Select(_, c, a, b) =>
      var t :- Lookup(r.vals, c);
      var u :- Lookup(r.vals, a);
      var v :- Lookup(r.vals, b);
      SelectVal(t, u, v)
    case Bitselect(_, c, a, b) =>
      var t :- Lookup(r.vals, c);
      var u :- Lookup(r.vals, a);
      var v :- Lookup(r.vals, b);
      BitselectVal(t, u, v)
    case BitcastF64X2(_, a) =>
      var u :- Lookup(r.vals, a);
      if u.IntX2? then Some(FltX2(Bits(u.n0), Bits(u.n1))) else None
    case Splat(_, a) => var u :- Lookup(r.vals, a); SplatVal(u)
    case CallMath(_, f, a) =>
      var u :- Lookup(r.vals, a);
      if u.FltV? then Some(FltV(p.fpu.math(f, u.w))) else None
    case ToSint(_, a) => var u :- Lookup(r.vals, a); ToSintVal(p.fpu, u)
    case FromSint(_, a) => var u :- Lookup(r.vals, a); FromSintVal(p.fpu, u)
    case Load(_, k) =>
      var i :- Index(r.vals, k);
      if i < |p.inp| then Some(p.inp[i]) else None
    case LoadX2(_, k) =>
      var i :- Index(r.vals, k);
      if i + 1 < |p.inp| then Pair(p.inp[i], p.inp[i + 1]) else None
  }

  /** Writes a scalar to one element of the output buffer, a vector to two. */
  function Stored(out: seq<Val>, i: nat, v: Val): Option<seq<Val>> {
    match v
    case FlagV(_) => None
    case IntX2(a, b) => if i + 1 < |out| then Some(out[i := IntV(a)][i + 1 := IntV(b)]) else None
    case FltX2(a, b) => if i + 1 < |out| then Some(out[i := FltV(a)][i + 1 := FltV(b)]) else None
    case _ => if i < |out| then Some(out[i := v]) else None
  }

  predicate TouchesMemory(ins: Instr) { ins.Load? || ins.LoadX2? || ins.StoreAt? }

  /** One instruction; None when it traps, or cannot get at the memory it names. */
  function ExecInstr(p: Program, ins: Instr, r: Regs): Option<Regs> {
    match ins
    case DefVar(v, src) =>
      var u :- Lookup(r.vals, src);
      Some(r.(vars := r.vars[v := u]))
    case StoreAt(k, src) =>
      var i :- Index(r.vals, k);
      var u :- Lookup(r.vals, src);
      var out :- Stored(r.out, i, u);
      Some(r.(out := out))
    case _ =>
      var u :- Computed(p, ins, r);
      Some(r.(vals := r.vals[ins.dst := u]))
  }

  /** A straight line of instructions. */
  function Run(p: Program, code: seq<Instr>, r: Regs): Option<Regs> {
    if code == [] then Some(r)
    else
      var r' :- ExecInstr(p, code[0], r);
      Run(p, code[1..], r')
  }

  // ----- steps -----

  /** One step.  A run stays put at a block that has no terminator yet, and at its end. */
  function Step(p: Program, c: Config): Config {
    if !c.At? || c.b >= |p.blocks| then c
    else
      var blk := p.blocks[c.b];
      if c.i < |blk.instrs| then
        match ExecInstr(p, blk.instrs[c.i], c.r)
        case None => if TouchesMemory(blk.instrs[c.i]) then Stray else Fault
        case Some(r') => At(c.b, c.i + 1, r')
      else if c.i > |blk.instrs| then c
      else
        match blk.term
        case None => c
        case Some(Jump(t)) => At(t, 0, c.r)
        case Some(Brif(v, yes, no)) =>
          (match Tested(c.r.vals, v)
           case None => Fault
           case Some(b) => At(if b then yes else no, 0, c.r))
        case Some(Ret) => Done(c.r.out)
  }

  function Tested(vs: map<nat, Val>, k: nat): Option<bool> {
    var v :- Lookup(vs, k);
    Truth(v)
  }

  function Steps(p: Program, c: Config, n: nat): Config
    decreases n
  {
    if n == 0 then c else Steps(p, Step(p, c), n - 1)
  }

  lemma {:induction false} StepsAdd(p: Program, c: Config, a: nat, b: nat)
    ensures Steps(p, c, a + b) == Steps(p, Steps(p, c, a), b)
    decreases a
  {
    if a != 0 {
      StepsAdd(p, Step(p, c), a - 1, b);
    }
  }

  predicate Final(c: Config) { !c.At? }

  /** Once a run has ended, it stays ended. */
  lemma {:induction false} FinalStays(p: Program, c: Config, n: nat)
    requires Final(c)
    ensures Steps(p, c, n) == c
  {
    if n != 0 {
      FinalStays(p, c, n - 1);
    }
  }

  /** A run has at most one ending, and a run that is still going after n steps had none before. */
  lemma RunsAgree(p: Program, c: Config, a: nat, b: nat)
    requires a <= b && Final(Steps(p, c, a))
    ensures Steps(p, c, b) == Steps(p, c, a)
  {
    StepsAdd(p, c, a, b - a);
    FinalStays(p, Steps(p, c, a), b - a);
  }

  lemma {:induction false} RunConcat(p: Program, a: seq<Instr>, b: seq<Instr>, r: Regs)
    ensures Run(p, a + b, r) == (match Run(p, a, r) case None => None case Some(r') => Run(p, b, r'))
    decreases |a|
  {
    if a == [] {
      assert a + b == b;
    } else {
      assert (a + b)[0] == a[0] && (a + b)[1..] == a[1..] + b;
      match ExecInstr(p, a[0], r)
      case None =>
      case Some(r') => RunConcat(p, a[1..], b, r');
    }
  }

  /** Every memory access in a run of `code` succeeds. */
  predicate Inside(p: Program, code: seq<Instr>, r: Regs) {
    code != [] ==>
      match ExecInstr(p, code[0], r)
      case None => !TouchesMemory(code[0])
      case Some(r') => Inside(p, code[1..], r')
  }

  predicate NoAccess(code: seq<Instr>) { forall ins <- code :: !TouchesMemory(ins) }

  lemma {:induction false} NoAccessInside(p: Program, code: seq<Instr>, r: Regs)
    requires NoAccess(code)
    ensures Inside(p, code, r)
    decreases |code|
  {
    hide ExecInstr;
    if code != [] {
      match ExecInstr(p, code[0], r)
      case None =>
      case Some(r') => NoAccessInside(p, code[1..], r');
    }
  }

  /** Accesses that have succeeded are followed by code without any. */
  lemma {:induction false} InsideConcat(p: Program, a: seq<Instr>, b: seq<Instr>, r: Regs)
    requires Run(p, a, r).Some? && NoAccess(b)
    ensures Inside(p, a + b, r)
    decreases |a|
  {
    hide ExecInstr;
    if a == [] {
      assert a + b == b;
      NoAccessInside(p, b, r);
    } else {
      assert (a + b)[0] == a[0] && (a + b)[1..] == a[1..] + b;
      InsideConcat(p, a[1..], b, ExecInstr(p, a[0], r).value);
    }
  }

  lemma {:induction false} InsideBefore(p: Program, a: seq<Instr>, b: seq<Instr>, r: Regs)
    requires Inside(p, a, r) && Run(p, a, r).None?
    ensures Inside(p, a + b, r)
    decreases |a|
  {
    hide ExecInstr;
    if a != [] {
      assert (a + b)[0] == a[0] && (a + b)[1..] == a[1..] + b;
      match ExecInstr(p, a[0], r)
      case None =>
      case Some(r') => InsideBefore(p, a[1..], b, r');
    }
  }

  /** Straight-line code inside a block is run by that many steps, or faults. */
  lemma {:induction false} RunSteps(p: Program, b: nat, i: nat, code: seq<Instr>, r: Regs) returns (n: nat)
    requires Run(p, code, r).None? ==> Inside(p, code, r)
    requires b < |p.blocks| && i + |code| <= |p.blocks[b].instrs|
    requires p.blocks[b].instrs[i..i + |code|] == code
    ensures Steps(p, At(b, i, r), n) ==
            (match Run(p, code, r) case None => Fault case Some(r') => At(b, i + |code|, r'))
    ensures Run(p, code, r).Some? ==> n == |code|
    decreases |code|
  {
    if code == [] {
      n := 0;
    } else {
      assert p.blocks[b].instrs[i] == code[0];
      match ExecInstr(p, code[0], r) {
        case None =>
          n := 1;
          assert Step(p, At(b, i, r)) == Fault;
        case Some(r') =>
          assert Step(p, At(b, i, r)) == At(b, i + 1, r');
          assert p.blocks[b].instrs[i + 1..i + 1 + |code[1..]|] == code[1..];
          var k := RunSteps(p, b, i + 1, code[1..], r');
          n := k + 1;
      }
    }
  }
}
