/** `SimdLowerer` and `compile_simd` as they run: both loops are built with one function builder. */
module SimdCompiler {
  import opened Wrappers
  import opened Ir
  import opened Cfg
  import opened LowererObject
  import opened Simd
  import L = Lowering
  import Shape
  import SK = ScalarKernel
  import V = SimdKernel
  import SC = ScalarCompiler

  /** The blocks with `code` appended to an open block. */
  function Grown(blocks: seq<Block>, cur: nat, code: seq<Instr>): seq<Block>
    requires cur < |blocks|
  {
    blocks[cur := Block(blocks[cur].instrs + code, None)]
  }

  lemma GrownNothing(blocks: seq<Block>, cur: nat)
    requires cur < |blocks| && blocks[cur].term.None?
    ensures Grown(blocks, cur, []) == blocks
  {
    assert blocks[cur].instrs + [] == blocks[cur].instrs;
  }

  lemma GrownMore(blocks: seq<Block>, cur: nat, a: seq<Instr>, b: seq<Instr>)
    requires cur < |blocks|
    ensures Grown(Grown(blocks, cur, a), cur, b) == Grown(blocks, cur, a + b)
  {
    assert blocks[cur].instrs + a + b == blocks[cur].instrs + (a + b);
  }

  class SimdLowerer {
    const builder: FunctionBuilder
    const inputDtype: Dtype
    const param: nat

    constructor (builder: FunctionBuilder, inputDtype: Dtype, param: nat)
      ensures this.builder == builder && this.inputDtype == inputDtype && this.param == param
    {
      this.builder, this.inputDtype, this.param := builder, inputDtype, param;
    }

    /** Exactly `code` was appended to the current block, taking value numbers up to `next`. */
    twostate predicate Emitted(code: seq<Instr>, next: nat)
      reads builder
    {
      && old(builder.cur) < |old(builder.blocks)|
      && builder.Open() && builder.nvals == next && builder.cur == old(builder.cur) && builder.nvars == old(builder.nvars)
      && builder.blocks == Grown(old(builder.blocks), old(builder.cur), code)
    }

    method Coerce(v: nat, actual: Dtype, want: Dtype) returns (r: nat)
      requires builder.Open()
      modifies builder`blocks, builder`nvals
      ensures var c := L.Coerced(L.Code([], old(builder.nvals), v), actual, want);
              r == c.res && Emitted(c.instrs, c.next)
    {
      GrownNothing(builder.blocks, builder.cur);
      if actual == want {
        r := v;
      } else if actual == I64 {
        assert [] + [FromSint(builder.nvals, v)] == [FromSint(builder.nvals, v)];
        r := builder.Inst(FromSint(builder.nvals, v));
      } else {
        assert [] + [ToSint(builder.nvals, v)] == [ToSint(builder.nvals, v)];
        r := builder.Inst(ToSint(builder.nvals, v));
      }
    }

    /** A constant spread over both lanes. */
    method Spread(i: Instr) returns (v: nat)
      requires builder.Open() && !i.DefVar? && !i.StoreAt? && i.dst == builder.nvals
      modifies builder`blocks, builder`nvals
      ensures var n := old(builder.nvals); v == n + 1 && Emitted([i, Splat(n + 1, n)], n + 2)
    {
      ghost var b0, cur := builder.blocks, builder.cur;
      var s := builder.Inst(i);
      v := builder.Inst(Splat(builder.nvals, s));
      assert b0[cur].instrs + [i] + [Splat(v, s)] == b0[cur].instrs + [i, Splat(v, s)];
    }

    method Lower(e: Expr, want: Dtype) returns (r: L.Lowered<nat>)
      requires builder.Open()
      modifies builder`blocks, builder`nvals
      ensures match SimdCode(inputDtype, param, e, want, old(builder.nvals))
              case Ok(k) => r == Ok(k.res) && Emitted(k.instrs, k.next)
              case Err(x) => r == Err(x)
      decreases e, 1
    {
      hide Grown, SimdLeafCode, SimdUnaryCode, SimdBinaryCode, SimdCompareCode, SimdIfCode;
      match e {
        case Unary(_, _) => r := LowerUnary(e, want);
        case MathCall(_, _) => r := LowerUnary(e, want);
        case CastToI64(_) => r := LowerUnary(e, want);
        case CastToF64(_) => r := LowerUnary(e, want);
        case Binary(_, _, _) => r := LowerBinary(e, want);
        case Compare(_, _, _) => r := LowerCompare(e);
        case IfExpr(_, _, _) => r := LowerIf(e, want);
        case _ => r := LowerLeaf(e, want);
      }
    }

    method LowerLeaf(e: Expr, want: Dtype) returns (r: L.Lowered<nat>)
      requires builder.Open() && L.IsLeaf(e)
      modifies builder`blocks, builder`nvals
      ensures match SimdLeafCode(inputDtype, param, e, want, old(builder.nvals))
              case Ok(k) => r == Ok(k.res) && Emitted(k.instrs, k.next)
              case Err(x) => r == Err(x)
      decreases e, 0
    {
      match e {
        case Param =>
          var v := Coerce(param, inputDtype, want);
          r := Ok(v);
        case ConstI64(n) =>
          var v := SpreadAs(Iconst(builder.nvals, n), I64, want);
          r := Ok(v);
        case ConstF64(w) =>
          var v := SpreadAs(F64const(builder.nvals, w), F64, want);
          r := Ok(v);
        case ConstBool(b) =>
          var v := Spread(Iconst(builder.nvals, Mask(b)));
          r := Ok(v);
        case Local(_) => r := Err(L.NotVectorizable);
      }
    }

    method SpreadAs(i: Instr, actual: Dtype, want: Dtype) returns (r: nat)
      requires builder.Open() && !i.DefVar? && !i.StoreAt? && i.dst == builder.nvals
      modifies builder`blocks, builder`nvals
      ensures var n := old(builder.nvals);
              var c := L.Coerced(L.Code([i, Splat(n + 1, n)], n + 2, n + 1), actual, want);
              r == c.res && Emitted(c.instrs, c.next)
    {
      ghost var b0, cur, n := builder.blocks, builder.cur, builder.nvals;
      var v := Spread(i);
      ghost var c := L.Coerced(L.Code([], n + 2, v), actual, want);
      GrownMore(b0, cur, [i, Splat(n + 1, n)], c.instrs);
      assert [i, Splat(n + 1, n)] + c.instrs == L.Coerced(L.Code([i, Splat(n + 1, n)], n + 2, n + 1), actual, want).instrs;
      r := Coerce(v, actual, want);
    }

    method LowerUnary(e: Expr, want: Dtype) returns (r: L.Lowered<nat>)
      requires builder.Open() && L.IsUnary(e)
      modifies builder`blocks, builder`nvals
      ensures match SimdUnaryCode(inputDtype, param, e, want, old(builder.nvals))
              case Ok(k) => r == Ok(k.res) && Emitted(k.instrs, k.next)
              case Err(x) => r == Err(x)
      decreases e, 0
    {
      hide Grown, SimdCode;
      if e.MathCall? {
        return Err(L.NotVectorizable);
      }
      ghost var b0, cur := builder.blocks, builder.cur;
      var (a, d) := L.Operand(e, want);
      ghost var k := SimdCode(inputDtype, param, a, d, builder.nvals);
      var v :- Lower(a, d);
      if e.Unary? && e.uop == Plus {
        return Ok(v);
      }
      var i := L.UnaryInstr(e, want, builder.nvals, v);
      GrownMore(b0, cur, k.value.instrs, [i]);
      v := Value(i);
      r := Ok(v);
    }

    method Value(i: Instr) returns (v: nat)
      requires builder.Open() && !i.DefVar? && !i.StoreAt? && i.dst == builder.nvals
      modifies builder`blocks, builder`nvals
      ensures v == old(builder.nvals) && Emitted([i], v + 1)
    {
      v := builder.Inst(i);
    }

    method LowerBinary(e: Expr, want: Dtype) returns (r: L.Lowered<nat>)
      requires builder.Open() && e.Binary?
      modifies builder`blocks, builder`nvals
      ensures match SimdBinaryCode(inputDtype, param, e, want, old(builder.nvals))
              case Ok(k) => r == Ok(k.res) && Emitted(k.instrs, k.next)
              case Err(x) => r == Err(x)
      decreases e, 0
    {
      hide Grown, SimdCode, SimdBinInstr;
      ghost var b0, cur := builder.blocks, builder.cur;
      ghost var a := SimdCode(inputDtype, param, e.left, want, builder.nvals);
      var u :- Lower(e.left, want);
      ghost var b := SimdCode(inputDtype, param, e.right, want, builder.nvals);
      var v :- Lower(e.right, want);
      GrownMore(b0, cur, a.value.instrs, b.value.instrs);
      SimdBinInstrShape(e.bop, want, builder.nvals, u, v);
      var i :- SimdBinInstr(e.bop, want, builder.nvals, u, v);
      GrownMore(b0, cur, a.value.instrs + b.value.instrs, [i]);
      v := Value(i);
      r := Ok(v);
    }

    lemma SimdBinInstrShape(op: BinOp, want: Dtype, dst: nat, l: nat, r: nat)
      ensures SimdBinInstr(op, want, dst, l, r).Ok? ==>
                var i := SimdBinInstr(op, want, dst, l, r).value; !i.DefVar? && !i.StoreAt? && i.dst == dst
    {
    }

    method LowerCompare(e: Expr) returns (r: L.Lowered<nat>)
      requires builder.Open() && e.Compare?
      modifies builder`blocks, builder`nvals
      ensures match SimdCompareCode(inputDtype, param, e, old(builder.nvals))
              case Ok(k) => r == Ok(k.res) && Emitted(k.instrs, k.next)
              case Err(x) => r == Err(x)
      decreases e, 0
    {
      hide Grown, SimdCode, GuessSimdCmpDtype;
      ghost var b0, cur := builder.blocks, builder.cur;
      var d := GuessSimdCmpDtype(inputDtype, e.cleft, e.cright);
      ghost var a := SimdCode(inputDtype, param, e.cleft, d, builder.nvals);
      var u :- Lower(e.cleft, d);
      ghost var b := SimdCode(inputDtype, param, e.cright, d, builder.nvals);
      var v :- Lower(e.cright, d);
      GrownMore(b0, cur, a.value.instrs, b.value.instrs);
      var i := L.CmpInstr(e.cop, d, builder.nvals, u, v);
      GrownMore(b0, cur, a.value.instrs + b.value.instrs, [i]);
      v := Value(i);
      r := Ok(v);
    }

    method LowerIf(e: Expr, want: Dtype) returns (r: L.Lowered<nat>)
      requires builder.Open() && e.IfExpr?
      modifies builder`blocks, builder`nvals
      ensures match SimdIfCode(inputDtype, param, e, want, old(builder.nvals))
              case Ok(k) => r == Ok(k.res) && Emitted(k.instrs, k.next)
              case Err(x) => r == Err(x)
      decreases e, 0
    {
      hide Grown, SimdCode;
      ghost var b0, cur := builder.blocks, builder.cur;
      ghost var a := SimdCode(inputDtype, param, e.test, I64, builder.nvals);
      var c :- Lower(e.test, I64);
      ghost var b := SimdCode(inputDtype, param, e.yes, want, builder.nvals);
      var u :- Lower(e.yes, want);
      GrownMore(b0, cur, a.value.instrs, b.value.instrs);
      ghost var d := SimdCode(inputDtype, param, e.no, want, builder.nvals);
      var v :- Lower(e.no, want);
      ghost var abd := a.value.instrs + b.value.instrs + d.value.instrs;
      GrownMore(b0, cur, a.value.instrs + b.value.instrs, d.value.instrs);
      ghost var k := MaskFor(want, c, builder.nvals);
      if want == F64 {
        c := Value(BitcastF64X2(builder.nvals, c));
        GrownMore(b0, cur, abd, k.instrs);
      } else {
        assert abd + k.instrs == abd;
      }
      var i := Bitselect(builder.nvals, c, u, v);
      GrownMore(b0, cur, abd + k.instrs, [i]);
      v := Value(i);
      r := Ok(v);
    }
  }

  // ----- both loops -----

  const BLANK: seq<Block> := [EMPTY, EMPTY, EMPTY, EMPTY, EMPTY, EMPTY, EMPTY]

  method NewFunction() returns (builder: FunctionBuilder)
    ensures fresh(builder) && builder.blocks == BLANK && builder.nvals == 3 && builder.nvars == 2
  {
    builder := new FunctionBuilder(3);
    var entry := builder.CreateBlock();
    var vecHeader := builder.CreateBlock();
    var vecBody := builder.CreateBlock();
    var scalarHeader := builder.CreateBlock();
    var scalarEntry := builder.CreateBlock();
    var scalarExit := builder.CreateBlock();
    var outerExit := builder.CreateBlock();
    var i := builder.DeclareVar();
    var result := builder.DeclareVar();
  }

  const EntryBlock: Block := Block(V.EntryCode, Some(Jump(V.VEC_HEADER)))

  /** The entry block: the counter starts at zero, the vector loop ends at the last whole pair. */
  method BuildEntry() returns (builder: FunctionBuilder)
    ensures fresh(builder) && builder.nvals == 8 && builder.nvars == 2
    ensures builder.blocks == [EntryBlock, EMPTY, EMPTY, EMPTY, EMPTY, EMPTY, EMPTY]
  {
    builder := NewFunction();
    builder.SwitchToBlock(SK.ENTRY);
    var zero := builder.Inst(Iconst(builder.nvals, 0));
    builder.Effect(DefVar(L.I_VAR, zero));
    var lanes := builder.Inst(Iconst(builder.nvals, 2));
    var rem := builder.Inst(Urem(builder.nvals, SK.LEN, lanes));
    var vecEnd := builder.Inst(IntBin(builder.nvals, Isub, SK.LEN, rem));
    var one := builder.Inst(Iconst(builder.nvals, 1));
    assert builder.blocks[SK.ENTRY].instrs == V.EntryCode;
    builder.Terminate(Jump(V.VEC_HEADER));
  }

  /** The header of the vector loop, and the load of a pair of elements. */
  method BuildVectorHead() returns (builder: FunctionBuilder)
    ensures fresh(builder) && builder.cur == V.VEC_BODY && builder.nvals == V.VEC_PARAM + 1 && builder.nvars == 2
    ensures builder.blocks == [EntryBlock, V.VecHeader(), Block(V.VecLoad, None), EMPTY, EMPTY, EMPTY, EMPTY]
  {
    builder := BuildEntry();
    builder.SwitchToBlock(V.VEC_HEADER);
    var now := builder.Inst(UseVar(builder.nvals, L.I_VAR));
    var cond := builder.Inst(IcmpUlt(builder.nvals, now, V.VEC_END));
    builder.Terminate(Brif(cond, V.VEC_BODY, V.SCALAR_HEADER));
    assert builder.blocks[V.VEC_HEADER].instrs == V.VecHeader().instrs;
    assert builder.blocks == [EntryBlock, V.VecHeader(), EMPTY, EMPTY, EMPTY, EMPTY, EMPTY];

    builder.SwitchToBlock(V.VEC_BODY);
    var idx := builder.Inst(UseVar(builder.nvals, L.I_VAR));
    var pair := builder.Inst(LoadX2(builder.nvals, idx));
    assert builder.blocks[V.VEC_BODY].instrs == V.VecLoad;
    assert builder.blocks == [EntryBlock, V.VecHeader(), Block(V.VecLoad, None), EMPTY, EMPTY, EMPTY, EMPTY];
  }

  /** The store of a pair and the step to the next; then the header of the scalar loop and its load. */
  method BuildTailStart(builder: FunctionBuilder, ghost v: L.Code, vecResult: nat)
    requires builder.blocks == [EntryBlock, V.VecHeader(), Block(V.VecLoad + v.instrs, None), EMPTY, EMPTY, EMPTY, EMPTY]
    requires builder.cur == V.VEC_BODY && builder.nvals == v.next && vecResult == v.res && builder.nvars == 2
    modifies builder
    ensures var st := V.TailStart(v);
            builder.blocks == st.blocks && builder.cur == st.cur && builder.nvals == st.nvals && builder.nvars == st.nvars
  {
    ghost var before := V.VecLoad + v.instrs;
    var i := builder.Inst(UseVar(builder.nvals, L.I_VAR));
    builder.Effect(StoreAt(i, vecResult));
    var next := builder.Inst(IntBin(builder.nvals, Iadd, i, V.LANES));
    builder.Effect(DefVar(L.I_VAR, next));
    assert builder.blocks[V.VEC_BODY].instrs == before + V.VecStore(v);
    builder.Terminate(Jump(V.VEC_HEADER));

    builder.SwitchToBlock(V.SCALAR_HEADER);
    var now := builder.Inst(UseVar(builder.nvals, L.I_VAR));
    var cond := builder.Inst(IcmpUlt(builder.nvals, now, SK.LEN));
    builder.Terminate(Brif(cond, V.SCALAR_ENTRY, V.OUTER_EXIT));
    assert builder.blocks[V.SCALAR_HEADER].instrs == V.TailHeader(v.next + 2).instrs;

    builder.SwitchToBlock(V.SCALAR_ENTRY);
    var idx := builder.Inst(UseVar(builder.nvals, L.I_VAR));
    var value := builder.Inst(Load(builder.nvals, idx));
    assert builder.blocks[V.SCALAR_ENTRY].instrs == V.TailLoad(v.next + 4);
    assert builder.blocks == V.TailStart(v).blocks;
  }

  /** The store of a left-over result and the step to the next element. */
  method BuildTailExit(builder: FunctionBuilder)
    requires |builder.blocks| >= 7 && builder.blocks[V.SCALAR_EXIT] == EMPTY && builder.blocks[V.OUTER_EXIT] == EMPTY
    modifies builder
    ensures builder.blocks == old(builder.blocks)
              [V.SCALAR_EXIT := Block(V.TailExit(old(builder.nvals)), Some(Jump(V.SCALAR_HEADER)))]
              [V.OUTER_EXIT := Block([], Some(Ret))]
  {
    ghost var b0, n := builder.blocks, builder.nvals;
    builder.SwitchToBlock(V.SCALAR_EXIT);
    var v := builder.Inst(UseVar(builder.nvals, L.RESULT_VAR));
    var i := builder.Inst(UseVar(builder.nvals, L.I_VAR));
    builder.Effect(StoreAt(i, v));
    var next := builder.Inst(IntBin(builder.nvals, Iadd, i, V.ONE));
    builder.Effect(DefVar(L.I_VAR, next));
    assert builder.blocks[V.SCALAR_EXIT].instrs == V.TailExit(n);
    builder.Terminate(Jump(V.SCALAR_HEADER));
    builder.SwitchToBlock(V.OUTER_EXIT);
    builder.Terminate(Ret);
    assert builder.blocks == b0[V.SCALAR_EXIT := Block(V.TailExit(n), Some(Jump(V.SCALAR_HEADER)))]
                               [V.OUTER_EXIT := Block([], Some(Ret))];
  }

  /** Compiles a vectorisable kernel to its blocks, or fails where vector or scalar code is not to be had. */
  method CompileSimd(k: Kernel) returns (r: L.Lowered<seq<Block>>)
    requires IsVectorizablePhase1(k)
    ensures r == V.CompileSimd(k)
  {
    hide L.LowerBody, Shape.Ready, Shape.Partly, SimdCode, V.TailStart, V.TailExit, V.VecHeader;
    var builder := BuildVectorHead();
    var simd := new SimdLowerer(builder, k.inputDtype, V.VEC_PARAM);
    ghost var code := SimdCode(k.inputDtype, V.VEC_PARAM, k.body[0].result, k.outputDtype, V.VEC_PARAM + 1);
    var vecResult :- simd.Lower(k.body[0].result, k.outputDtype);
    ghost var v := code.value;
    BuildTailStart(builder, v, vecResult);
    TailStartReady(k, v);
    var param := builder.nvals - 1;
    var lowerer := new Lowerer(builder, L.Target(k.inputDtype, k.outputDtype, param, V.SCALAR_EXIT));
    assert lowerer.target == V.TailTarget(k, v.next + 2);
    assert lowerer.State() == V.TailStart(v);
    var _ :- lowerer.LowerBody(k.body);
    ghost var st := lowerer.State();
    Shape.BodyGrows(V.TailTarget(k, v.next + 2), V.TailStart(v), k.body);
    ExitsUntouched(v, st);
    TailIs(st);
    BuildTailExit(builder);
    r := Ok(builder.blocks);
  }

  lemma TailStartReady(k: Kernel, v: L.Code)
    ensures Shape.Ready(V.TailTarget(k, v.next + 2), V.TailStart(v))
    ensures var st := V.TailStart(v);
            st.nvals == v.next + 6 && st.locals == map[] && !st.terminated && st.loops == []
  {
  }

  /** Lowering the left-over element's body leaves the exits of both loops alone. */
  lemma ExitsUntouched(v: L.Code, st: L.Build)
    requires Shape.Grows(V.TailStart(v), st)
    ensures |st.blocks| >= 7 && st.blocks[V.SCALAR_EXIT] == EMPTY && st.blocks[V.OUTER_EXIT] == EMPTY
  {
  }

  lemma TailIs(st: L.Build)
    requires |st.blocks| >= 7 && st.blocks[V.SCALAR_EXIT] == EMPTY && st.blocks[V.OUTER_EXIT] == EMPTY
    ensures var st1 := L.Close(L.Emit(L.Switch(st, V.SCALAR_EXIT), V.TailExit(st.nvals), st.nvals + 3), Jump(V.SCALAR_HEADER));
            L.Close(L.Switch(st1, V.OUTER_EXIT), Ret).blocks ==
            st.blocks[V.SCALAR_EXIT := Block(V.TailExit(st.nvals), Some(Jump(V.SCALAR_HEADER)))][V.OUTER_EXIT := Block([], Some(Ret))]
  {
    hide V.TailExit;
    assert [] + V.TailExit(st.nvals) == V.TailExit(st.nvals);
  }

  /** `compile`: vector code for the kernels whose shape allows it. */
  method Compile(k: Kernel) returns (r: L.Lowered<seq<Block>>)
    ensures r == V.Compile(k)
  {
    hide V.CompileSimd, SK.CompileScalar;
    if IsVectorizablePhase1(k) {
      r := CompileSimd(k);
    } else {
      r := SC.CompileScalar(k);
    }
  }
}
