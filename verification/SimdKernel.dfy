/** `compile_simd`: a vector loop over pairs of elements, then a scalar loop over what is left. */
module SimdKernel {
  import opened Wrappers
  import opened Ir
  import opened Machine
  import opened Cfg
  import opened Lowering
  import opened Semantics
  import opened Simd
  import EC = ExprCorrect
  import LC = LoweringCorrect
  import SK = ScalarKernel
  import MK = MapKernel

  // Blocks, in order of creation.
  const VEC_HEADER: nat := 1
  const VEC_BODY: nat := 2
  const SCALAR_HEADER: nat := 3
  const SCALAR_ENTRY: nat := 4
  const SCALAR_EXIT: nat := 5
  const OUTER_EXIT: nat := 6

  // Values of the entry block.
  const LANES: nat := 4
  const VEC_END: nat := 6
  const ONE: nat := 7
  const VEC_PARAM: nat := 11

  const EntryCode := [Iconst(3, 0), DefVar(I_VAR, 3), Iconst(LANES, 2), Urem(5, SK.LEN, LANES),
                      IntBin(VEC_END, Isub, SK.LEN, 5), Iconst(ONE, 1)]

  function VecHeader(): Block { Block([UseVar(8, I_VAR), IcmpUlt(9, 8, VEC_END)], Some(Brif(9, VEC_BODY, SCALAR_HEADER))) }

  const VecLoad := [UseVar(10, I_VAR), LoadX2(VEC_PARAM, 10)]

  function VecStore(k: Code): seq<Instr> {
    [UseVar(k.next, I_VAR), StoreAt(k.next, k.res), IntBin(k.next + 1, Iadd, k.next, LANES), DefVar(I_VAR, k.next + 1)]
  }

  function TailHeader(n: nat): Block {
    Block([UseVar(n, I_VAR), IcmpUlt(n + 1, n, SK.LEN)], Some(Brif(n + 1, SCALAR_ENTRY, OUTER_EXIT)))
  }

  function TailLoad(n: nat): seq<Instr> { [UseVar(n, I_VAR), Load(n + 1, n)] }

  function TailExit(n: nat): seq<Instr> {
    [UseVar(n, RESULT_VAR), UseVar(n + 1, I_VAR), StoreAt(n + 1, n), IntBin(n + 2, Iadd, n + 1, ONE), DefVar(I_VAR, n + 2)]
  }

  function TailTarget(k: Kernel, n: nat): Target { Target(k.inputDtype, k.outputDtype, n + 3, SCALAR_EXIT) }

  /** Everything before the scalar body: the vector loop, and the load of one left-over element. */
  function TailStart(v: Code): Build {
    Build([Block(EntryCode, Some(Jump(VEC_HEADER))), VecHeader(),
           Block(VecLoad + v.instrs + VecStore(v), Some(Jump(VEC_HEADER))),
           TailHeader(v.next + 2), Block(TailLoad(v.next + 4), None), EMPTY, EMPTY],
          SCALAR_ENTRY, v.next + 6, 2, map[], false, [])
  }

  function CompileSimd(k: Kernel): Lowered<seq<Block>>
    requires IsVectorizablePhase1(k)
  {
    var v :- SimdCode(k.inputDtype, VEC_PARAM, k.body[0].result, k.outputDtype, VEC_PARAM + 1);
    var st :- LowerBody(TailTarget(k, v.next + 2), TailStart(v), k.body);
    var st1 := Close(Emit(Switch(st, SCALAR_EXIT), TailExit(st.nvals), st.nvals + 3), Jump(SCALAR_HEADER));
    Ok(Close(Switch(st1, OUTER_EXIT), Ret).blocks)
  }

  /** `compile`: vector code for the kernels whose shape allows it. */
  function Compile(k: Kernel): Lowered<seq<Block>> {
    if IsVectorizablePhase1(k) then CompileSimd(k) else SK.CompileScalar(k)
  }

  predicate LaneKernel(k: Kernel) { IsVectorizablePhase1(k) && SK.KernelTyped(k) }

  /** What element `i` comes to: the first `lanes` elements go through the vector loop. */
  function ValueAt(m: Fpu, e: Expr, inp: seq<Val>, i: nat, lanes: nat): Option<Val>
    requires i < |inp|
  {
    if i < lanes then LaneEval(m, e, inp[i]) else Eval(m, e, inp[i], map[])
  }

  /** All elements from `i` on; none if one of them traps. */
  function MapEval(m: Fpu, e: Expr, inp: seq<Val>, i: nat, lanes: nat): Option<seq<Val>>
    requires i <= |inp|
    decreases |inp| - i
  {
    if i == |inp| then Some([])
    else
      var v :- ValueAt(m, e, inp, i, lanes);
      var rest :- MapEval(m, e, inp, i + 1, lanes);
      Some([v] + rest)
  }

  lemma LaneValue(k: Kernel)
    requires LaneKernel(k)
    ensures Value(k.body[0].result, k.outputDtype, k.inputDtype)
    ensures ExprType(k.body[0].result, map[], k.inputDtype) == Some(k.outputDtype)
  {
    assert StmtTypes(k.body[0], map[], k.inputDtype, k.outputDtype, false).Some?;
  }

  /** The code of a vectorised kernel, block by block. */
  lemma SimdBlocks(k: Kernel, p: Program, x: Val) returns (v: Code, s: Code)
    requires LaneKernel(k) && HasType(x, k.inputDtype)
    ensures SimdCode(k.inputDtype, VEC_PARAM, k.body[0].result, k.outputDtype, VEC_PARAM + 1) == Ok(v) && v.next > VEC_PARAM
    ensures ExprCode(TailTarget(k, v.next + 2), map[], k.body[0].result, k.outputDtype, v.next + 6) == Ok(s) && s.next >= v.next + 6
    ensures v.res < v.next && s.res < s.next
    ensures CompileSimd(k).Ok?
    ensures var g := CompileSimd(k).value;
            && |g| == 7 && g[0] == Block(EntryCode, Some(Jump(VEC_HEADER))) && g[VEC_HEADER] == VecHeader()
            && g[VEC_BODY] == Block(VecLoad + v.instrs + VecStore(v), Some(Jump(VEC_HEADER)))
            && g[SCALAR_HEADER] == TailHeader(v.next + 2)
            && g[SCALAR_ENTRY] == Block(TailLoad(v.next + 4) + (s.instrs + [DefVar(RESULT_VAR, s.res)]), Some(Jump(SCALAR_EXIT)))
            && g[SCALAR_EXIT] == Block(TailExit(s.next), Some(Jump(SCALAR_HEADER)))
            && g[OUTER_EXIT] == Block([], Some(Ret))
  {
    hide SimdCode, ExprCode, ExprType, LaneEval, VecStore, TailExit, TailLoad, TailHeader, VecHeader, Value;
    var e := k.body[0].result;
    LaneValue(k);
    var r := Regs(map[VEC_PARAM := Pair(x, x).value], map[], []);
    ValueSim(p, k.inputDtype, VEC_PARAM, e, k.outputDtype, VEC_PARAM + 1, x, x, r);
    v := SimdCode(k.inputDtype, VEC_PARAM, e, k.outputDtype, VEC_PARAM + 1).value;
    var t, st := TailTarget(k, v.next + 2), TailStart(v);
    assert EC.TypesOf(map[]) == map[];
    LC.CodeAccepted(t, map[], e, k.outputDtype, v.next + 6);
    s := ExprCode(t, map[], e, k.outputDtype, v.next + 6).value;
    ReturnOnly(t, st, k.body, s);
    assert [] + TailExit(s.next) == TailExit(s.next);
  }

  /** A body that is a single `return` is straight-line code. */
  lemma ReturnOnly(t: Target, st: Build, ss: seq<Stmt>, s: Code)
    requires |ss| == 1 && ss[0].Return? && !st.terminated
    requires ExprCode(t, st.locals, ss[0].result, t.outT, st.nvals) == Ok(s)
    ensures LowerBody(t, st, ss) ==
            Ok(Leave(Emit(st, s.instrs + [DefVar(RESULT_VAR, s.res)], s.next), t.exit))
  {
    hide ExprCode;
    assert LowerStmt(t, st, ss[0]) == Ok(Leave(Emit(st, s.instrs + [DefVar(RESULT_VAR, s.res)], s.next), t.exit));
  }

  // ----- running it -----

  /** A vectorised kernel about to run on input `p.inp`. */
  predicate Loaded(k: Kernel, p: Program) {
    && LaneKernel(k) && CompileSimd(k) == Ok(p.blocks) && |p.inp| < TWO_63
    && (forall x <- p.inp :: HasType(x, k.inputDtype))
  }

  function VecEnd(p: Program): nat { |p.inp| - |p.inp| % 2 }

  /** Either loop about to look at element `i`. */
  predicate Looping(k: Kernel, p: Program, i: nat, r: Regs) {
    && Loaded(k, p) && i <= |p.inp| == |r.out|
    && Lookup(r.vals, SK.LEN) == Some(IntV(|p.inp|)) && Lookup(r.vals, LANES) == Some(IntV(2))
    && Lookup(r.vals, VEC_END) == Some(IntV(VecEnd(p))) && Lookup(r.vals, ONE) == Some(IntV(1))
    && Lookup(r.vars, I_VAR) == Some(IntV(i))
  }

  /** What the code of a round leaves alone. */
  predicate Same(r: Regs, r1: Regs) {
    EC.Kept(r.vals, r1.vals, 8) && r1.out == r.out && Lookup(r1.vars, I_VAR) == Lookup(r.vars, I_VAR)
  }

  lemma SameLooping(k: Kernel, p: Program, i: nat, r: Regs, r1: Regs)
    requires Looping(k, p, i, r) && Same(r, r1)
    ensures Looping(k, p, i, r1)
  {
    hide CompileSimd;
  }

  /** A loop header: compares the counter with a bound below it. */
  lemma HeaderRuns(k: Kernel, p: Program, b: nat, n: nat, bound: nat, lim: nat, yes: nat, no: nat, i: nat, r: Regs)
    returns (m: nat, r1: Regs)
    requires Looping(k, p, i, r) && 8 <= n && bound < 8 && lim < TWO_63 && Lookup(r.vals, bound) == Some(IntV(lim))
    requires b < |p.blocks| && p.blocks[b] == Block([UseVar(n, I_VAR), IcmpUlt(n + 1, n, bound)], Some(Brif(n + 1, yes, no)))
    ensures m > 0 && Steps(p, At(b, 0, r), m) == At(if i < lim then yes else no, 0, r1) && Same(r, r1)
  {
    hide Steps, Step, CompileSimd, Run;
    var q := r.(vals := r.vals[n := IntV(i)]);
    r1 := q.(vals := q.vals[n + 1 := FlagV(i < lim)]);
    LC.RunTwo(p, UseVar(n, I_VAR), IcmpUlt(n + 1, n, bound), r, q, r1);
    m := LC.BlockRuns(p, b, [UseVar(n, I_VAR), IcmpUlt(n + 1, n, bound)], Brif(n + 1, yes, no), r, r1);
    LC.JumpRuns(p, b, p.blocks[b], r1);
  }

  lemma RunThree(p: Program, a: seq<Instr>, b: seq<Instr>, c: seq<Instr>, r: Regs, r1: Regs)
    requires Run(p, a, r) == Some(r1)
    ensures Run(p, b, r1).None? ==> Run(p, a + b + c, r).None?
    ensures Run(p, b, r1).Some? ==> Run(p, a + b + c, r) == Run(p, c, Run(p, b, r1).value)
  {
    hide Run;
    RunConcat(p, a + b, c, r);
    RunConcat(p, a, b, r);
  }

  /** A body that traps does so between its load and what follows. */
  lemma BodyInside(p: Program, load: seq<Instr>, body: seq<Instr>, rest: seq<Instr>, r: Regs, r1: Regs)
    requires Run(p, load, r) == Some(r1) && NoAccess(body) && Run(p, body, r1).None?
    ensures Inside(p, load + body + rest, r)
  {
    hide Run, Inside, NoAccess;
    RunConcat(p, load, body, r);
    InsideConcat(p, load, body, r);
    InsideBefore(p, load + body, rest, r);
  }

  lemma VecLoadRuns(k: Kernel, p: Program, i: nat, r: Regs) returns (r1: Regs)
    requires Looping(k, p, i, r) && i + 1 < |p.inp|
    ensures Run(p, VecLoad, r) == Some(r1) && Same(r, r1)
    ensures Holding(k.inputDtype, VEC_PARAM, VEC_PARAM + 1, p.inp[i], p.inp[i + 1], r1)
  {
    hide Run, CompileSimd;
    assert HasType(p.inp[i], k.inputDtype) && HasType(p.inp[i + 1], k.inputDtype);
    var q := r.(vals := r.vals[10 := IntV(i)]);
    r1 := q.(vals := q.vals[VEC_PARAM := Pair(p.inp[i], p.inp[i + 1]).value]);
    LC.RunTwo(p, UseVar(10, I_VAR), LoadX2(VEC_PARAM, 10), r, q, r1);
  }

  lemma VecStoreRuns(k: Kernel, p: Program, c: Code, i: nat, u: Val, v: Val, r: Regs) returns (r1: Regs)
    requires Looping(k, p, i, r) && i + 1 < |p.inp| && c.next >= 8 && c.res < c.next
    requires Pair(u, v).Some? && Lookup(r.vals, c.res) == Pair(u, v)
    ensures Run(p, VecStore(c), r) == Some(r1) && Looping(k, p, i + 2, r1) && r1.out == r.out[i := u][i + 1 := v]
  {
    hide Run, CompileSimd;
    var n := c.next;
    var q1 := r.(vals := r.vals[n := IntV(i)]);
    var q2 := q1.(out := q1.out[i := u][i + 1 := v]);
    WrapInRange(i + 2);
    var q3 := q2.(vals := q2.vals[n + 1 := IntV(i + 2)]);
    r1 := q3.(vars := q3.vars[I_VAR := IntV(i + 2)]);
    LC.RunTwo(p, UseVar(n, I_VAR), StoreAt(n, c.res), r, q1, q2);
    LC.RunTwo(p, IntBin(n + 1, Iadd, n, LANES), DefVar(I_VAR, n + 1), q2, q3, r1);
    RunConcat(p, [UseVar(n, I_VAR), StoreAt(n, c.res)], [IntBin(n + 1, Iadd, n, LANES), DefVar(I_VAR, n + 1)], r);
    assert VecStore(c) == [UseVar(n, I_VAR), StoreAt(n, c.res)] + [IntBin(n + 1, Iadd, n, LANES), DefVar(I_VAR, n + 1)];
  }

  /** A round of the vector loop: two elements, or a fault if either traps. */
  lemma VecRound(k: Kernel, p: Program, i: nat, r: Regs) returns (n: nat, r1: Regs)
    requires Looping(k, p, i, r) && i + 1 < |p.inp| && i < VecEnd(p)
    ensures n > 0
    ensures var u, v := LaneEval(p.fpu, k.body[0].result, p.inp[i]), LaneEval(p.fpu, k.body[0].result, p.inp[i + 1]);
            if u.None? || v.None? then Steps(p, At(VEC_HEADER, 0, r), n) == Fault
            else Steps(p, At(VEC_HEADER, 0, r), n) == At(VEC_HEADER, 0, r1)
                 && Looping(k, p, i + 2, r1) && r1.out == r.out[i := u.value][i + 1 := v.value]
  {
    hide Steps, Step, CompileSimd, Run, Looping, SimdCode, LaneEval, VecStore, Holding, Value, EntryCode, Inside, NoAccess;
    ParamsTyped(k, p, i, r);
    var e := k.body[0].result;
    var c, _ := SimdBlocks(k, p, p.inp[i]);
    LaneValue(k);
    var m, q := HeaderRuns(k, p, VEC_HEADER, 8, VEC_END, VecEnd(p), VEC_BODY, SCALAR_HEADER, i, r);
    SameLooping(k, p, i, r, q);
    var q1 := VecLoadRuns(k, p, i, q);
    SameLooping(k, p, i, q, q1);
    ValueSim(p, k.inputDtype, VEC_PARAM, e, k.outputDtype, VEC_PARAM + 1, p.inp[i], p.inp[i + 1], q1);
    LanesTyped(p.fpu, e, k.outputDtype, k.inputDtype, p.inp[i], p.inp[i + 1]);
    RunThree(p, VecLoad, c.instrs, VecStore(c), q, q1);
    var u, v := LaneEval(p.fpu, e, p.inp[i]), LaneEval(p.fpu, e, p.inp[i + 1]);
    var code := VecLoad + c.instrs + VecStore(c);
    r1 := q1;
    if u.Some? && v.Some? {
      var q2 := Run(p, c.instrs, q1).value;
      KeptSame(q1, q2, VEC_PARAM + 1);
      SameLooping(k, p, i, q1, q2);
      r1 := VecStoreRuns(k, p, c, i, u.value, v.value, q2);
      var m1 := LC.BlockRuns(p, VEC_BODY, code, Jump(VEC_HEADER), q, r1);
      LC.JumpRuns(p, VEC_BODY, p.blocks[VEC_BODY], r1);
      StepsAdd(p, At(VEC_HEADER, 0, r), m, m1);
      n := m + m1;
    } else {
      SimdNoAccess(k.inputDtype, VEC_PARAM, e, k.outputDtype, VEC_PARAM + 1);
      BodyInside(p, VecLoad, c.instrs, VecStore(c), q, q1);
      var m1 := BlockFaults(p, VEC_BODY, code, q);
      StepsAdd(p, At(VEC_HEADER, 0, r), m, m1);
      n := m + m1;
    }
  }

  lemma ParamsTyped(k: Kernel, p: Program, i: nat, r: Regs)
    requires Looping(k, p, i, r)
    ensures Loaded(k, p) && i <= |p.inp| == |r.out| && (i < |p.inp| ==> HasType(p.inp[i], k.inputDtype))
    ensures i + 1 < |p.inp| ==> HasType(p.inp[i + 1], k.inputDtype)
    ensures Lookup(r.vals, SK.LEN) == Some(IntV(|p.inp|)) && Lookup(r.vals, VEC_END) == Some(IntV(VecEnd(p)))
  {
    hide CompileSimd;
  }

  lemma KeptSame(r: Regs, r1: Regs, n: nat)
    requires EC.Kept(r.vals, r1.vals, n) && n >= 8 && r1.vars == r.vars && r1.out == r.out
    ensures Same(r, r1)
  {
  }

  lemma BlockFaults(p: Program, b: nat, code: seq<Instr>, r: Regs) returns (n: nat)
    requires b < |p.blocks| && p.blocks[b].instrs == code && Run(p, code, r).None? && Inside(p, code, r)
    ensures Steps(p, At(b, 0, r), n) == Fault
  {
    assert p.blocks[b].instrs[0..0 + |code|] == code;
    n := RunSteps(p, b, 0, code, r);
  }

  lemma TailLoadRuns(k: Kernel, p: Program, n: nat, i: nat, r: Regs) returns (r1: Regs)
    requires Looping(k, p, i, r) && i < |p.inp| && n >= 8
    ensures Run(p, TailLoad(n), r) == Some(r1) && Same(r, r1) && Lookup(r1.vals, n + 1) == Some(p.inp[i])
  {
    hide Run, CompileSimd;
    var q := r.(vals := r.vals[n := IntV(i)]);
    r1 := q.(vals := q.vals[n + 1 := p.inp[i]]);
    LC.RunTwo(p, UseVar(n, I_VAR), Load(n + 1, n), r, q, r1);
  }

  /** The exit block of the scalar loop stores the result and advances. */
  lemma TailExitRuns(k: Kernel, p: Program, n: nat, i: nat, v: Val, r: Regs) returns (r1: Regs)
    requires Looping(k, p, i, r) && i < |p.inp| && n >= 8 && (v.IntV? || v.FltV?) && Lookup(r.vars, RESULT_VAR) == Some(v)
    ensures Run(p, TailExit(n), r) == Some(r1) && Looping(k, p, i + 1, r1) && r1.out == r.out[i := v]
  {
    r1 := TailExited(n, i, v, r);
    TailLoops(k, p, n, i, v, r);
    TailCodeRuns(p, n, i, v, r);
  }

  /** What the exit of a left-over element leaves in registers and memory. */
  function TailExited(n: nat, i: nat, v: Val, r: Regs): Regs
    requires i < |r.out| && i + 1 < TWO_63
  {
    Regs(r.vals[n := v][n + 1 := IntV(i)][n + 2 := IntV(i + 1)], r.vars[I_VAR := IntV(i + 1)], r.out[i := v])
  }

  lemma TailLoops(k: Kernel, p: Program, n: nat, i: nat, v: Val, r: Regs)
    requires Looping(k, p, i, r) && i < |p.inp| && n >= 8
    ensures i < |r.out| && i + 1 < TWO_63 && Looping(k, p, i + 1, TailExited(n, i, v, r))
    ensures Lookup(r.vals, ONE) == Some(IntV(1)) && Lookup(r.vars, I_VAR) == Some(IntV(i))
  {
    hide CompileSimd;
  }

  lemma TailCodeRuns(p: Program, n: nat, i: nat, v: Val, r: Regs)
    requires i < |r.out| && i + 1 < TWO_63 && n >= 8 && (v.IntV? || v.FltV?) && Lookup(r.vars, RESULT_VAR) == Some(v)
    requires Lookup(r.vals, ONE) == Some(IntV(1)) && Lookup(r.vars, I_VAR) == Some(IntV(i))
    ensures Run(p, TailExit(n), r) == Some(TailExited(n, i, v, r))
  {
    hide Run;
    var q1 := r.(vals := r.vals[n := v]);
    var q2 := q1.(vals := q1.vals[n + 1 := IntV(i)]);
    var q3 := q2.(out := q2.out[i := v]);
    WrapInRange(i + 1);
    var q4 := q3.(vals := q3.vals[n + 2 := IntV(i + 1)]);
    var a, b := [UseVar(n, RESULT_VAR), UseVar(n + 1, I_VAR)], [StoreAt(n + 1, n), IntBin(n + 2, Iadd, n + 1, ONE)];
    LC.RunTwo(p, a[0], a[1], r, q1, q2);
    LC.RunTwo(p, b[0], b[1], q2, q3, q4);
    RunConcat(p, a, b, r);
    EC.RunSnoc(p, a + b, DefVar(I_VAR, n + 2), r);
    assert TailExit(n) == a + b + [DefVar(I_VAR, n + 2)];
  }

  /** A round of the scalar loop. */
  lemma TailRound(k: Kernel, p: Program, i: nat, r: Regs) returns (n: nat, r1: Regs)
    requires Looping(k, p, i, r) && i < |p.inp|
    ensures var u := Eval(p.fpu, k.body[0].result, p.inp[i], map[]);
            match u
            case None => Steps(p, At(SCALAR_HEADER, 0, r), n) == Fault
            case Some(v) => Steps(p, At(SCALAR_HEADER, 0, r), n) == At(SCALAR_HEADER, 0, r1)
                            && Looping(k, p, i + 1, r1) && r1.out == r.out[i := v]
  {
    hide Steps, Step, CompileSimd, Run, Looping, ExprCode, Eval, TailExit, TailLoad, Value, EntryCode, ExprType, EC.Yields, NoAccess;
    ParamsTyped(k, p, i, r);
    var e := k.body[0].result;
    var c, s := SimdBlocks(k, p, p.inp[i]);
    LaneValue(k);
    var t := TailTarget(k, c.next + 2);
    var m, q := HeaderRuns(k, p, SCALAR_HEADER, c.next + 2, SK.LEN, |p.inp|, SCALAR_ENTRY, OUTER_EXIT, i, r);
    SameLooping(k, p, i, r, q);
    var q1 := TailLoadRuns(k, p, c.next + 4, i, q);
    SameLooping(k, p, i, q, q1);
    assert EC.TypesOf(map[]) == map[];
    EC.ExprSim(p, t, map[], e, k.outputDtype, c.next + 6, p.inp[i], map[], q1);
    var u := Eval(p.fpu, e, p.inp[i], map[]);
    EC.EvalTyped(p.fpu, e, p.inp[i], map[], map[], k.inputDtype);
    EC.ExprNoAccess(t, map[], e, k.outputDtype, c.next + 6);
    var m1, q2 := TailBodyRuns(k, p, TailLoad(c.next + 4), s, u, c.next + 6, q, q1);
    StepsAdd(p, At(SCALAR_HEADER, 0, r), m, m1);
    n := m + m1;
    r1 := q2;
    if u.Some? {
      SameLooping(k, p, i, q1, q2);
      var q3 := TailExitRuns(k, p, s.next, i, u.value, q2);
      var m2 := LC.BlockRuns(p, SCALAR_EXIT, TailExit(s.next), Jump(SCALAR_HEADER), q2, q3);
      LC.JumpRuns(p, SCALAR_EXIT, p.blocks[SCALAR_EXIT], q3);
      StepsAdd(p, At(SCALAR_HEADER, 0, r), n, m2);
      n := n + m2;
      r1 := q3;
    }
  }

  /** The block of the scalar body: load, evaluate, keep the result. */
  lemma TailBodyRuns(k: Kernel, p: Program, load: seq<Instr>, s: Code, u: Option<Val>, n: nat, q: Regs, q1: Regs)
    returns (m: nat, q2: Regs)
    requires Run(p, load, q) == Some(q1) && EC.Yields(p, s, q1, n, u) && n >= 8
    requires SCALAR_ENTRY < |p.blocks| && NoAccess(s.instrs)
    requires p.blocks[SCALAR_ENTRY] == Block(load + (s.instrs + [DefVar(RESULT_VAR, s.res)]), Some(Jump(SCALAR_EXIT)))
    ensures u.None? ==> Steps(p, At(SCALAR_ENTRY, 0, q), m) == Fault
    ensures u.Some? ==> Steps(p, At(SCALAR_ENTRY, 0, q), m) == At(SCALAR_EXIT, 0, q2)
                        && Same(q1, q2) && Lookup(q2.vars, RESULT_VAR) == u
  {
    hide Steps, Step, Run, ExecInstr, Inside, NoAccess;
    var d := DefVar(RESULT_VAR, s.res);
    var code := load + (s.instrs + [d]);
    RunConcat(p, load, s.instrs + [d], q);
    EC.RunSnoc(p, s.instrs, d, q1);
    q2 := q1;
    if u.Some? {
      var w := Run(p, s.instrs, q1).value;
      LC.DefVarExec(p, RESULT_VAR, s.res, u.value, w);
      q2 := w.(vars := w.vars[RESULT_VAR := u.value]);
      m := LC.BlockRuns(p, SCALAR_ENTRY, code, Jump(SCALAR_EXIT), q, q2);
      LC.JumpRuns(p, SCALAR_ENTRY, p.blocks[SCALAR_ENTRY], q2);
    } else {
      BodyInside(p, load, s.instrs, [d], q, q1);
      assert load + s.instrs + [d] == code;
      m := BlockFaults(p, SCALAR_ENTRY, code, q);
    }
  }

  predicate Arrived(end: Config, out: seq<Val>, i: nat, o: Option<seq<Val>>)
    requires i <= |out|
  {
    end == match o case None => Fault case Some(rest) => Done(out[..i] + rest)
  }

  lemma OneMore(out: seq<Val>, i: nat, v: Val, rest: seq<Val>)
    requires i < |out|
    ensures out[i := v][..i + 1] + rest == out[..i] + ([v] + rest)
  {
    assert out[i := v][..i + 1] == out[..i] + [v];
  }

  /** The scalar loop from element `i` to the end. */
  lemma {:induction false} TailSim(k: Kernel, p: Program, i: nat, r: Regs) returns (n: nat)
    requires Looping(k, p, i, r) && VecEnd(p) <= i
    ensures i <= |p.inp| == |r.out|
    ensures Arrived(Steps(p, At(SCALAR_HEADER, 0, r), n), r.out, i, MapEval(p.fpu, k.body[0].result, p.inp, i, VecEnd(p)))
    decreases |p.inp| - i
  {
    hide Steps, Step, CompileSimd, Looping, Eval;
    ParamsTyped(k, p, i, r);
    var start := At(SCALAR_HEADER, 0, r);
    if i == |p.inp| {
      var x := if k.inputDtype == I64 then IntV(0) else FltV(0);
      var c, _ := SimdBlocks(k, p, x);
      var m, q := HeaderRuns(k, p, SCALAR_HEADER, c.next + 2, SK.LEN, |p.inp|, SCALAR_ENTRY, OUTER_EXIT, i, r);
      LC.JumpRuns(p, OUTER_EXIT, Block([], Some(Ret)), q);
      LC.StepsOne(p, start, m);
      n := m + 1;
      assert r.out[..i] + [] == r.out;
    } else {
      var m, q := TailRound(k, p, i, r);
      n := m;
      var u := Eval(p.fpu, k.body[0].result, p.inp[i], map[]);
      if u.Some? {
        var m1 := TailSim(k, p, i + 1, q);
        StepsAdd(p, start, m, m1);
        n := m + m1;
        var rest := MapEval(p.fpu, k.body[0].result, p.inp, i + 1, VecEnd(p));
        if rest.Some? {
          OneMore(r.out, i, u.value, rest.value);
        }
      }
    }
  }

  /** The vector loop from element `i`, and then the scalar loop. */
  lemma {:induction false} VecSim(k: Kernel, p: Program, i: nat, r: Regs) returns (n: nat)
    requires Looping(k, p, i, r) && i % 2 == 0 && i <= VecEnd(p)
    ensures i <= |p.inp| == |r.out|
    ensures Arrived(Steps(p, At(VEC_HEADER, 0, r), n), r.out, i, MapEval(p.fpu, k.body[0].result, p.inp, i, VecEnd(p)))
    decreases |p.inp| - i
  {
    hide Steps, Step, CompileSimd, Looping, Eval, LaneEval;
    ParamsTyped(k, p, i, r);
    var start := At(VEC_HEADER, 0, r);
    if i == VecEnd(p) {
      var x := if k.inputDtype == I64 then IntV(0) else FltV(0);
      var c, _ := SimdBlocks(k, p, x);
      var m, q := HeaderRuns(k, p, VEC_HEADER, 8, VEC_END, VecEnd(p), VEC_BODY, SCALAR_HEADER, i, r);
      SameLooping(k, p, i, r, q);
      var m1 := TailSim(k, p, i, q);
      StepsAdd(p, start, m, m1);
      n := m + m1;
    } else {
      var m, q := VecRound(k, p, i, r);
      n := m;
      var u := LaneEval(p.fpu, k.body[0].result, p.inp[i]);
      var v := LaneEval(p.fpu, k.body[0].result, p.inp[i + 1]);
      if u.Some? && v.Some? {
        var m1 := VecSim(k, p, i + 2, q);
        StepsAdd(p, start, m, m1);
        n := m + m1;
        var rest := MapEval(p.fpu, k.body[0].result, p.inp, i + 2, VecEnd(p));
        assert ValueAt(p.fpu, k.body[0].result, p.inp, i + 1, VecEnd(p)) == v;
        if rest.Some? {
          OneMore(r.out[i := u.value], i + 1, v.value, rest.value);
          OneMore(r.out, i, u.value, [v.value] + rest.value);
        }
      }
    }
  }

  /** Called on any buffers, the vector code returns what its lanes and its tail compute, or faults if one of them
      traps. */
  lemma CallSim(k: Kernel, p: Program, vars: map<nat, Val>, out: seq<Val>) returns (n: nat)
    requires Loaded(k, p) && |out| == |p.inp|
    ensures Arrived(Steps(p, SK.Call(p, vars, out), n), out, 0, MapEval(p.fpu, k.body[0].result, p.inp, 0, VecEnd(p)))
  {
    hide Steps, Step, CompileSimd, Run, EntryCode, MapEval;
    var x := if k.inputDtype == I64 then IntV(0) else FltV(0);
    var c, _ := SimdBlocks(k, p, x);
    var r := SK.Call(p, vars, out).r;
    var r1 := EntryRuns(k, p, r);
    var m := LC.BlockRuns(p, 0, EntryCode, Jump(VEC_HEADER), r, r1);
    LC.JumpRuns(p, 0, p.blocks[0], r1);
    var m1 := VecSim(k, p, 0, r1);
    StepsAdd(p, SK.Call(p, vars, out), m, m1);
    n := m + m1;
  }

  lemma EntryRuns(k: Kernel, p: Program, r: Regs) returns (r1: Regs)
    requires Loaded(k, p) && |r.out| == |p.inp| && Lookup(r.vals, SK.LEN) == Some(IntV(|p.inp|))
    ensures Run(p, EntryCode, r) == Some(r1) && Looping(k, p, 0, r1) && r1.out == r.out
  {
    hide Run, CompileSimd;
    r1 := Entered(|p.inp|, r);
    EntryCodeRuns(p, |p.inp|, r);
  }

  /** The constants of both loops, in their registers. */
  function Entered(len: nat, r: Regs): Regs
    requires len < TWO_63
  {
    Regs(r.vals[3 := IntV(0)][LANES := IntV(2)][5 := IntV(len % 2)][VEC_END := IntV(len - len % 2)][ONE := IntV(1)],
         r.vars[I_VAR := IntV(0)], r.out)
  }

  lemma EntryCodeRuns(p: Program, len: nat, r: Regs)
    requires len < TWO_63 && Lookup(r.vals, SK.LEN) == Some(IntV(len))
    ensures Run(p, EntryCode, r) == Some(Entered(len, r))
  {
    hide Run;
    var q1 := r.(vals := r.vals[3 := IntV(0)]);
    var q2 := q1.(vars := q1.vars[I_VAR := IntV(0)]);
    var q3 := q2.(vals := q2.vals[LANES := IntV(2)]);
    WrapInRange(len % 2);
    WrapInRange(len - len % 2);
    var q4 := q3.(vals := q3.vals[5 := IntV(len % 2)]);
    var q5 := q4.(vals := q4.vals[VEC_END := IntV(len - len % 2)]);
    var a, b := [Iconst(3, 0), DefVar(I_VAR, 3)], [Iconst(LANES, 2), Urem(5, SK.LEN, LANES)];
    var d := [IntBin(VEC_END, Isub, SK.LEN, 5), Iconst(ONE, 1)];
    LC.RunTwo(p, a[0], a[1], r, q1, q2);
    LC.RunTwo(p, b[0], b[1], q2, q3, q4);
    LC.RunTwo(p, d[0], d[1], q4, q5, Entered(len, r));
    RunThree(p, a, b, d, r, q2);
    assert EntryCode == a + b + d;
  }

  // ----- vector code and scalar code -----

  function Outcome(o: Option<seq<Val>>): Config { if o.Some? then Done(o.value) else Fault }

  /** For every vectorised kernel, whatever its conditions: the code ends with what its lanes compute for whole pairs
      and the scalar tail for what is left, or faults if one of them traps. */
  lemma VectorEnds(k: Kernel, p: Program, vars: map<nat, Val>, out: seq<Val>, end: Config)
    requires Loaded(k, p) && |out| == |p.inp| && Final(end)
    ensures SK.EndsIn(p, vars, out, end) <==> end == Outcome(MapEval(p.fpu, k.body[0].result, p.inp, 0, VecEnd(p)))
  {
    hide Steps, CompileSimd, SK.KernelTyped, SK.Call, MapEval;
    var start := SK.Call(p, vars, out);
    var m := CallSim(k, p, vars, out);
    assert out[..0] == [];
    assert Steps(p, start, m) == Outcome(MapEval(p.fpu, k.body[0].result, p.inp, 0, VecEnd(p)));
    if n :| Steps(p, start, n) == end {
      if n <= m { RunsAgree(p, start, n, m); } else { RunsAgree(p, start, m, n); }
    }
  }

  /** On a kernel that only returns an expression, the structured semantics is a map of evaluation. */
  lemma {:induction false} ReturnRuns(m: Fpu, fuel: nat, k: Kernel, inp: seq<Val>, i: nat, s: Store)
    requires |k.body| == 1 && k.body[0].Return? && i <= |inp| && MK.Reads(k.body[0].result) == {}
    ensures SK.RunKernel(m, fuel, k, inp, i, s) ==
            match MapEval(m, k.body[0].result, inp, i, 0)
            case Some(o) => SK.Finished(o)
            case None => SK.KTrapped
    decreases |inp| - i
  {
    hide Eval;
    if i < |inp| {
      var e := k.body[0].result;
      MK.EvalAgrees(m, e, inp[i], s, map[], {});
      assert ExecStmt(m, fuel, k.body[0], inp[i], s) ==
             match Eval(m, e, inp[i], s) case None => Trapped case Some(v) => Returned(v, s);
      ReturnRuns(m, fuel, k, inp, i + 1, s);
    }
  }

  lemma {:induction false} PureReadsNothing(e: Expr)
    requires IsPureSimdExpr(e)
    ensures MK.Reads(e) == {}
  {
    match e
    case Unary(_, a) => PureReadsNothing(a);
    case Binary(_, l, r) => PureReadsNothing(l); PureReadsNothing(r);
    case Compare(_, l, r) => PureReadsNothing(l); PureReadsNothing(r);
    case IfExpr(t, y, n) => PureReadsNothing(t); PureReadsNothing(y); PureReadsNothing(n);
    case CastToI64(a) => PureReadsNothing(a);
    case CastToF64(a) => PureReadsNothing(a);
    case _ =>
  }

  /** What a vectorisable kernel means. */
  lemma MeaningEnds(m: Fpu, k: Kernel, inp: seq<Val>, s: Store, end: Config)
    requires IsVectorizablePhase1(k)
    ensures (exists fuel :: SK.Ends(SK.RunKernel(m, fuel, k, inp, 0, s), end)) <==>
            end == Outcome(MapEval(m, k.body[0].result, inp, 0, 0))
  {
    hide SK.RunKernel, MapEval;
    PureReadsNothing(k.body[0].result);
    ReturnRuns(m, 0, k, inp, 0, s);
    assert SK.Ends(SK.RunKernel(m, 0, k, inp, 0, s), Outcome(MapEval(m, k.body[0].result, inp, 0, 0)));
    if fuel :| SK.Ends(SK.RunKernel(m, fuel, k, inp, 0, s), end) {
      ReturnRuns(m, fuel, k, inp, 0, s);
    }
  }

  /** The scalar code of a vectorisable kernel. */
  lemma ScalarEnds(k: Kernel, q: Program, s: Store, vars: map<nat, Val>, out: seq<Val>, end: Config)
    requires SK.Loaded(k, q) && IsVectorizablePhase1(k) && |out| == |q.inp| && EC.Holds(SK.KernelLocals(k), s, vars) && Final(end)
    ensures SK.EndsIn(q, vars, out, end) <==> end == Outcome(MapEval(q.fpu, k.body[0].result, q.inp, 0, 0))
  {
    hide Steps, SK.CompileScalar, SK.RunKernel, EC.Holds, SK.KernelLocals, SK.KernelTyped, SK.Call, MapEval;
    SK.CompiledAgrees(k, q, s, vars, out, end);
    MeaningEnds(q.fpu, k, q.inp, s, end);
  }

  // ----- when they agree -----

  /** On this input a lane of the kernel's code computes what the kernel means. */
  predicate LaneMeans(m: Fpu, k: Kernel, x: Val)
    requires IsVectorizablePhase1(k)
  {
    LaneEval(m, k.body[0].result, x) == Eval(m, k.body[0].result, x, map[])
  }

  /** It does where booleans are no values and integers under test are masks; so it does everywhere where nothing but
      comparisons and booleans is tested. */
  lemma MasksMean(m: Fpu, k: Kernel, x: Val)
    requires LaneKernel(k) && HasType(x, k.inputDtype)
    ensures MasksOn(m, k.body[0].result, x) || MasksOnly(k.body[0].result) ==> LaneMeans(m, k, x)
  {
    hide Eval, LaneEval, Value;
    LaneValue(k);
    var e := k.body[0].result;
    if MasksOnly(e) {
      MasksOnlyOn(m, e, x);
    }
    if MasksOn(m, e, x) {
      MasksAgree(m, e, k.outputDtype, k.inputDtype, x);
    }
  }

  lemma {:induction false} SameMap(m: Fpu, k: Kernel, inp: seq<Val>, i: nat, lanes: nat)
    requires IsVectorizablePhase1(k) && i <= |inp| && forall x <- inp :: LaneMeans(m, k, x)
    ensures MapEval(m, k.body[0].result, inp, i, lanes) == MapEval(m, k.body[0].result, inp, i, 0)
    decreases |inp| - i
  {
    hide Eval, LaneEval;
    if i < |inp| {
      assert LaneMeans(m, k, inp[i]);
      SameMap(m, k, inp, i + 1, lanes);
    }
  }

  /** On inputs on which its lanes mean what the kernel means, the vector loop with its scalar tail does, for every
      length, what the scalar loop does: the same output, or a fault in both. */
  lemma VectorRefinesScalar(k: Kernel, p: Program, q: Program, s: Store, vars: map<nat, Val>, out: seq<Val>, end: Config)
    requires Loaded(k, p) && SK.Loaded(k, q) && q.fpu == p.fpu && q.inp == p.inp && forall x <- p.inp :: LaneMeans(p.fpu, k, x)
    requires |out| == |p.inp| && EC.Holds(SK.KernelLocals(k), s, vars) && Final(end)
    ensures SK.EndsIn(p, vars, out, end) <==> SK.EndsIn(q, vars, out, end)
  {
    hide CompileSimd, SK.CompileScalar, EC.Holds, SK.KernelLocals, SK.KernelTyped, MapEval, SK.EndsIn, LaneMeans;
    VectorEnds(k, p, vars, out, end);
    SameMap(p.fpu, k, p.inp, 0, VecEnd(p));
    ScalarEnds(k, q, s, vars, out, end);
  }

  predicate Typed(k: Kernel, inp: seq<Val>) { |inp| < TWO_63 && forall x <- inp :: HasType(x, k.inputDtype) }

  /** On `inp` the two programs end alike. */
  ghost predicate EndAlike(p: Program, q: Program, inp: seq<Val>, vars: map<nat, Val>)
    requires |inp| < TWO_63
  {
    forall end, out | Final(end) && |out| == |inp| ::
      SK.EndsIn(p.(inp := inp), vars, out, end) <==> SK.EndsIn(q.(inp := inp), vars, out, end)
  }

  /** Vector code and scalar code end alike on all inputs exactly if a lane computes the kernel's meaning for every
      single element. */
  lemma AlikeIffLanesMean(k: Kernel, p: Program, q: Program, s: Store, vars: map<nat, Val>)
    requires LaneKernel(k) && CompileSimd(k) == Ok(p.blocks) && SK.CompileScalar(k) == Ok(q.blocks) && q.fpu == p.fpu
    requires EC.Holds(SK.KernelLocals(k), s, vars)
    ensures (forall inp | Typed(k, inp) :: EndAlike(p, q, inp, vars)) <==>
            forall x | HasType(x, k.inputDtype) :: LaneMeans(p.fpu, k, x)
  {
    hide CompileSimd, SK.CompileScalar, EC.Holds, SK.KernelLocals, SK.KernelTyped, MapEval, SK.EndsIn, LaneMeans;
    if forall x | HasType(x, k.inputDtype) :: LaneMeans(p.fpu, k, x) {
      forall inp, end, out | Typed(k, inp) && Final(end) && |out| == |inp|
        ensures SK.EndsIn(p.(inp := inp), vars, out, end) <==> SK.EndsIn(q.(inp := inp), vars, out, end)
      {
        VectorRefinesScalar(k, p.(inp := inp), q.(inp := inp), s, vars, out, end);
      }
    }
    if forall inp | Typed(k, inp) :: EndAlike(p, q, inp, vars) {
      forall x | HasType(x, k.inputDtype) ensures LaneMeans(p.fpu, k, x) {
        assert Typed(k, [x, x]) && EndAlike(p, q, [x, x], vars);
        PairAlike(k, p.(inp := [x, x]), q.(inp := [x, x]), s, vars, x);
      }
    }
  }

  /** Two equal elements show whether lanes mean what they should. */
  lemma PairAlike(k: Kernel, p: Program, q: Program, s: Store, vars: map<nat, Val>, x: Val)
    requires Loaded(k, p) && SK.Loaded(k, q) && q.fpu == p.fpu && p.inp == q.inp == [x, x]
    requires EC.Holds(SK.KernelLocals(k), s, vars)
    requires forall end, out | Final(end) && |out| == 2 :: SK.EndsIn(p, vars, out, end) <==> SK.EndsIn(q, vars, out, end)
    ensures LaneMeans(p.fpu, k, x)
  {
    hide CompileSimd, SK.CompileScalar, EC.Holds, SK.KernelLocals, SK.KernelTyped, MapEval, SK.EndsIn, Eval, LaneEval;
    var e := k.body[0].result;
    var end := Outcome(MapEval(p.fpu, e, p.inp, 0, 2));
    VectorEnds(k, p, vars, p.inp, end);
    ScalarEnds(k, q, s, vars, p.inp, end);
    PairMap(p.fpu, e, x, 2);
    PairMap(p.fpu, e, x, 0);
  }

  lemma PairMap(m: Fpu, e: Expr, x: Val, lanes: nat)
    requires lanes == 0 || lanes == 2
    ensures var v := if lanes == 2 then LaneEval(m, e, x) else Eval(m, e, x, map[]);
            MapEval(m, e, [x, x], 0, lanes) == if v.Some? then Some([v.value, v.value]) else None
  {
    hide Eval, LaneEval;
    var v := if lanes == 2 then LaneEval(m, e, x) else Eval(m, e, x, map[]);
    var inp := [x, x];
    assert ValueAt(m, e, inp, 0, lanes) == ValueAt(m, e, inp, 1, lanes) == v;
    assert MapEval(m, e, inp, 2, lanes) == Some([]);
    assert MapEval(m, e, inp, 1, lanes) == if v.Some? then Some([v.value] + []) else None;
    if v.Some? {
      assert [v.value] + [] == [v.value];
      assert MapEval(m, e, inp, 0, lanes) == Some([v.value] + [v.value]) && [v.value] + [v.value] == [v.value, v.value];
    }
  }

  /** The code that is chosen computes the kernel's meaning for each of these elements. */
  predicate LanesMean(k: Kernel, p: Program) { IsVectorizablePhase1(k) ==> forall x <- p.inp :: LaneMeans(p.fpu, k, x) }

  /** Whichever code `compile` chooses, a kernel in which every local is assigned before it is read, and whose lanes
      mean what they should if it is vectorised, is a map over its input. */
  lemma CompiledKernelIsMap(k: Kernel, p: Program, s: Store, vars: map<nat, Val>, out: seq<Val>, o: seq<Val>)
    requires SK.KernelTyped(k) && MK.DefinitelyAssigned(k) && LanesMean(k, p)
    requires Compile(k) == Ok(p.blocks) && Typed(k, p.inp)
    requires |out| == |p.inp| && EC.Holds(SK.KernelLocals(k), s, vars)
    ensures SK.EndsIn(p, vars, out, Done(o)) <==>
            (|o| == |p.inp| && forall i | 0 <= i < |p.inp| :: MK.Computes(p.fpu, k, p.inp[i], o[i]))
  {
    hide Steps, CompileSimd, SK.CompileScalar, SK.RunKernel, EC.Holds, SK.KernelLocals, SK.KernelTyped, SK.Call, MK.Computes, LaneMeans, MapEval;
    if IsVectorizablePhase1(k) {
      VectorEnds(k, p, vars, out, Done(o));
      SameMap(p.fpu, k, p.inp, 0, VecEnd(p));
      MeaningEnds(p.fpu, k, p.inp, s, Done(o));
      MK.RunsAreMaps(p.fpu, k, p.inp, s, o);
    } else {
      MK.CompiledIsMap(k, p, s, vars, out, o);
    }
  }

  /** No run of a compiled kernel, whether it returns, traps or runs on, reads or writes outside its buffers. */
  lemma NeverStrays(k: Kernel, p: Program, s: Store, vars: map<nat, Val>, out: seq<Val>, n: nat)
    requires SK.KernelTyped(k) && Compile(k) == Ok(p.blocks) && Typed(k, p.inp)
    requires |out| == |p.inp| && EC.Holds(SK.KernelLocals(k), s, vars)
    ensures Steps(p, SK.Call(p, vars, out), n) != Stray
  {
    hide Steps, CompileSimd, SK.CompileScalar, SK.RunKernel, EC.Holds, SK.KernelLocals, SK.KernelTyped, SK.Call, MapEval;
    if IsVectorizablePhase1(k) {
      VectorEnds(k, p, vars, out, Stray);
    } else {
      SK.CompiledAgrees(k, p, s, vars, out, Stray);
    }
  }

  // ----- where they do not -----

  /** `True` for every element. */
  function AlwaysTrue(): Kernel { Kernel(I64, I64, [Return(ConstBool(true))]) }

  /** A boolean returned as a value is -1 from the vector loop and 1 from the scalar one, so what three equal elements
      give depends on where they are; cut into chunks, on the cut. */
  lemma BooleanValueDiffers(p: Program, q: Program, s: Store, vars: map<nat, Val>, out: seq<Val>, x: I64)
    requires Compile(AlwaysTrue()) == Ok(p.blocks) && SK.CompileScalar(AlwaysTrue()) == Ok(q.blocks) && |out| == 3
    requires p.inp == q.inp == [IntV(x), IntV(x), IntV(x)] && EC.Holds(SK.KernelLocals(AlwaysTrue()), s, vars)
    ensures SK.EndsIn(p, vars, out, Done([IntV(-1), IntV(-1), IntV(1)]))
    ensures SK.EndsIn(q, vars, out, Done([IntV(1), IntV(1), IntV(1)]))
  {
    hide CompileSimd, SK.CompileScalar, EC.Holds, SK.KernelLocals, SK.EndsIn;
    var k, e := AlwaysTrue(), ConstBool(true);
    assert StmtTypes(k.body[0], map[], I64, I64, false) == Some(map[]);
    ThreeMap(p.fpu, e, IntV(x), 2, IntV(-1), IntV(1));
    ThreeMap(q.fpu, e, IntV(x), 0, IntV(1), IntV(1));
    VectorEnds(k, p, vars, out, Done([IntV(-1), IntV(-1), IntV(1)]));
    ScalarEnds(k, q, s, vars, out, Done([IntV(1), IntV(1), IntV(1)]));
  }

  lemma ThreeMap(m: Fpu, e: Expr, x: Val, lanes: nat, u: Val, v: Val)
    requires lanes <= 2 && ValueAt(m, e, [x, x, x], 0, lanes) == Some(u) && ValueAt(m, e, [x, x, x], 1, lanes) == Some(u)
    requires ValueAt(m, e, [x, x, x], 2, lanes) == Some(v)
    ensures MapEval(m, e, [x, x, x], 0, lanes) == Some([u, u, v])
  {
    hide ValueAt;
    var inp := [x, x, x];
    assert MapEval(m, e, inp, 3, lanes) == Some([]);
    assert MapEval(m, e, inp, 2, lanes) == Some([v] + []) && [v] + [] == [v];
    assert MapEval(m, e, inp, 1, lanes) == Some([u] + [v]) && [u] + [v] == [u, v];
    assert MapEval(m, e, inp, 0, lanes) == Some([u] + [u, v]) && [u] + [u, v] == [u, u, v];
  }

  /** `1 if x else 0`. */
  function OneIfInput(): Kernel { Kernel(I64, I64, [Return(IfExpr(Param, ConstI64(1), ConstI64(0)))]) }

  /** An integer under test selects by its bits in vector code: two elements 2 give 0, and 1 from the scalar loop. */
  lemma IntegerTestDiffers(p: Program, q: Program, s: Store, vars: map<nat, Val>, out: seq<Val>)
    requires Compile(OneIfInput()) == Ok(p.blocks) && SK.CompileScalar(OneIfInput()) == Ok(q.blocks) && |out| == 2
    requires p.inp == q.inp == [IntV(2), IntV(2)] && EC.Holds(SK.KernelLocals(OneIfInput()), s, vars)
    ensures SK.EndsIn(p, vars, out, Done([IntV(0), IntV(0)])) && SK.EndsIn(q, vars, out, Done([IntV(1), IntV(1)]))
  {
    hide CompileSimd, SK.CompileScalar, EC.Holds, SK.KernelLocals, SK.EndsIn, MapEval, SelectI64;
    var k, e := OneIfInput(), IfExpr(Param, ConstI64(1), ConstI64(0));
    assert StmtTypes(k.body[0], map[], I64, I64, false) == Some(map[]);
    TwoSelects();
    assert Eval(p.fpu, Param, IntV(2), map[]) == Some(IntV(2)) == LaneEval(p.fpu, Param, IntV(2));
    assert LaneEval(p.fpu, e, IntV(2)) == Some(IntV(0)) && Eval(q.fpu, e, IntV(2), map[]) == Some(IntV(1));
    PairMap(p.fpu, e, IntV(2), 2);
    PairMap(q.fpu, e, IntV(2), 0);
    VectorEnds(k, p, vars, out, Done([IntV(0), IntV(0)]));
    ScalarEnds(k, q, s, vars, out, Done([IntV(1), IntV(1)]));
  }

  lemma TwoSelects()
    ensures SelectI64(2, 1, 0) == 0
  {
    ZeroBits(62);
    assert BitSelect(63, 1, 0, 0) == 2 * BitSelect(62, 0, 0, 0) + 0;
    assert BitSelect(64, 2, 1, 0) == 2 * BitSelect(63, 1, 0, 0) + 0;
  }

  lemma {:induction false} ZeroBits(k: nat)
    ensures BitSelect(k, 0, 0, 0) == 0
  {
    if k != 0 {
      ZeroBits(k - 1);
    }
  }
}
