/** `compile_scalar`: a loop over the elements around a lowered body.  All locals live in registers
    shared by every iteration. */
module ScalarKernel {
  import opened Wrappers
  import opened Ir
  import opened Machine
  import opened Cfg
  import opened Lowering
  import opened Semantics
  import opened Shape
  import EC = ExprCorrect
  import LC = LoweringCorrect

  // Blocks, in order of creation.
  const ENTRY: nat := 0
  const OUTER_HEADER: nat := 1
  const ELEM_ENTRY: nat := 2
  const ELEM_EXIT: nat := 3
  const OUTER_EXIT: nat := 4

  // Values: the parameters of the compiled function come first.
  const LEN: nat := 2
  const PARAM: nat := 7

  function ScalarTarget(k: Kernel): Target { Target(k.inputDtype, k.outputDtype, PARAM, ELEM_EXIT) }

  const EntryBlock := Block([Iconst(3, 0), DefVar(I_VAR, 3)], Some(Jump(OUTER_HEADER)))
  const HeaderBlock := Block([UseVar(4, I_VAR), IcmpUlt(5, 4, LEN)], Some(Brif(5, ELEM_ENTRY, OUTER_EXIT)))
  const LoadCode := [UseVar(6, I_VAR), Load(PARAM, 6)]

  /** Everything up to the body of an element: its input is loaded and bound as the parameter. */
  function Prologue(): Build {
    Build([EntryBlock, HeaderBlock, Block(LoadCode, None), EMPTY, EMPTY], ELEM_ENTRY, PARAM + 1, 2, map[], false, [])
  }

  function ZeroInstr(d: Dtype, n: nat): Instr {
    match d
    case I64 => Iconst(n, 0)
    case F64 => F64const(n, 0)
  }

  /** Stores the result, advances the element counter. */
  function ExitCode(n: nat): seq<Instr> {
    [UseVar(n, RESULT_VAR), UseVar(n + 1, I_VAR), StoreAt(n + 1, n),
     Iconst(n + 2, 1), IntBin(n + 3, Iadd, n + 1, n + 2), DefVar(I_VAR, n + 3)]
  }

  /** A body that falls through returns zero. */
  function Defaulted(d: Dtype, st: Build): Build {
    if st.terminated then st
    else Close(Emit(st, [ZeroInstr(d, st.nvals), DefVar(RESULT_VAR, st.nvals)], st.nvals + 1), Jump(ELEM_EXIT))
  }

  function Epilogue(d: Dtype, st: Build): Build {
    var st1 := Defaulted(d, st);
    var st2 := Close(Emit(Switch(st1, ELEM_EXIT), ExitCode(st1.nvals), st1.nvals + 4), Jump(OUTER_HEADER));
    Close(Switch(st2, OUTER_EXIT), Ret)
  }

  function CompileScalar(k: Kernel): Lowered<seq<Block>> {
    var st :- LowerBody(ScalarTarget(k), Prologue(), k.body);
    Ok(Epilogue(k.outputDtype, st).blocks)
  }

  // ----- what a kernel means -----

  datatype KernelRun = Finished(out: seq<Val>) | KTrapped | KTimeout

  /** Elements from `i` on, one after the other; the store of locals is handed on from element to element. */
  function RunKernel(m: Fpu, fuel: nat, k: Kernel, inp: seq<Val>, i: nat, s: Store): KernelRun
    requires i <= |inp|
    decreases |inp| - i
  {
    if i == |inp| then Finished([])
    else
      match Element(m, fuel, k, inp[i], s)
      case Returned(v, s') =>
        (match RunKernel(m, fuel, k, inp, i + 1, s')
         case Finished(o) => Finished([v] + o)
         case other => other)
      case Timeout => KTimeout
      case _ => KTrapped
  }

  /** One element; falling off the end returns zero. */
  function Element(m: Fpu, fuel: nat, k: Kernel, x: Val, s: Store): Outcome {
    match Exec(m, fuel, k.body, x, s)
    case Normal(s') => Returned(Zero(k.outputDtype), s')
    case other => other
  }

  predicate KernelTyped(k: Kernel) {
    BodyTypes(k.body, map[], k.inputDtype, k.outputDtype, false).Some?
  }

  /** The locals of a typed kernel, as the code generator numbered them. */
  function KernelLocals(k: Kernel): Locals {
    match LowerBody(ScalarTarget(k), Prologue(), k.body)
    case Ok(st) => st.locals
    case Err(_) => map[]
  }

  lemma PrologueReady(k: Kernel)
    ensures Ready(ScalarTarget(k), Prologue())
  {
  }

  lemma Accepted(k: Kernel)
    requires KernelTyped(k)
    ensures LowerBody(ScalarTarget(k), Prologue(), k.body).Ok? && CompileScalar(k).Ok?
  {
    assert EC.TypesOf(Prologue().locals) == map[];
    LC.BodyAccepted(ScalarTarget(k), Prologue(), k.body, false);
  }

  /** The whole code of a kernel: which blocks are where, and that the body is in it unchanged. */
  lemma KernelBlocks(k: Kernel)
    requires KernelTyped(k)
    ensures LowerBody(ScalarTarget(k), Prologue(), k.body).Ok? && CompileScalar(k).Ok?
    ensures var st, g := LowerBody(ScalarTarget(k), Prologue(), k.body).value, CompileScalar(k).value;
            && Ready(ScalarTarget(k), st) && Grows(Prologue(), st) && CodeIn(st.blocks, g) && |g| == |st.blocks| >= 5
            && g[ENTRY] == EntryBlock && g[OUTER_HEADER] == HeaderBlock && LoadCode <= g[ELEM_ENTRY].instrs
            && g[ELEM_EXIT] == Block(ExitCode(Defaulted(k.outputDtype, st).nvals), Some(Jump(OUTER_HEADER)))
            && g[OUTER_EXIT] == Block([], Some(Ret))
            && (!st.terminated ==> g[st.cur] == Defaulted(k.outputDtype, st).blocks[st.cur])
  {
    hide Partly, LowerBody, ExitCode;
    Accepted(k);
    PrologueReady(k);
    BodyGrows(ScalarTarget(k), Prologue(), k.body);
    var st := LowerBody(ScalarTarget(k), Prologue(), k.body).value;
    OuterBlocks(st);
    EpilogueBlocks(k.outputDtype, st);
  }

  /** Lowering a body leaves the blocks of the element loop alone. */
  lemma OuterBlocks(st: Build)
    requires Grows(Prologue(), st)
    ensures |st.blocks| >= 5 && st.cur != ELEM_EXIT && st.cur != OUTER_EXIT && st.cur < |st.blocks|
    ensures st.cur != ENTRY && st.cur != OUTER_HEADER
    ensures st.blocks[ENTRY] == EntryBlock && st.blocks[OUTER_HEADER] == HeaderBlock
    ensures st.blocks[ELEM_EXIT] == EMPTY && st.blocks[OUTER_EXIT] == EMPTY && LoadCode <= st.blocks[ELEM_ENTRY].instrs
  {
  }

  lemma EpilogueBlocks(d: Dtype, st: Build)
    requires |st.blocks| >= 5 && st.cur < |st.blocks| && st.cur != ELEM_EXIT && st.cur != OUTER_EXIT
    requires st.blocks[ELEM_EXIT] == EMPTY && st.blocks[OUTER_EXIT] == EMPTY
    requires st.terminated <==> st.blocks[st.cur].term.Some?
    ensures var g := Epilogue(d, st).blocks;
            && CodeIn(st.blocks, g) && |g| == |st.blocks|
            && (forall b | 0 <= b < |g| && b != st.cur && b != ELEM_EXIT && b != OUTER_EXIT :: g[b] == st.blocks[b])
            && g[ELEM_EXIT] == Block(ExitCode(Defaulted(d, st).nvals), Some(Jump(OUTER_HEADER)))
            && g[OUTER_EXIT] == Block([], Some(Ret))
            && g[st.cur] == Defaulted(d, st).blocks[st.cur]
  {
    hide ExitCode;
    var code := ExitCode(Defaulted(d, st).nvals);
    assert [] + code == code;
  }

  /** Every block of a compiled kernel ends in a terminator whose targets exist. */
  lemma KernelWellFormed(k: Kernel)
    requires KernelTyped(k)
    ensures CompileScalar(k).Ok?
    ensures forall b | 0 <= b < |CompileScalar(k).value| ::
              CompileScalar(k).value[b].term.Some? && TargetsBelow(CompileScalar(k).value[b].term, |CompileScalar(k).value|)
  {
    hide LowerBody, ExitCode;
    KernelBlocks(k);
    var st := LowerBody(ScalarTarget(k), Prologue(), k.body).value;
    OuterBlocks(st);
    EpilogueBlocks(k.outputDtype, st);
  }

  // ----- the element loop -----

  /** A compiled kernel about to run on input `inp`. */
  predicate Loaded(k: Kernel, p: Program) {
    && KernelTyped(k) && CompileScalar(k) == Ok(p.blocks)
    && |p.inp| < TWO_63
    && (forall x <- p.inp :: HasType(x, k.inputDtype))
  }

  /** The element loop about to look at element `i`, with store `s` in the registers. */
  predicate Looping(k: Kernel, p: Program, i: nat, s: Store, r: Regs) {
    && Loaded(k, p) && i <= |p.inp| && |r.out| == |p.inp|
    && Lookup(r.vals, LEN) == Some(IntV(|p.inp|)) && Lookup(r.vars, I_VAR) == Some(IntV(i))
    && EC.Holds(KernelLocals(k), s, r.vars)
  }

  function KernelCtx(k: Kernel, p: Program, x: Val): LC.Ctx
    requires LowerBody(ScalarTarget(k), Prologue(), k.body).Ok?
  {
    LC.Ctx(p, ScalarTarget(k), KernelLocals(k), LowerBody(ScalarTarget(k), Prologue(), k.body).value.nvars, x)
  }

  lemma HeaderRuns(k: Kernel, p: Program, i: nat, s: Store, r: Regs) returns (n: nat, r1: Regs)
    requires Looping(k, p, i, s, r)
    ensures n > 0 && Steps(p, At(OUTER_HEADER, 0, r), n) == At(if i < |p.inp| then ELEM_ENTRY else OUTER_EXIT, 0, r1)
    ensures r1 == r.(vals := r.vals[4 := IntV(i)][5 := FlagV(i < |p.inp|)])
  {
    hide LowerBody, Steps, Step, CompileScalar, Grows, Ready, CodeIn, Run;
    KernelBlocks(k);
    r1 := r.(vals := r.vals[4 := IntV(i)][5 := FlagV(i < |p.inp|)]);
    LC.RunTwo(p, UseVar(4, I_VAR), IcmpUlt(5, 4, LEN), r, r.(vals := r.vals[4 := IntV(i)]), r1);
    n := LC.BlockRuns(p, OUTER_HEADER, HeaderBlock.instrs, HeaderBlock.term.value, r, r1);
    LC.JumpRuns(p, OUTER_HEADER, HeaderBlock, r1);
  }

  lemma LoadRuns(k: Kernel, p: Program, i: nat, s: Store, r: Regs) returns (n: nat, r1: Regs)
    requires Looping(k, p, i, s, r) && i < |p.inp|
    ensures n > 0 && Steps(p, At(OUTER_HEADER, 0, r), n) == LC.Here(Prologue(), r1)
    ensures r1.vars == r.vars && r1.out == r.out && Lookup(r1.vals, PARAM) == Some(p.inp[i])
    ensures Lookup(r1.vals, LEN) == Lookup(r.vals, LEN)
  {
    hide LowerBody, Steps, Step, CompileScalar, Grows, Ready, CodeIn, Run;
    KernelBlocks(k);
    var m, q := HeaderRuns(k, p, i, s, r);
    var q1 := q.(vals := q.vals[6 := IntV(i)]);
    r1 := q1.(vals := q1.vals[PARAM := p.inp[i]]);
    LC.RunTwo(p, UseVar(6, I_VAR), Load(PARAM, 6), q, q1, r1);
    assert p.blocks[ELEM_ENTRY].instrs[0..0 + |LoadCode|] == LoadCode;
    var m1 := RunSteps(p, ELEM_ENTRY, 0, LoadCode, q);
    StepsAdd(p, At(OUTER_HEADER, 0, r), m, m1);
    n := m + m1;
  }

  /** What the exit of an element leaves in registers and memory. */
  function Exited(r: Regs, n: nat, i: nat, v: Val): Regs
    requires i < |r.out| && i + 1 < TWO_63
  {
    Regs(r.vals[n := v][n + 1 := IntV(i)][n + 2 := IntV(1)][n + 3 := IntV(i + 1)],
         r.vars[I_VAR := IntV(i + 1)], r.out[i := v])
  }

  lemma ExitCodeRuns(p: Program, n: nat, i: nat, v: Val, r: Regs)
    requires i < |r.out| && i + 1 < TWO_63 && (v.IntV? || v.FltV?)
    requires Lookup(r.vars, RESULT_VAR) == Some(v) && Lookup(r.vars, I_VAR) == Some(IntV(i))
    ensures Run(p, ExitCode(n), r) == Some(Exited(r, n, i, v))
  {
    hide Run;
    var r1 := r.(vals := r.vals[n := v]);
    var r2 := r1.(vals := r1.vals[n + 1 := IntV(i)]);
    var r3 := r2.(out := r2.out[i := v]);
    var r4 := r3.(vals := r3.vals[n + 2 := IntV(1)]);
    WrapInRange(i + 1);
    var r5 := r4.(vals := r4.vals[n + 3 := IntV(i + 1)]);
    LC.RunTwo(p, UseVar(n, RESULT_VAR), UseVar(n + 1, I_VAR), r, r1, r2);
    LC.RunTwo(p, StoreAt(n + 1, n), Iconst(n + 2, 1), r2, r3, r4);
    LC.RunTwo(p, IntBin(n + 3, Iadd, n + 1, n + 2), DefVar(I_VAR, n + 3), r4, r5, Exited(r, n, i, v));
    var a := [UseVar(n, RESULT_VAR), UseVar(n + 1, I_VAR)];
    var b := [StoreAt(n + 1, n), Iconst(n + 2, 1)];
    var d := [IntBin(n + 3, Iadd, n + 1, n + 2), DefVar(I_VAR, n + 3)];
    RunConcat(p, a, b + d, r);
    RunConcat(p, b, d, r2);
    assert ExitCode(n) == a + (b + d);
  }

  /** From the exit block with the result in place: on to the next element. */
  lemma ExitRuns(k: Kernel, p: Program, i: nat, s: Store, v: Val, r: Regs) returns (n: nat, r1: Regs)
    requires Loaded(k, p) && i < |p.inp| == |r.out| && HasType(v, k.outputDtype)
    requires Lookup(r.vals, LEN) == Some(IntV(|p.inp|)) && Lookup(r.vars, I_VAR) == Some(IntV(i))
    requires EC.Holds(KernelLocals(k), s, r.vars) && Lookup(r.vars, RESULT_VAR) == Some(v)
    ensures Steps(p, At(ELEM_EXIT, 0, r), n) == At(OUTER_HEADER, 0, r1)
    ensures Looping(k, p, i + 1, s, r1) && r1.out == r.out[i := v]
  {
    hide LowerBody, Steps, Step, CompileScalar, CodeIn, Run, ExitCode, Partly;
    KernelBlocks(k);
    var st := LowerBody(ScalarTarget(k), Prologue(), k.body).value;
    var m := Defaulted(k.outputDtype, st).nvals;
    ValuesAbove(k, st);
    ExitCodeRuns(p, m, i, v, r);
    r1 := Exited(r, m, i, v);
    n := LC.BlockRuns(p, ELEM_EXIT, ExitCode(m), Jump(OUTER_HEADER), r, r1);
    LC.JumpRuns(p, ELEM_EXIT, Block(ExitCode(m), Some(Jump(OUTER_HEADER))), r1);
    CounterAdvances(k, p, i, s, v, r, m);
  }

  lemma ValuesAbove(k: Kernel, st: Build)
    requires Grows(Prologue(), st)
    ensures st.nvals > PARAM && Defaulted(k.outputDtype, st).nvals > PARAM
  {
  }

  lemma CounterAdvances(k: Kernel, p: Program, i: nat, s: Store, v: Val, r: Regs, m: nat)
    requires Loaded(k, p) && i < |p.inp| == |r.out| && m > PARAM
    requires LowerBody(ScalarTarget(k), Prologue(), k.body).Ok? && Ready(ScalarTarget(k), LowerBody(ScalarTarget(k), Prologue(), k.body).value)
    requires Lookup(r.vals, LEN) == Some(IntV(|p.inp|))
    requires EC.Holds(KernelLocals(k), s, r.vars)
    ensures Looping(k, p, i + 1, s, Exited(r, m, i, v))
  {
    hide LowerBody, CompileScalar;
  }

  /** A body that falls through arrives at the exit with zero as its result. */
  lemma DefaultRuns(k: Kernel, p: Program, st: Build, s: Store, r: Regs) returns (n: nat, r1: Regs)
    requires Loaded(k, p) && LowerBody(ScalarTarget(k), Prologue(), k.body) == Ok(st)
    requires !st.terminated && st.cur < |st.blocks| && EC.Holds(KernelLocals(k), s, r.vars) && st.nvals > PARAM
    ensures Steps(p, LC.Here(st, r), n) == At(ELEM_EXIT, 0, r1)
    ensures EC.Holds(KernelLocals(k), s, r1.vars) && Lookup(r1.vars, RESULT_VAR) == Some(Zero(k.outputDtype))
    ensures r1.out == r.out && Lookup(r1.vals, LEN) == Lookup(r.vals, LEN) && Lookup(r1.vars, I_VAR) == Lookup(r.vars, I_VAR)
  {
    hide LowerBody, Steps, Step, CompileScalar, CodeIn, Run, ExitCode, Partly;
    KernelBlocks(k);
    var i := |st.blocks[st.cur].instrs|;
    var z := ZeroInstr(k.outputDtype, st.nvals);
    var d := DefVar(RESULT_VAR, st.nvals);
    var q := r.(vals := r.vals[st.nvals := Zero(k.outputDtype)]);
    r1 := q.(vars := q.vars[RESULT_VAR := Zero(k.outputDtype)]);
    LC.RunTwo(p, z, d, r, q, r1);
    var blk := p.blocks[st.cur];
    assert blk == Block(st.blocks[st.cur].instrs + [z, d], Some(Jump(ELEM_EXIT)));
    assert blk.instrs[i..i + 2] == [z, d];
    n := RunSteps(p, st.cur, i, [z, d], r);
    LC.JumpRuns(p, st.cur, blk, r1);
    LC.StepsOne(p, LC.Here(st, r), n);
    n := n + 1;
  }

  /** One element's run has come to where its outcome says. */
  predicate ElementArrives(k: Kernel, p: Program, i: nat, o: Outcome, r: Regs, end: Config)
    requires i < |r.out|
  {
    match o
    case Returned(v, s) => end.At? && end == At(OUTER_HEADER, 0, end.r) && Looping(k, p, i + 1, s, end.r) && end.r.out == r.out[i := v]
    case Timeout => end.At?
    case _ => end == Fault
  }

  /** The body of an element, from its first instruction to where its outcome says. */
  lemma BodyRuns(k: Kernel, p: Program, fuel: nat, i: nat, s: Store, r: Regs) returns (n: nat)
    requires Loaded(k, p) && i < |p.inp| && |r.out| == |p.inp|
    requires Lookup(r.vals, LEN) == Some(IntV(|p.inp|)) && Lookup(r.vars, I_VAR) == Some(IntV(i))
    requires EC.Holds(KernelLocals(k), s, r.vars) && Lookup(r.vals, PARAM) == Some(p.inp[i])
    requires LowerBody(ScalarTarget(k), Prologue(), k.body).Ok?
    requires LowerBody(ScalarTarget(k), Prologue(), k.body).value.cur < |LowerBody(ScalarTarget(k), Prologue(), k.body).value.blocks|
    ensures LC.Arrives(KernelCtx(k, p, p.inp[i]), Prologue(), LowerBody(ScalarTarget(k), Prologue(), k.body).value,
                       Exec(p.fpu, fuel, k.body, p.inp[i], s), r, Steps(p, LC.Here(Prologue(), r), n))
    ensures Exec(p.fpu, fuel, k.body, p.inp[i], s).Timeout? ==> n >= fuel
  {
    hide LowerBody, Steps, CompileScalar, BodyTypes, Exec, Partly, CodeIn;
    KernelBlocks(k);
    PrologueReady(k);
    var c := KernelCtx(k, p, p.inp[i]);
    assert EC.TypesOf(Prologue().locals) == map[];
    assert BodyTypes(k.body, EC.TypesOf(Prologue().locals), c.t.inT, c.t.outT, false).Some?;
    n := LC.BodySim(c, fuel, k.body, Prologue(), s, r);
  }

  lemma ElementSim(k: Kernel, p: Program, fuel: nat, i: nat, s: Store, r: Regs) returns (n: nat)
    requires Looping(k, p, i, s, r) && i < |p.inp|
    ensures ElementArrives(k, p, i, Element(p.fpu, fuel, k, p.inp[i], s), r, Steps(p, At(OUTER_HEADER, 0, r), n))
    ensures Element(p.fpu, fuel, k, p.inp[i], s).Timeout? ==> n >= fuel
  {
    hide LowerBody, Steps, CompileScalar, BodyTypes, Exec, Partly, CodeIn, Looping, Ready;
    LoopingLoaded(k, p, i, s, r);
    KernelBlocks(k);
    var st := LowerBody(ScalarTarget(k), Prologue(), k.body).value;
    OuterBlocks(st);
    ValuesAbove(k, st);
    var start := At(OUTER_HEADER, 0, r);
    var m, r0 := LoadRuns(k, p, i, s, r);
    var m1 := BodyRuns(k, p, fuel, i, s, r0);
    StepsAdd(p, start, m, m1);
    n := m + m1;
    var r1 := if Steps(p, start, n).At? then Steps(p, start, n).r else r0;
    match Exec(p.fpu, fuel, k.body, p.inp[i], s) {
      case Returned(v, s1) =>
        AfterLen(k, p, p.inp[i], s1, r0, r1);
        var m2, r2 := ExitRuns(k, p, i, s1, v, r1);
        StepsAdd(p, start, n, m2);
        n := n + m2;
      case Normal(s1) =>
        AfterLen(k, p, p.inp[i], s1, r0, r1);
        var m2, r2 := DefaultRuns(k, p, st, s1, r1);
        StepsAdd(p, start, n, m2);
        var m3, r3 := ExitRuns(k, p, i, s1, Zero(k.outputDtype), r2);
        StepsAdd(p, start, n + m2, m3);
        n := n + m2 + m3;
      case _ =>
    }
  }

  lemma LoopingLoaded(k: Kernel, p: Program, i: nat, s: Store, r: Regs)
    requires Looping(k, p, i, s, r)
    ensures Loaded(k, p) && i <= |p.inp| == |r.out| && Lookup(r.vals, LEN) == Some(IntV(|p.inp|))
    ensures Lookup(r.vars, I_VAR) == Some(IntV(i)) && EC.Holds(KernelLocals(k), s, r.vars)
  {
  }

  lemma AfterLen(k: Kernel, p: Program, x: Val, s: Store, r: Regs, r1: Regs)
    requires LowerBody(ScalarTarget(k), Prologue(), k.body).Ok?
    requires LC.After(KernelCtx(k, p, x), Prologue().nvals, s, r, r1) && Lookup(r.vals, LEN).Some?
    ensures Lookup(r1.vals, LEN) == Lookup(r.vals, LEN) && r1.out == r.out && Lookup(r1.vars, I_VAR) == Lookup(r.vars, I_VAR)
    ensures EC.Holds(KernelLocals(k), s, r1.vars)
  {
    hide LowerBody;
  }

  /** The compiled loop, from element `i` on, does what the kernel means. */
  lemma {:induction false} LoopSim(k: Kernel, p: Program, fuel: nat, i: nat, s: Store, r: Regs) returns (n: nat)
    requires Looping(k, p, i, s, r)
    ensures i <= |p.inp| == |r.out|
    ensures match RunKernel(p.fpu, fuel, k, p.inp, i, s)
            case Finished(o) => Steps(p, At(OUTER_HEADER, 0, r), n) == Done(r.out[..i] + o)
            case KTrapped => Steps(p, At(OUTER_HEADER, 0, r), n) == Fault
            case KTimeout => Steps(p, At(OUTER_HEADER, 0, r), n).At? && n >= fuel
    decreases |p.inp| - i
  {
    hide Steps, CompileScalar, Looping, Element, Step;
    LoopingLoaded(k, p, i, s, r);
    var start := At(OUTER_HEADER, 0, r);
    if i == |p.inp| {
      var m, r1 := HeaderRuns(k, p, i, s, r);
      KernelBlocks(k);
      LC.JumpRuns(p, OUTER_EXIT, Block([], Some(Ret)), r1);
      LC.StepsOne(p, start, m);
      n := m + 1;
      assert r.out[..i] + [] == r.out;
    } else {
      n := ElementSim(k, p, fuel, i, s, r);
      match Element(p.fpu, fuel, k, p.inp[i], s) {
        case Returned(v, s1) =>
          var r1 := Steps(p, start, n).r;
          var m := LoopSim(k, p, fuel, i + 1, s1, r1);
          StepsAdd(p, start, n, m);
          n := n + m;
          assert r.out[i := v][..i + 1] == r.out[..i] + [v];
          match RunKernel(p.fpu, fuel, k, p.inp, i + 1, s1) {
            case Finished(o) => assert r.out[..i] + [v] + o == r.out[..i] + ([v] + o);
            case _ =>
          }
        case _ =>
      }
    }
  }

  /** The state in which a compiled kernel is called: whatever the registers held before. */
  function Call(p: Program, vars: map<nat, Val>, out: seq<Val>): Config
    requires |p.inp| < TWO_63
  {
    At(ENTRY, 0, Regs(map[LEN := IntV(|p.inp|)], vars, out))
  }

  lemma CallSim(k: Kernel, p: Program, fuel: nat, s: Store, vars: map<nat, Val>, out: seq<Val>) returns (n: nat)
    requires Loaded(k, p) && |out| == |p.inp| && EC.Holds(KernelLocals(k), s, vars)
    ensures match RunKernel(p.fpu, fuel, k, p.inp, 0, s)
            case Finished(o) => Steps(p, Call(p, vars, out), n) == Done(o)
            case KTrapped => Steps(p, Call(p, vars, out), n) == Fault
            case KTimeout => Steps(p, Call(p, vars, out), n).At? && n >= fuel
  {
    hide Steps, CompileScalar, Step, RunKernel, Run, LowerBody, CodeIn, Grows;
    KernelBlocks(k);
    var r := Call(p, vars, out).r;
    var q := r.(vals := r.vals[3 := IntV(0)]);
    var r1 := q.(vars := q.vars[I_VAR := IntV(0)]);
    LC.RunTwo(p, Iconst(3, 0), DefVar(I_VAR, 3), r, q, r1);
    var m := LC.BlockRuns(p, ENTRY, EntryBlock.instrs, Jump(OUTER_HEADER), r, r1);
    LC.JumpRuns(p, ENTRY, EntryBlock, r1);
    assert Looping(k, p, 0, s, r1);
    var m1 := LoopSim(k, p, fuel, 0, s, r1);
    StepsAdd(p, Call(p, vars, out), m, m1);
    n := m + m1;
  }

  predicate Ends(run: KernelRun, end: Config) {
    match run
    case Finished(o) => end == Done(o)
    case KTrapped => end == Fault
    case KTimeout => false
  }

  /** The run of `p` from a call ends in `end`. */
  ghost predicate EndsIn(p: Program, vars: map<nat, Val>, out: seq<Val>, end: Config)
    requires |p.inp| < TWO_63
  {
    exists n :: Steps(p, Call(p, vars, out), n) == end
  }

  /** The compiled kernel and the structured semantics agree on every run: it returns with a given
      output, or faults, exactly when the kernel means that; so it runs forever exactly when the
      kernel does. */
  lemma CompiledAgrees(k: Kernel, p: Program, s: Store, vars: map<nat, Val>, out: seq<Val>, end: Config)
    requires Loaded(k, p) && |out| == |p.inp| && EC.Holds(KernelLocals(k), s, vars) && Final(end)
    ensures EndsIn(p, vars, out, end) <==>
            (exists fuel :: Ends(RunKernel(p.fpu, fuel, k, p.inp, 0, s), end))
  {
    hide Steps, CompileScalar, RunKernel, EC.Holds, KernelLocals, KernelTyped, Call;
    var start := Call(p, vars, out);
    if fuel :| Ends(RunKernel(p.fpu, fuel, k, p.inp, 0, s), end) {
      var n := CallSim(k, p, fuel, s, vars, out);
      assert Steps(p, start, n) == end;
    }
    if n :| Steps(p, start, n) == end {
      var m := CallSim(k, p, n + 1, s, vars, out);
      if n <= m { RunsAgree(p, start, n, m); } else { RunsAgree(p, start, m, n); }
      assert Ends(RunKernel(p.fpu, n + 1, k, p.inp, 0, s), end);
      assert exists fuel :: Ends(RunKernel(p.fpu, fuel, k, p.inp, 0, s), end);
    }
  }
}
