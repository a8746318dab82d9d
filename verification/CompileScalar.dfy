/** `compile_scalar` as it runs: it builds the element loop around the body with one function builder. */
module ScalarCompiler {
  import opened Wrappers
  import opened Ir
  import opened Cfg
  import L = Lowering
  import Shape
  import SK = ScalarKernel
  import opened LowererObject

  /** A function of three parameters with the five blocks and two variables of the element loop. */
  method NewFunction() returns (builder: FunctionBuilder)
    ensures fresh(builder) && builder.blocks == [EMPTY, EMPTY, EMPTY, EMPTY, EMPTY]
    ensures builder.nvals == 3 && builder.nvars == 2
  {
    builder := new FunctionBuilder(3);
    var entry := builder.CreateBlock();
    var header := builder.CreateBlock();
    var elem := builder.CreateBlock();
    var elemExit := builder.CreateBlock();
    var outerExit := builder.CreateBlock();
    var i := builder.DeclareVar();
    var result := builder.DeclareVar();
  }

  /** Entry, header, and the load of one element; `builder` is left in the element's first block. */
  method BuildPrologue() returns (builder: FunctionBuilder, param: nat)
    ensures fresh(builder) && param == SK.PARAM
    ensures var p := SK.Prologue();
            builder.blocks == p.blocks && builder.cur == p.cur && builder.nvals == p.nvals && builder.nvars == p.nvars
  {
    builder := NewFunction();
    builder.SwitchToBlock(SK.ENTRY);
    var zero := builder.Inst(Iconst(builder.nvals, 0));
    builder.Effect(DefVar(L.I_VAR, zero));
    builder.Terminate(Jump(SK.OUTER_HEADER));
    assert builder.blocks[SK.ENTRY].instrs == SK.EntryBlock.instrs;
    assert builder.blocks == [SK.EntryBlock, EMPTY, EMPTY, EMPTY, EMPTY];

    builder.SwitchToBlock(SK.OUTER_HEADER);
    var now := builder.Inst(UseVar(builder.nvals, L.I_VAR));
    var cond := builder.Inst(IcmpUlt(builder.nvals, now, SK.LEN));
    builder.Terminate(Brif(cond, SK.ELEM_ENTRY, SK.OUTER_EXIT));
    assert builder.blocks[SK.OUTER_HEADER].instrs == SK.HeaderBlock.instrs;
    assert builder.blocks == [SK.EntryBlock, SK.HeaderBlock, EMPTY, EMPTY, EMPTY];

    builder.SwitchToBlock(SK.ELEM_ENTRY);
    var idx := builder.Inst(UseVar(builder.nvals, L.I_VAR));
    param := builder.Inst(Load(builder.nvals, idx));
    assert builder.blocks[SK.ELEM_ENTRY].instrs == SK.LoadCode;
    assert builder.blocks == [SK.EntryBlock, SK.HeaderBlock, Block(SK.LoadCode, None), EMPTY, EMPTY];
  }

  /** Compiles a kernel to its blocks, or fails where lowering its body does. */
  method CompileScalar(k: Kernel) returns (r: L.Lowered<seq<Block>>)
    ensures r == SK.CompileScalar(k)
  {
    hide L.LowerBody, Shape.Ready, Shape.Partly, SK.Epilogue, SK.Defaulted;
    var builder, param := BuildPrologue();
    var lowerer := new Lowerer(builder, SK.ScalarTarget(k));
    SK.PrologueReady(k);
    assert lowerer.State() == SK.Prologue();
    var _ :- lowerer.LowerBody(k.body);
    ghost var st := lowerer.State();
    Shape.BodyGrows(SK.ScalarTarget(k), SK.Prologue(), k.body);
    SK.OuterBlocks(st);
    Started(SK.ScalarTarget(k), st);
    EpilogueIs(k.outputDtype, st);
    if !lowerer.terminated {
      BuildDefault(builder, k.outputDtype, st);
    } else {
      NoDefault(k.outputDtype, st);
    }
    BuildEpilogue(builder);
    r := Ok(builder.blocks);
  }

  lemma NoDefault(d: Dtype, st: L.Build)
    ensures st.terminated ==> SK.Defaulted(d, st) == st
  {
  }

  lemma EpilogueIs(d: Dtype, st: L.Build)
    requires |st.blocks| >= 5 && st.cur < |st.blocks| && st.cur != SK.ELEM_EXIT && st.cur != SK.OUTER_EXIT
    requires st.blocks[SK.ELEM_EXIT] == EMPTY && st.blocks[SK.OUTER_EXIT] == EMPTY
    ensures var q := SK.Defaulted(d, st);
            && |q.blocks| == |st.blocks| && q.blocks[SK.ELEM_EXIT] == EMPTY && q.blocks[SK.OUTER_EXIT] == EMPTY
            && SK.Epilogue(d, st).blocks ==
               q.blocks[SK.ELEM_EXIT := Block(SK.ExitCode(q.nvals), Some(Jump(SK.OUTER_HEADER)))][SK.OUTER_EXIT := Block([], Some(Ret))]
  {
    hide SK.ExitCode;
    var code := SK.ExitCode(SK.Defaulted(d, st).nvals);
    assert [] + code == code;
  }

  /** The zero that a body falling through would return. */
  method BuildDefault(builder: FunctionBuilder, d: Dtype, ghost st: L.Build)
    requires !st.terminated && L.Open(st)
    requires builder.blocks == st.blocks && builder.cur == st.cur && builder.nvals == st.nvals
    modifies builder
    ensures builder.blocks == SK.Defaulted(d, st).blocks && builder.nvals == SK.Defaulted(d, st).nvals
  {
    ghost var before := st.blocks[st.cur].instrs;
    var z := builder.Inst(SK.ZeroInstr(d, builder.nvals));
    builder.Effect(DefVar(L.RESULT_VAR, z));
    builder.Terminate(Jump(SK.ELEM_EXIT));
    assert before + [SK.ZeroInstr(d, z)] + [DefVar(L.RESULT_VAR, z)] == before + [SK.ZeroInstr(d, z), DefVar(L.RESULT_VAR, z)];
  }

  /** The store of the result and the step to the next element. */
  method BuildEpilogue(builder: FunctionBuilder)
    requires |builder.blocks| >= 5 && builder.blocks[SK.ELEM_EXIT] == EMPTY && builder.blocks[SK.OUTER_EXIT] == EMPTY
    modifies builder
    ensures var n := old(builder.nvals);
            builder.blocks == old(builder.blocks)[SK.ELEM_EXIT := Block(SK.ExitCode(n), Some(Jump(SK.OUTER_HEADER)))]
                                                 [SK.OUTER_EXIT := Block([], Some(Ret))]
  {
    ghost var b0, n := builder.blocks, builder.nvals;
    builder.SwitchToBlock(SK.ELEM_EXIT);
    var v := builder.Inst(UseVar(builder.nvals, L.RESULT_VAR));
    var i := builder.Inst(UseVar(builder.nvals, L.I_VAR));
    builder.Effect(StoreAt(i, v));
    var one := builder.Inst(Iconst(builder.nvals, 1));
    var next := builder.Inst(IntBin(builder.nvals, Iadd, i, one));
    builder.Effect(DefVar(L.I_VAR, next));
    assert builder.blocks[SK.ELEM_EXIT].instrs == SK.ExitCode(n);
    builder.Terminate(Jump(SK.OUTER_HEADER));
    builder.SwitchToBlock(SK.OUTER_EXIT);
    builder.Terminate(Ret);
    assert builder.blocks == b0[SK.ELEM_EXIT := Block(SK.ExitCode(n), Some(Jump(SK.OUTER_HEADER)))]
                               [SK.OUTER_EXIT := Block([], Some(Ret))];
  }
}
