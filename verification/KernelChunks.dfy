/** A kernel run once for each chunk of a buffer does what one call on the whole buffer does: each chunk is its
    own run of the machine code, on its own part of input and output. */
module KernelChunks {
  import opened Wrappers
  import opened Ir
  import opened Machine
  import opened Cfg
  import C = Chunks
  import EC = ExprCorrect
  import SK = ScalarKernel
  import MK = MapKernel
  import V = SimdKernel

  /** A kernel with its code, about to be run on an input. */
  ghost predicate Compiled(k: Kernel, p: Program) {
    SK.KernelTyped(k) && V.Compile(k) == Ok(p.blocks) && V.Typed(k, p.inp)
  }

  /** On that input the kernel is a map. */
  ghost predicate Ready(k: Kernel, p: Program) {
    Compiled(k, p) && MK.DefinitelyAssigned(k) && V.LanesMean(k, p)
  }

  /** Registers a call may find: anything of the right types. */
  ghost predicate Usable(k: Kernel, vars: map<nat, Val>) {
    exists s :: EC.Holds(SK.KernelLocals(k), s, vars)
  }

  function On(p: Program, c: C.Chunk): Program
    requires c.start + c.len <= |p.inp|
  {
    p.(inp := C.Slice(p.inp, c))
  }

  /** One call for each chunk, with whatever its thread's registers hold. */
  datatype Calls = Calls(p: Program, size: nat, vars: seq<map<nat, Val>>, out: seq<Val>)

  ghost predicate Called(k: Kernel, cs: Calls) {
    && Compiled(k, cs.p) && cs.size > 0 && |cs.out| == |cs.p.inp| && |cs.vars| == C.DivCeil(|cs.p.inp|, cs.size)
    && forall v <- cs.vars :: Usable(k, v)
  }

  ghost predicate Made(k: Kernel, cs: Calls) { Called(k, cs) && Ready(k, cs.p) }

  function ChunkOf(cs: Calls, i: nat): C.Chunk
    requires cs.size > 0 && i < C.DivCeil(|cs.p.inp|, cs.size)
  {
    C.Nth(|cs.p.inp|, cs.size, i)
  }

  function Begin(cs: Calls, i: nat): Config
    requires cs.size > 0 && |cs.out| == |cs.p.inp| < TWO_63 && i < |cs.vars| == C.DivCeil(|cs.p.inp|, cs.size)
  {
    SK.Call(On(cs.p, ChunkOf(cs, i)), cs.vars[i], C.Slice(cs.out, ChunkOf(cs, i)))
  }

  lemma CompiledOn(k: Kernel, cs: Calls, i: nat)
    requires Called(k, cs) && i < |cs.vars|
    ensures Compiled(k, On(cs.p, ChunkOf(cs, i)))
  {
    hide V.Compile, SK.KernelTyped;
    var q := On(cs.p, ChunkOf(cs, i));
    forall x <- q.inp ensures HasType(x, k.inputDtype) {
      assert x in cs.p.inp;
    }
  }

  lemma ReadyOn(k: Kernel, cs: Calls, i: nat)
    requires Made(k, cs) && i < |cs.vars|
    ensures Ready(k, On(cs.p, ChunkOf(cs, i)))
  {
    hide V.Compile, SK.KernelTyped, MK.DefinitelyAssigned, V.LaneMeans;
    CompiledOn(k, cs, i);
    var q := On(cs.p, ChunkOf(cs, i));
    if IsVectorizablePhase1(k) {
      forall x <- q.inp ensures V.LaneMeans(q.fpu, k, x) {
        assert x in cs.p.inp;
      }
    }
  }

  ghost predicate Finishes(p: Program, c: Config, o: seq<Val>) {
    exists n :: Steps(p, c, n) == Done(o)
  }

  /** `o` is the kernel mapped over the input. */
  ghost predicate IsMap(k: Kernel, p: Program, o: seq<Val>) {
    |o| == |p.inp| && forall i | 0 <= i < |p.inp| :: MK.Computes(p.fpu, k, p.inp[i], o[i])
  }

  lemma CallIsMap(k: Kernel, p: Program, vars: map<nat, Val>, out: seq<Val>, o: seq<Val>)
    requires Ready(k, p) && Usable(k, vars) && |out| == |p.inp|
    ensures Finishes(p, SK.Call(p, vars, out), o) <==> IsMap(k, p, o)
  {
    hide Steps, V.Compile, SK.KernelTyped, MK.DefinitelyAssigned, SK.KernelLocals, EC.Holds, SK.Call, MK.Computes, V.LaneMeans;
    var s :| EC.Holds(SK.KernelLocals(k), s, vars);
    V.CompiledKernelIsMap(k, p, s, vars, out, o);
    if Finishes(p, SK.Call(p, vars, out), o) {
      var n :| Steps(p, SK.Call(p, vars, out), n) == Done(o);
      assert exists n :: Steps(p, SK.Call(p, vars, out), n) == Done(o);
    }
  }

  /** Chunk `i`, run on its own, finishes with its part of `o`. */
  ghost predicate ChunkEnds(cs: Calls, o: seq<Val>, i: nat)
    requires cs.size > 0 && |cs.out| == |cs.p.inp| == |o| < TWO_63 && i < |cs.vars| == C.DivCeil(|cs.p.inp|, cs.size)
  {
    Finishes(On(cs.p, ChunkOf(cs, i)), Begin(cs, i), C.Slice(o, ChunkOf(cs, i)))
  }

  lemma ChunkEndsComputed(k: Kernel, cs: Calls, o: seq<Val>, i: nat)
    requires Made(k, cs) && |o| == |cs.p.inp| && i < |cs.vars|
    ensures ChunkEnds(cs, o, i) <==> ChunkComputed(k, cs, o, i)
  {
    hide Finishes, V.Compile, SK.KernelTyped, MK.DefinitelyAssigned, Usable, SK.Call, MK.Computes, C.Nth, C.DivCeil, ChunkComputed, IsMap;
    var c := ChunkOf(cs, i);
    ReadyOn(k, cs, i);
    CallIsMap(k, On(cs.p, c), cs.vars[i], C.Slice(cs.out, c), C.Slice(o, c));
    SliceComputed(k, cs, o, i);
  }

  /** The chunks together finish with `o` in memory exactly when one call on the whole buffer does. */
  lemma ChunksAreWhole(k: Kernel, cs: Calls, vars: map<nat, Val>, o: seq<Val>)
    requires Made(k, cs) && Usable(k, vars) && |o| == |cs.p.inp|
    ensures (forall i | 0 <= i < |cs.vars| :: ChunkEnds(cs, o, i)) <==> Finishes(cs.p, SK.Call(cs.p, vars, cs.out), o)
  {
    hide Steps, V.Compile, SK.KernelTyped, MK.DefinitelyAssigned, Usable, SK.Call, MK.Computes, C.Nth, C.DivCeil, ChunkComputed, ChunkEnds;
    CallIsMap(k, cs.p, vars, cs.out, o);
    forall i | 0 <= i < |cs.vars| ensures ChunkEnds(cs, o, i) <==> ChunkComputed(k, cs, o, i) {
      ChunkEndsComputed(k, cs, o, i);
    }
    AllComputed(k, cs, o);
  }

  ghost predicate ChunkComputed(k: Kernel, cs: Calls, o: seq<Val>, i: nat)
    requires cs.size > 0 && i < C.DivCeil(|cs.p.inp|, cs.size) && |o| == |cs.p.inp|
  {
    var c := ChunkOf(cs, i);
    forall j | c.start <= j < c.start + c.len :: MK.Computes(cs.p.fpu, k, cs.p.inp[j], o[j])
  }

  lemma SliceComputed(k: Kernel, cs: Calls, o: seq<Val>, i: nat)
    requires cs.size > 0 && i < C.DivCeil(|cs.p.inp|, cs.size) && |o| == |cs.p.inp|
    ensures var c := ChunkOf(cs, i);
            ChunkComputed(k, cs, o, i) <==> IsMap(k, On(cs.p, c), C.Slice(o, c))
  {
    hide MK.Computes, C.DivCeil;
    var c := ChunkOf(cs, i);
    if forall j | 0 <= j < c.len :: MK.Computes(cs.p.fpu, k, C.Slice(cs.p.inp, c)[j], C.Slice(o, c)[j]) {
      forall j | c.start <= j < c.start + c.len ensures MK.Computes(cs.p.fpu, k, cs.p.inp[j], o[j]) {
        assert MK.Computes(cs.p.fpu, k, C.Slice(cs.p.inp, c)[j - c.start], C.Slice(o, c)[j - c.start]);
      }
    }
  }

  lemma AllComputed(k: Kernel, cs: Calls, o: seq<Val>)
    requires cs.size > 0 && |o| == |cs.p.inp|
    ensures (forall i | 0 <= i < C.DivCeil(|cs.p.inp|, cs.size) :: ChunkComputed(k, cs, o, i)) <==>
            (forall j | 0 <= j < |cs.p.inp| :: MK.Computes(cs.p.fpu, k, cs.p.inp[j], o[j]))
  {
    hide MK.Computes, C.DivCeil, C.Nth;
    if forall i | 0 <= i < C.DivCeil(|cs.p.inp|, cs.size) :: ChunkComputed(k, cs, o, i) {
      forall j | 0 <= j < |cs.p.inp| ensures MK.Computes(cs.p.fpu, k, cs.p.inp[j], o[j]) {
        var i := C.Owner(j, cs.size);
        C.IsOwner(|cs.p.inp|, cs.size, j);
        assert ChunkComputed(k, cs, o, i);
      }
    }
  }
}
