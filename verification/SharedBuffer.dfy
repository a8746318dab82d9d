/** The chunks of a buffer worked on at once (`invoke_kernel_parallel`): every task runs the kernel's machine code
    on the one input and the one output buffer, through pointers moved to the start of its chunk.  Nothing in
    the machine keeps a task inside its chunk; that it stays there is proved. */
module SharedBuffer {
  import opened Wrappers
  import opened Ir
  import opened Machine
  import opened Cfg
  import opened KernelChunks
  import C = Chunks
  import EC = ExprCorrect
  import LC = LoweringCorrect
  import SK = ScalarKernel
  import MK = MapKernel
  import V = SimdKernel

  // ----- the machine -----

  /** A task: where it is, and its registers.  Memory is not its own. */
  datatype Thread = Going(b: nat, i: nat, vals: map<nat, Val>, vars: map<nat, Val>) | Trapped | Strayed | Returned

  datatype Shared = Shared(threads: seq<Thread>, out: seq<Val>)

  function Bare(c: Config): Thread {
    match c
    case At(b, i, r) => Going(b, i, r.vals, r.vars)
    case Fault => Trapped
    case Stray => Strayed
    case Done(_) => Returned
  }

  function Memory(c: Config, before: seq<Val>): seq<Val> {
    match c
    case At(_, _, r) => r.out
    case Done(o) => o
    case _ => before
  }

  /** A task together with the memory it sees. */
  function Seeing(t: Thread, mem: seq<Val>): Config {
    match t
    case Going(b, i, vals, vars) => At(b, i, Regs(vals, vars, mem))
    case Trapped => Fault
    case Strayed => Stray
    case Returned => Done(mem)
  }

  /** The program as a task sees it whose input pointer is at `start`: everything from there to the end. */
  function From(p: Program, start: nat): Program
    requires start <= |p.inp|
  {
    p.(inp := p.inp[start..])
  }

  predicate Shaped(cs: Calls, s: Shared) {
    && cs.size > 0 && |cs.out| == |cs.p.inp| < TWO_63 && |cs.vars| == C.DivCeil(|cs.p.inp|, cs.size)
    && |s.threads| == |cs.vars| && |s.out| == |cs.p.inp|
  }

  /** Task `i` takes a step, reading and writing relative to the start of its chunk. */
  function Turn(cs: Calls, s: Shared, i: nat): (t: Shared)
    requires Shaped(cs, s) && i < |s.threads|
    ensures Shaped(cs, t)
  {
    var start := ChunkOf(cs, i).start;
    var mem := s.out[start..];
    var after := Step(From(cs.p, start), Seeing(s.threads[i], mem));
    LengthKept(From(cs.p, start), Seeing(s.threads[i], mem), mem);
    Shared(s.threads[i := Bare(after)], s.out[..start] + Memory(after, mem))
  }

  lemma LengthKept(p: Program, c: Config, mem: seq<Val>)
    requires |Memory(c, mem)| == |mem|
    ensures |Memory(Step(p, c), mem)| == |mem|
  {
    hide Computed;
  }

  predicate Schedule(cs: Calls, schedule: seq<nat>) { forall j | 0 <= j < |schedule| :: schedule[j] < |cs.vars| }

  function Interleave(cs: Calls, s: Shared, schedule: seq<nat>): (t: Shared)
    requires Shaped(cs, s) && Schedule(cs, schedule)
    ensures Shaped(cs, t)
    decreases |schedule|
  {
    if schedule == [] then s else Interleave(cs, Turn(cs, s, schedule[0]), schedule[1..])
  }

  function Turns(schedule: seq<nat>, i: nat): nat {
    if schedule == [] then 0 else (if schedule[0] == i then 1 else 0) + Turns(schedule[1..], i)
  }

  /** All tasks called, nothing run yet. */
  function Start(cs: Calls): (s: Shared)
    requires cs.size > 0 && |cs.out| == |cs.p.inp| < TWO_63 && |cs.vars| == C.DivCeil(|cs.p.inp|, cs.size)
    ensures Shaped(cs, s)
  {
    Shared(seq(|cs.vars|, i requires 0 <= i < |cs.vars| => Bare(Begin(cs, i))), cs.out)
  }

  // ----- one step in a larger memory -----

  /** An instruction that finds its memory does the same with more memory behind it, and leaves that alone. */
  lemma ExecWidens(p: Program, inp: seq<Val>, ins: Instr, r: Regs, rest: seq<Val>)
    requires p.inp <= inp && (ExecInstr(p, ins, r).None? ==> !TouchesMemory(ins))
    ensures var wide := ExecInstr(p.(inp := inp), ins, r.(out := r.out + rest));
            match ExecInstr(p, ins, r)
            case None => wide == None
            case Some(q) => wide == Some(q.(out := q.out + rest))
  {
    if ins.StoreAt? {
      var i, u := Index(r.vals, ins.idx).value, Lookup(r.vals, ins.src).value;
      StoredWidens(r.out, i, u, rest);
    }
  }

  lemma StoredWidens(out: seq<Val>, i: nat, v: Val, rest: seq<Val>)
    requires Stored(out, i, v).Some?
    ensures Stored(out + rest, i, v) == Some(Stored(out, i, v).value + rest)
  {
    match v
    case IntX2(a, b) => assert (out + rest)[i := IntV(a)][i + 1 := IntV(b)] == out[i := IntV(a)][i + 1 := IntV(b)] + rest;
    case FltX2(a, b) => assert (out + rest)[i := FltV(a)][i + 1 := FltV(b)] == out[i := FltV(a)][i + 1 := FltV(b)] + rest;
    case IntV(_) => assert (out + rest)[i := v] == out[i := v] + rest;
    case FltV(_) => assert (out + rest)[i := v] == out[i := v] + rest;
    case FlagV(_) =>
  }

  lemma StepWidens(p: Program, inp: seq<Val>, c: Config, rest: seq<Val>)
    requires p.inp <= inp && Step(p, c) != Stray && c.At?
    ensures var wide := Step(p.(inp := inp), At(c.b, c.i, c.r.(out := c.r.out + rest)));
            && Bare(wide) == Bare(Step(p, c))
            && Memory(wide, c.r.out + rest) == Memory(Step(p, c), c.r.out) + rest
  {
    hide ExecInstr;
    if c.b < |p.blocks| && c.i < |p.blocks[c.b].instrs| {
      ExecWidens(p, inp, p.blocks[c.b].instrs[c.i], c.r, rest);
    }
  }

  // ----- every task runs as if alone -----

  /** The run of chunk `i` on buffers of its own, after `n` steps. */
  function Alone(cs: Calls, i: nat, n: nat): Config
    requires cs.size > 0 && |cs.out| == |cs.p.inp| < TWO_63 && i < |cs.vars| == C.DivCeil(|cs.p.inp|, cs.size)
  {
    Steps(On(cs.p, ChunkOf(cs, i)), Begin(cs, i), n)
  }

  /** Task `i` is where it would be alone after `n` steps, and its part of the memory is what it would be. */
  predicate Follows(cs: Calls, s: Shared, i: nat, n: nat)
    requires Shaped(cs, s) && i < |s.threads|
  {
    var c, mem := Alone(cs, i, n), C.Slice(s.out, ChunkOf(cs, i));
    c != Stray && s.threads[i] == Bare(c) && mem == Memory(c, mem)
  }

  lemma StartFollows(k: Kernel, cs: Calls, i: nat)
    requires Called(k, cs) && i < |cs.vars|
    ensures Follows(cs, Start(cs), i, 0)
  {
    hide V.Compile, SK.KernelTyped, MK.DefinitelyAssigned, C.Nth, C.DivCeil;
  }

  /** Alone, a run stays within its chunk. */
  lemma AloneStays(k: Kernel, cs: Calls, i: nat, n: nat)
    requires Called(k, cs) && i < |cs.vars|
    ensures Alone(cs, i, n) != Stray
  {
    hide Steps, V.Compile, SK.KernelTyped, MK.DefinitelyAssigned, SK.KernelLocals, EC.Holds, SK.Call, C.Nth, C.DivCeil;
    CompiledOn(k, cs, i);
    assert Usable(k, cs.vars[i]);
    var s :| EC.Holds(SK.KernelLocals(k), s, cs.vars[i]);
    var c := ChunkOf(cs, i);
    V.NeverStrays(k, On(cs.p, c), s, cs.vars[i], C.Slice(cs.out, c), n);
  }

  /** A task's own step. */
  lemma OwnTurn(k: Kernel, cs: Calls, s: Shared, i: nat, n: nat)
    requires Called(k, cs) && Shaped(cs, s) && i < |cs.vars| && Follows(cs, s, i, n)
    ensures var t, c := Turn(cs, s, i), ChunkOf(cs, i);
            && Follows(cs, t, i, n + 1)
            && t.out == s.out[..c.start] + C.Slice(t.out, c) + s.out[c.start + c.len..]
  {
    hide Steps, Step, V.Compile, SK.KernelTyped, MK.DefinitelyAssigned, C.DivCeil, Begin;
    var c := ChunkOf(cs, i);
    var own, wide := On(cs.p, c), From(cs.p, c.start);
    var conf, mem, rest := Alone(cs, i, n), C.Slice(s.out, c), s.out[c.start + c.len..];
    LC.StepsOne(own, Begin(cs, i), n);
    AloneStays(k, cs, i, n + 1);
    assert s.out[c.start..] == mem + rest;
    if conf.At? {
      StepWidens(own, wide.inp, conf, rest);
    } else {
      EndedStays(own, conf);
      EndedStays(wide, Seeing(s.threads[i], s.out[c.start..]));
    }
    var after := Step(own, conf);
    assert Turn(cs, s, i).out == s.out[..c.start] + (Memory(after, mem) + rest);
    MemoryLength(own, conf, mem);
    assert C.Slice(Turn(cs, s, i).out, c) == Memory(after, mem);
  }

  lemma EndedStays(p: Program, c: Config)
    requires !c.At?
    ensures Step(p, c) == c
  {
  }

  lemma MemoryLength(p: Program, c: Config, mem: seq<Val>)
    requires mem == Memory(c, mem)
    ensures |Memory(Step(p, c), mem)| == |mem|
  {
    hide Step;
    LengthKept(p, c, mem);
  }

  /** Another task's step. */
  lemma OtherTurn(k: Kernel, cs: Calls, s: Shared, i: nat, n: nat, j: nat, m: nat)
    requires Called(k, cs) && Shaped(cs, s) && i < |cs.vars| && Follows(cs, s, i, n)
    requires j < |cs.vars| && j != i && Follows(cs, s, j, m)
    ensures Follows(cs, Turn(cs, s, i), j, m)
  {
    hide Steps, Step, V.Compile, SK.KernelTyped, MK.DefinitelyAssigned, C.DivCeil, C.Nth, Alone;
    OwnTurn(k, cs, s, i, n);
    var t, c, d := Turn(cs, s, i), ChunkOf(cs, i), ChunkOf(cs, j);
    forall x | d.start <= x < d.start + d.len ensures t.out[x] == s.out[x] {
      C.ExactlyOne(|s.out|, cs.size, x, i);
      C.ExactlyOne(|s.out|, cs.size, x, j);
    }
    assert C.Slice(t.out, d) == C.Slice(s.out, d);
  }

  ghost predicate AllFollow(cs: Calls, s: Shared, ns: seq<nat>) {
    Shaped(cs, s) && |ns| == |cs.vars| && forall i | 0 <= i < |ns| :: Follows(cs, s, i, ns[i])
  }

  lemma TurnFollows(k: Kernel, cs: Calls, s: Shared, ns: seq<nat>, i: nat)
    requires Called(k, cs) && AllFollow(cs, s, ns) && i < |ns|
    ensures AllFollow(cs, Turn(cs, s, i), ns[i := ns[i] + 1])
  {
    hide Follows, V.Compile, SK.KernelTyped, MK.DefinitelyAssigned, C.DivCeil, C.Nth, Turn;
    OwnTurn(k, cs, s, i, ns[i]);
    forall j | 0 <= j < |ns| && j != i ensures Follows(cs, Turn(cs, s, i), j, ns[j]) {
      OtherTurn(k, cs, s, i, ns[i], j, ns[j]);
    }
  }

  lemma {:induction false} ScheduleFollows(k: Kernel, cs: Calls, s: Shared, schedule: seq<nat>, ns: seq<nat>)
    requires Called(k, cs) && AllFollow(cs, s, ns) && Schedule(cs, schedule)
    ensures AllFollow(cs, Interleave(cs, s, schedule), seq(|ns|, i requires 0 <= i < |ns| => ns[i] + Turns(schedule, i)))
    decreases |schedule|
  {
    hide Follows, V.Compile, SK.KernelTyped, MK.DefinitelyAssigned, C.DivCeil, C.Nth, Turn;
    var ends := seq(|ns|, i requires 0 <= i < |ns| => ns[i] + Turns(schedule, i));
    if schedule == [] {
      assert ends == ns;
    } else {
      var i := schedule[0];
      TurnFollows(k, cs, s, ns, i);
      var ns1 := ns[i := ns[i] + 1];
      ScheduleFollows(k, cs, Turn(cs, s, i), schedule[1..], ns1);
      assert ends == seq(|ns1|, j requires 0 <= j < |ns1| => ns1[j] + Turns(schedule[1..], j));
    }
  }

  /** Whatever the interleaving: each task is where it would be alone after as many steps, its chunk holds what
      it would hold, and its next step changes nothing outside its chunk. */
  lemma RunsAlone(k: Kernel, cs: Calls, schedule: seq<nat>, i: nat)
    requires Called(k, cs) && Schedule(cs, schedule) && i < |cs.vars|
    ensures var s, c := Interleave(cs, Start(cs), schedule), ChunkOf(cs, i);
            && Follows(cs, s, i, Turns(schedule, i))
            && s.threads[i] != Strayed
            && (forall x | 0 <= x < |s.out| && !C.Holds(c, x) :: Turn(cs, s, i).out[x] == s.out[x])
  {
    hide V.Compile, SK.KernelTyped, MK.DefinitelyAssigned, C.DivCeil, C.Nth, Turn, Alone;
    forall j | 0 <= j < |cs.vars| ensures Follows(cs, Start(cs), j, 0) {
      StartFollows(k, cs, j);
    }
    var zeros := seq(|cs.vars|, _ => 0);
    assert AllFollow(cs, Start(cs), zeros);
    ScheduleFollows(k, cs, Start(cs), schedule, zeros);
    var s := Interleave(cs, Start(cs), schedule);
    var ends := seq(|zeros|, j requires 0 <= j < |zeros| => zeros[j] + Turns(schedule, j));
    assert AllFollow(cs, s, ends) && ends[i] == Turns(schedule, i);
    OwnTurn(k, cs, s, i, Turns(schedule, i));
  }

  // ----- the end -----

  predicate AllReturned(s: Shared) { forall i | 0 <= i < |s.threads| :: s.threads[i] == Returned }

  /** Whatever the interleaving, once every task has returned the buffer holds what a single call on the whole
      buffer would have put there. */
  lemma AnyInterleaving(k: Kernel, cs: Calls, schedule: seq<nat>, vars: map<nat, Val>)
    requires Made(k, cs) && Usable(k, vars) && Schedule(cs, schedule)
    ensures var s := Interleave(cs, Start(cs), schedule);
            AllReturned(s) ==> Finishes(cs.p, SK.Call(cs.p, vars, cs.out), s.out)
  {
    hide Steps, V.Compile, SK.KernelTyped, MK.DefinitelyAssigned, Usable, C.DivCeil, C.Nth, Interleave, Begin, Start, SK.Call;
    var s := Interleave(cs, Start(cs), schedule);
    if AllReturned(s) {
      forall i | 0 <= i < |cs.vars| ensures ChunkEnds(cs, s.out, i) {
        RunsAlone(k, cs, schedule, i);
        assert Alone(cs, i, Turns(schedule, i)) == Done(C.Slice(s.out, ChunkOf(cs, i)));
      }
      ChunksAreWhole(k, cs, vars, s.out);
    }
  }

  function Tasks(cs: Calls): seq<C.Chunk>
    requires cs.size > 0 && |cs.vars| == C.DivCeil(|cs.p.inp|, cs.size)
  {
    seq(|cs.vars|, i requires 0 <= i < |cs.vars| => ChunkOf(cs, i))
  }

  /** `invoke_kernel_parallel` on a registered kernel: whatever the length and the number of threads, its plan is these
      tasks, and after any interleaving of them the buffer holds what one call on the whole would have put there. */
  lemma PlannedRuns(k: Kernel, cs: Calls, threads: nat, schedule: seq<nat>, vars: map<nat, Val>)
    requires Made(k, cs) && cs.size == C.TaskSize(|cs.p.inp|, threads) && Usable(k, vars) && Schedule(cs, schedule)
    ensures C.Work(C.PlanFor(|cs.p.inp|, threads), |cs.p.inp|) == Tasks(cs)
    ensures var s := Interleave(cs, Start(cs), schedule);
            AllReturned(s) ==> Finishes(cs.p, SK.Call(cs.p, vars, cs.out), s.out)
  {
    hide C.DivCeil, C.Nth, SK.KernelTyped, V.Compile, MK.DefinitelyAssigned, Usable, C.Split, C.PlanFor, C.Work, C.TaskSize, C.Covers, Interleave, Start;
    C.PlanCovers(|cs.p.inp|, threads);
    C.ChunkAt(|cs.p.inp|, cs.size);
    assert C.Split(0, |cs.p.inp|, cs.size) == Tasks(cs);
    AnyInterleaving(k, cs, schedule, vars);
  }

  /** Every schedule that gives each task `enough` turns ends with all returned and `o` in the buffer. */
  ghost predicate Suffices(cs: Calls, enough: nat, o: seq<Val>)
    requires cs.size > 0 && |cs.out| == |cs.p.inp| < TWO_63 && |cs.vars| == C.DivCeil(|cs.p.inp|, cs.size)
  {
    forall schedule | Schedule(cs, schedule) && Fair(schedule, |cs.vars|, enough) ::
      var s := Interleave(cs, Start(cs), schedule); AllReturned(s) && s.out == o
  }

  predicate Fair(schedule: seq<nat>, n: nat, enough: nat) { forall i | 0 <= i < n :: Turns(schedule, i) >= enough }

  /** Alone, the first `n` chunks have finished with their part of `o` after `enough` steps. */
  predicate DoneBy(cs: Calls, o: seq<Val>, n: nat, enough: nat)
    requires cs.size > 0 && |cs.out| == |cs.p.inp| == |o| < TWO_63 && n <= |cs.vars| == C.DivCeil(|cs.p.inp|, cs.size)
  {
    forall i | 0 <= i < n :: Alone(cs, i, enough) == Done(C.Slice(o, ChunkOf(cs, i)))
  }

  lemma {:induction false} EnoughSteps(cs: Calls, o: seq<Val>, n: nat) returns (enough: nat)
    requires cs.size > 0 && |cs.out| == |cs.p.inp| == |o| < TWO_63 && n <= |cs.vars| == C.DivCeil(|cs.p.inp|, cs.size)
    requires forall i | 0 <= i < n :: ChunkEnds(cs, o, i)
    ensures DoneBy(cs, o, n, enough)
  {
    hide Steps, C.DivCeil, C.Nth, Begin;
    if n == 0 {
      enough := 0;
    } else {
      var a := EnoughSteps(cs, o, n - 1);
      assert ChunkEnds(cs, o, n - 1);
      var b :| Steps(On(cs.p, ChunkOf(cs, n - 1)), Begin(cs, n - 1), b) == Done(C.Slice(o, ChunkOf(cs, n - 1)));
      enough := C.Max(a, b);
      forall i | 0 <= i < n ensures Alone(cs, i, enough) == Done(C.Slice(o, ChunkOf(cs, i))) {
        var before := if i < n - 1 then a else b;
        assert Alone(cs, i, before) == Done(C.Slice(o, ChunkOf(cs, i)));
        RunsAgree(On(cs.p, ChunkOf(cs, i)), Begin(cs, i), before, enough);
      }
    }
  }

  /** One call on the whole buffer finishes with `o` exactly if, for some number of turns, every schedule that
      gives each task that many ends with `o`. */
  lemma FairSchedulesFinish(k: Kernel, cs: Calls, vars: map<nat, Val>, o: seq<Val>)
    requires Made(k, cs) && Usable(k, vars) && |o| == |cs.p.inp|
    ensures Finishes(cs.p, SK.Call(cs.p, vars, cs.out), o) <==> exists enough :: Suffices(cs, enough, o)
  {
    hide Steps, V.Compile, SK.KernelTyped, MK.DefinitelyAssigned, Usable, C.DivCeil, C.Nth, Interleave, Start, SK.Call, Turns, ChunkEnds;
    ChunksAreWhole(k, cs, vars, o);
    if Finishes(cs.p, SK.Call(cs.p, vars, cs.out), o) {
      var enough := EnoughSteps(cs, o, |cs.vars|);
      forall schedule | Schedule(cs, schedule) && Fair(schedule, |cs.vars|, enough)
        ensures var s := Interleave(cs, Start(cs), schedule); AllReturned(s) && s.out == o
      {
        FairEnds(k, cs, o, schedule, enough);
      }
      assert Suffices(cs, enough, o);
    }
    if enough :| Suffices(cs, enough, o) {
      var schedule := FairSchedule(|cs.vars|, enough);
      AnyInterleaving(k, cs, schedule, vars);
    }
  }

  lemma FairEnds(k: Kernel, cs: Calls, o: seq<Val>, schedule: seq<nat>, enough: nat)
    requires Called(k, cs) && |o| == |cs.p.inp| && DoneBy(cs, o, |cs.vars|, enough)
    requires Schedule(cs, schedule) && Fair(schedule, |cs.vars|, enough)
    ensures var s := Interleave(cs, Start(cs), schedule); AllReturned(s) && s.out == o
  {
    hide Steps, V.Compile, SK.KernelTyped, MK.DefinitelyAssigned, C.DivCeil, C.Nth, Interleave, Start, Begin, Turns, Turn;
    var s := Interleave(cs, Start(cs), schedule);
    forall i | 0 <= i < |cs.vars| ensures s.threads[i] == Returned && C.Slice(s.out, ChunkOf(cs, i)) == C.Slice(o, ChunkOf(cs, i)) {
      RunsAlone(k, cs, schedule, i);
      RunsAgree(On(cs.p, ChunkOf(cs, i)), Begin(cs, i), enough, Turns(schedule, i));
    }
    forall x | 0 <= x < |o| ensures s.out[x] == o[x] {
      C.IsOwner(|o|, cs.size, x);
      var c := ChunkOf(cs, C.Owner(x, cs.size));
      assert C.Slice(s.out, c)[x - c.start] == C.Slice(o, c)[x - c.start];
    }
  }

  /** There are fair schedules. */
  lemma {:induction false} FairSchedule(n: nat, enough: nat) returns (schedule: seq<nat>)
    ensures (forall j | 0 <= j < |schedule| :: schedule[j] < n) && Fair(schedule, n, enough)
    decreases n
  {
    if n == 0 {
      schedule := [];
    } else {
      var rest := FairSchedule(n - 1, enough);
      var last := Repeated(n - 1, enough);
      schedule := last + rest;
      forall i | 0 <= i < n ensures Turns(schedule, i) >= enough {
        TurnsAdd(last, rest, i);
      }
    }
  }

  lemma {:induction false} Repeated(i: nat, times: nat) returns (schedule: seq<nat>)
    ensures (forall j | 0 <= j < |schedule| :: schedule[j] == i) && Turns(schedule, i) == times
    decreases times
  {
    if times == 0 {
      schedule := [];
    } else {
      var rest := Repeated(i, times - 1);
      schedule := [i] + rest;
    }
  }

  lemma {:induction false} TurnsAdd(a: seq<nat>, b: seq<nat>, i: nat)
    ensures Turns(a + b, i) == Turns(a, i) + Turns(b, i)
    decreases |a|
  {
    if a == [] {
      assert a + b == b;
    } else {
      assert (a + b)[0] == a[0] && (a + b)[1..] == a[1..] + b;
      TurnsAdd(a[1..], b, i);
    }
  }
}
