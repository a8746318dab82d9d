/** Lowering preserves meaning: the emitted blocks, run from where a statement's code begins, arrive
    where the structured semantics says, with the same store in the registers. */
module LoweringCorrect {
  import opened Wrappers
  import opened Ir
  import opened Machine
  import opened Cfg
  import opened Lowering
  import opened Semantics
  import opened Shape
  import EC = ExprCorrect

  // ----- typed bodies are accepted -----

  lemma {:induction false} CodeAccepted(t: Target, locals: Locals, e: Expr, want: Dtype, next: nat)
    requires EC.Fits(e, want, locals, t.inT)
    ensures ExprCode(t, locals, e, want, next).Ok?
    decreases e
  {
    hide GuessCmpDtype, Coerced;
    match e
    case Unary(_, a) => CodeAccepted(t, locals, a, want, next);
    case MathCall(_, a) => CodeAccepted(t, locals, a, F64, next);
    case CastToI64(a) => CodeAccepted(t, locals, a, F64, next);
    case CastToF64(a) => CodeAccepted(t, locals, a, I64, next);
    case Binary(op, l, r) =>
      CodeAccepted(t, locals, l, want, next);
      var a := ExprCode(t, locals, l, want, next).value;
      CodeAccepted(t, locals, r, want, a.next);
    case Compare(_, l, r) =>
      EC.GuessIsOperandType(t, locals, l, r);
      var d := GuessCmpDtype(t, locals, l, r);
      CodeAccepted(t, locals, l, d, next);
      CodeAccepted(t, locals, r, d, ExprCode(t, locals, l, d, next).value.next);
    case IfExpr(c, y, n) =>
      CodeAccepted(t, locals, c, I64, next);
      var k := ExprCode(t, locals, c, I64, next).value;
      CodeAccepted(t, locals, y, want, k.next);
      CodeAccepted(t, locals, n, want, ExprCode(t, locals, y, want, k.next).value.next);
    case _ =>
  }

  /** Lowering succeeded, with the locals the typing discipline computed and the loop stack as it was. */
  predicate Accepted(r: Lowered<Build>, st: Build, ts: Types, jumps: bool) {
    r.Ok? && EC.TypesOf(r.value.locals) == ts && r.value.loops == st.loops && (r.value.terminated <==> jumps)
  }

  /** Typed bodies are accepted. */
  lemma {:induction false} BodyAccepted(t: Target, st: Build, ss: seq<Stmt>, inLoop: bool)
    requires BodyTypes(ss, EC.TypesOf(st.locals), t.inT, t.outT, inLoop).Some?
    requires !st.terminated && (inLoop ==> st.loops != [])
    ensures var r := LowerBody(t, st, ss);
            r.Ok? && Accepted(r, st, BodyTypes(ss, EC.TypesOf(st.locals), t.inT, t.outT, inLoop).value, r.value.terminated)
    decreases ss, 0
  {
    hide LowerStmt, StmtTypes;
    if ss != [] {
      StmtAccepted(t, st, ss[0], inLoop);
      var a := LowerStmt(t, st, ss[0]).value;
      if !a.terminated {
        BodyAccepted(t, a, ss[1..], inLoop);
      }
    }
  }

  lemma {:induction false} StmtAccepted(t: Target, st: Build, s: Stmt, inLoop: bool)
    requires StmtTypes(s, EC.TypesOf(st.locals), t.inT, t.outT, inLoop).Some?
    requires !st.terminated && (inLoop ==> st.loops != [])
    ensures Accepted(LowerStmt(t, st, s), st, StmtTypes(s, EC.TypesOf(st.locals), t.inT, t.outT, inLoop).value, Jumps(s))
    decreases s, 1
  {
    hide ExprCode, ExprType, IsTest, LowerBody, BodyTypes;
    match s
    case Assign(name, d, e) => CodeAccepted(t, st.locals, e, d, st.nvals);
    case Return(e) => CodeAccepted(t, st.locals, e, t.outT, st.nvals);
    case Break =>
    case Continue =>
    case If(_, _, _) => IfAccepted(t, st, s, inLoop);
    case While(_, _) => WhileAccepted(t, st, s, inLoop);
    case ForRange(_, _, _, _) => ForAccepted(t, st, s, inLoop);
  }

  lemma {:induction false} IfAccepted(t: Target, st: Build, s: Stmt, inLoop: bool)
    requires s.If? && StmtTypes(s, EC.TypesOf(st.locals), t.inT, t.outT, inLoop).Some?
    requires !st.terminated && (inLoop ==> st.loops != [])
    ensures Accepted(LowerStmt(t, st, s), st, StmtTypes(s, EC.TypesOf(st.locals), t.inT, t.outT, inLoop).value, false)
    decreases s, 0
  {
    hide ExprCode, ExprType, IsTest, LowerBody, BodyTypes;
    CodeAccepted(t, st.locals, s.test, I64, st.nvals);
    var st0 := IfHead(st, ExprCode(t, st.locals, s.test, I64, st.nvals).value);
    BodyAccepted(t, st0, s.thenBody, inLoop);
    BodyAccepted(t, Fill(LowerBody(t, st0, s.thenBody).value, |st.blocks| + 2, |st.blocks| + 1), s.elseBody, inLoop);
  }

  lemma {:induction false} WhileAccepted(t: Target, st: Build, s: Stmt, inLoop: bool)
    requires s.While? && StmtTypes(s, EC.TypesOf(st.locals), t.inT, t.outT, inLoop).Some?
    requires !st.terminated && (inLoop ==> st.loops != [])
    ensures Accepted(LowerStmt(t, st, s), st, StmtTypes(s, EC.TypesOf(st.locals), t.inT, t.outT, inLoop).value, false)
    decreases s, 0
  {
    hide ExprCode, ExprType, IsTest, LowerBody, BodyTypes;
    CodeAccepted(t, st.locals, s.cond, I64, st.nvals);
    var f := LoopFrame(|st.blocks|, |st.blocks| + 2);
    var st0 := PushLoop(WhileHead(st, ExprCode(t, st.locals, s.cond, I64, st.nvals).value), f);
    BodyAccepted(t, st0, s.wbody, true);
    PopPush(st, f);
  }

  lemma {:induction false} ForAccepted(t: Target, st: Build, s: Stmt, inLoop: bool)
    requires s.ForRange? && StmtTypes(s, EC.TypesOf(st.locals), t.inT, t.outT, inLoop).Some?
    requires !st.terminated && (inLoop ==> st.loops != [])
    ensures Accepted(LowerStmt(t, st, s), st, StmtTypes(s, EC.TypesOf(st.locals), t.inT, t.outT, inLoop).value, false)
    decreases s, 0
  {
    hide ExprCode, ExprType, IsTest, LowerBody, BodyTypes, ForHead;
    CodeAccepted(t, st.locals, s.start, I64, st.nvals);
    var from := ExprCode(t, st.locals, s.start, I64, st.nvals).value;
    CodeAccepted(t, st.locals, s.end, I64, from.next);
    var to := ExprCode(t, st.locals, s.end, I64, from.next).value;
    var f := LoopFrame(|st.blocks| + 3, |st.blocks| + 2);
    DeclaredType(st, s.loopVar, from, to);
    BodyAccepted(t, PushLoop(ForHead(st, s.loopVar, from, to), f), s.body, true);
    PopPush(st, f);
  }

  lemma PopPush(st: Build, f: LoopFrame)
    ensures (st.loops + [f])[..|st.loops + [f]| - 1] == st.loops
  {
  }

  lemma DeclaredType(st: Build, v: string, from: Code, to: Code)
    requires v in EC.TypesOf(st.locals) ==> EC.TypesOf(st.locals)[v] == I64
    ensures EC.TypesOf(ForHead(st, v, from, to).locals) == EC.TypesOf(st.locals)[v := I64]
    ensures !ForHead(st, v, from, to).terminated && ForHead(st, v, from, to).loops == st.loops
  {
    hide ForStep, ForTest;
    var d := Declare(st, v, I64);
    assert EC.TypesOf(d.locals) == EC.TypesOf(st.locals)[v := I64];
    assert ForEntry(st, v, from, to).locals == d.locals && ForEntry(st, v, from, to).loops == d.loops;
  }

  // ----- the simulation -----

  /** One kernel being run: its code, and what is the same throughout its body. */
  datatype Ctx = Ctx(p: Program, t: Target, locals: Locals, nvars: nat, x: Val)

  /** The next instruction to be emitted in state `st` is the next to be run. */
  function Here(st: Build, r: Regs): Config
    requires st.cur < |st.blocks|
  {
    At(st.cur, |st.blocks[st.cur].instrs|, r)
  }

  /** Registers `r1` hold store `s`, and kept what code from value number `n` on does not own. */
  predicate After(c: Ctx, n: nat, s: Store, r: Regs, r1: Regs) {
    && EC.Kept(r.vals, r1.vals, n)
    && EC.Holds(c.locals, s, r1.vars)
    && r1.out == r.out && Lookup(r1.vars, I_VAR) == Lookup(r.vars, I_VAR)
  }

  /** The run of a statement from `r` has come to where its outcome says: past its code, at the exit or
      the header of the innermost loop, or at the exit of the element with the result stored. */
  predicate Arrives(c: Ctx, st: Build, st': Build, o: Outcome, r: Regs, end: Config)
    requires st'.cur < |st'.blocks|
  {
    match o
    case Normal(s) => !st'.terminated && end.At? && end == Here(st', end.r) && After(c, st.nvals, s, r, end.r)
    case Broke(s) =>
      && st.loops != [] && end.At? && end == At(st.loops[|st.loops| - 1].exit, 0, end.r)
      && After(c, st.nvals, s, r, end.r)
    case Continued(s) =>
      && st.loops != [] && end.At? && end == At(st.loops[|st.loops| - 1].header, 0, end.r)
      && After(c, st.nvals, s, r, end.r)
    case Returned(v, s) =>
      && end.At? && end == At(c.t.exit, 0, end.r) && After(c, st.nvals, s, r, end.r)
      && Lookup(end.r.vars, RESULT_VAR) == Some(v) && HasType(v, c.t.outT)
    case Trapped => end == Fault
    case Timeout => end.At? && end.b != c.t.exit
  }

  predicate OkCtx(c: Ctx) {
    HasType(c.x, c.t.inT) && LocalsOk(c.locals, c.nvars)
  }

  /** Where a statement may start: its code is part of the program and its registers hold the store. */
  predicate Starts(c: Ctx, st: Build, s: Store, r: Regs) {
    && OkCtx(c) && Ready(c.t, st) && !st.terminated && LocalsGrow(st.locals, c.locals)
    && c.t.param < st.nvals && Lookup(r.vals, c.t.param) == Some(c.x)
    && EC.Holds(c.locals, s, r.vars)
  }

  /** The code emitted up to `st` is in the program. */
  predicate In(c: Ctx, st: Build) {
    CodeIn(st.blocks, c.p.blocks) && LocalsGrow(st.locals, c.locals)
  }

  ghost predicate BodyTyped(c: Ctx, st: Build, ss: seq<Stmt>) {
    exists inLoop :: (inLoop ==> st.loops != []) && BodyTypes(ss, EC.TypesOf(st.locals), c.t.inT, c.t.outT, inLoop).Some?
  }

  /** The code of an expression, found at position `i` of block `b`, runs there. */
  lemma ExprRuns(c: Ctx, b: nat, i: nat, locals: Locals, e: Expr, want: Dtype, next: nat, s: Store, r: Regs)
    returns (n: nat, r1: Regs)
    requires OkCtx(c) && EC.Fits(e, want, locals, c.t.inT) && LocalsGrow(locals, c.locals)
    requires c.t.param < next && Lookup(r.vals, c.t.param) == Some(c.x) && EC.Holds(c.locals, s, r.vars)
    requires ExprCode(c.t, locals, e, want, next).Ok? && b < |c.p.blocks|
    requires Found(c, b, i, ExprCode(c.t, locals, e, want, next).value.instrs)
    ensures var k := ExprCode(c.t, locals, e, want, next).value;
            match Eval(c.p.fpu, e, c.x, s)
            case None => Steps(c.p, At(b, i, r), n) == Fault
            case Some(v) =>
              && Steps(c.p, At(b, i, r), n) == At(b, i + |k.instrs|, r1)
              && Lookup(r1.vals, k.res) == Some(v) && (ExprType(e, EC.TypesOf(locals), c.t.inT) == Some(want) ==> HasType(v, want))
              && (want == I64 ==> Tested(r1.vals, k.res).Some?) && Tested(r1.vals, k.res) == Truth(v)
              && r1.vars == r.vars && r1.out == r.out && EC.Kept(r.vals, r1.vals, next)
  {
    hide ExprCode, Eval, Run, Steps, ExprType, IsTest, NoAccess, Inside;
    var k := ExprCode(c.t, locals, e, want, next).value;
    EC.ExprSim(c.p, c.t, locals, e, want, next, c.x, s, r);
    EC.EvalTyped(c.p.fpu, e, c.x, s, EC.TypesOf(locals), c.t.inT);
    if want == I64 {
      FitsTest(e, locals, c.t.inT);
      EC.TestHasTruth(c.p.fpu, e, c.x, s, EC.TypesOf(locals), c.t.inT);
    }
    EC.ExprNoAccess(c.t, locals, e, want, next);
    NoAccessInside(c.p, k.instrs, r);
    n := RunSteps(c.p, b, i, k.instrs, r);
    r1 := if Eval(c.p.fpu, e, c.x, s).Some? then Run(c.p, k.instrs, r).value else r;
  }

  lemma FitsTest(e: Expr, locals: Locals, inT: Dtype)
    requires EC.Fits(e, I64, locals, inT)
    ensures IsTest(e, EC.TypesOf(locals), inT)
  {
  }

  predicate Found(c: Ctx, b: nat, i: nat, code: seq<Instr>)
    requires b < |c.p.blocks|
  {
    i + |code| <= |c.p.blocks[b].instrs| && c.p.blocks[b].instrs[i..i + |code|] == code
  }

  /** At the end of a finished block. */
  lemma JumpRuns(p: Program, b: nat, blk: Block, r: Regs)
    requires b < |p.blocks| && p.blocks[b] == blk && blk.term.Some?
    ensures var end := Step(p, At(b, |blk.instrs|, r));
            match blk.term.value
            case Jump(t) => end == At(t, 0, r)
            case Ret => end == Done(r.out)
            case Brif(v, y, e) =>
              match Tested(r.vals, v)
              case None => end == Fault
              case Some(taken) => end == At(if taken then y else e, 0, r)
  {
  }

  lemma StepsOne(p: Program, c: Config, n: nat)
    ensures Steps(p, c, n + 1) == Step(p, Steps(p, c, n))
  {
    StepsAdd(p, c, n, 1);
    assert Steps(p, Steps(p, c, n), 1) == Step(p, Steps(p, c, n)) by {
      assert Steps(p, Step(p, Steps(p, c, n)), 0) == Step(p, Steps(p, c, n));
    }
  }

  lemma AfterTrans(c: Ctx, n: nat, m: nat, s1: Store, s2: Store, r: Regs, r1: Regs, r2: Regs)
    requires After(c, n, s1, r, r1) && After(c, m, s2, r1, r2) && n <= m
    ensures After(c, n, s2, r, r2)
  {
  }

  ghost predicate StmtTyped(c: Ctx, st: Build, stmt: Stmt) {
    exists inLoop :: (inLoop ==> st.loops != []) && StmtTypes(stmt, EC.TypesOf(st.locals), c.t.inT, c.t.outT, inLoop).Some?
  }

  /** The next statement starts where the previous one arrived. */
  lemma NextStarts(c: Ctx, st: Build, a: Build, s: Store, s1: Store, r: Regs, r1: Regs)
    requires Starts(c, st, s, r) && After(c, st.nvals, s1, r, r1)
    requires Ready(c.t, a) && !a.terminated && st.nvals <= a.nvals && LocalsGrow(a.locals, c.locals)
    ensures Starts(c, a, s1, r1)
  {
  }

  /** What a later part of a statement arrives at, the whole statement arrives at. */
  lemma ArrivesLater(c: Ctx, st: Build, a: Build, z: Build, s1: Store, o: Outcome, r: Regs, r1: Regs, end: Config)
    requires z.cur < |z.blocks| && After(c, st.nvals, s1, r, r1) && Arrives(c, a, z, o, r1, end)
    requires st.nvals <= a.nvals && st.loops == a.loops
    ensures Arrives(c, st, z, o, r, end)
  {
  }

  /** Only the normal outcome depends on where the code ends. */
  lemma ArrivesElsewhere(c: Ctx, st: Build, a: Build, z: Build, o: Outcome, r: Regs, end: Config)
    requires a.cur < |a.blocks| && z.cur < |z.blocks| && Arrives(c, st, a, o, r, end) && !o.Normal?
    ensures Arrives(c, st, z, o, r, end)
  {
  }

  lemma GrowsLater(st: Build, a: Build)
    requires Grows(st, a)
    ensures Later(st, a) && a.cur < |a.blocks| && a.loops == st.loops && CodeIn(st.blocks, a.blocks)
  {
  }

  lemma LocalsGrowTrans(a: Locals, b: Locals, d: Locals)
    requires LocalsGrow(a, b) && LocalsGrow(b, d)
    ensures LocalsGrow(a, d)
  {
  }

  lemma {:induction false} BodySim(c: Ctx, fuel: nat, ss: seq<Stmt>, st: Build, s: Store, r: Regs) returns (n: nat)
    requires Starts(c, st, s, r) && BodyTyped(c, st, ss)
    requires LowerBody(c.t, st, ss).Ok? && In(c, LowerBody(c.t, st, ss).value)
    ensures LowerBody(c.t, st, ss).value.cur < |LowerBody(c.t, st, ss).value.blocks|
    ensures Arrives(c, st, LowerBody(c.t, st, ss).value, Exec(c.p.fpu, fuel, ss, c.x, s), r,
                    Steps(c.p, Here(st, r), n))
    ensures Exec(c.p.fpu, fuel, ss, c.x, s).Timeout? ==> n >= fuel
    decreases fuel, ss, 0
  {
    hide LowerStmt, ExecStmt, StmtTypes, Partly, Arrives, After, CodeIn, Steps, EC.Holds, EC.TypesOf, LocalsGrow, BlocksOk, LocalsOk;
    var inLoop :| (inLoop ==> st.loops != []) && BodyTypes(ss, EC.TypesOf(st.locals), c.t.inT, c.t.outT, inLoop).Some?;
    if ss == [] {
      n := 0;
      ZeroSteps(c.p, Here(st, r));
      EmptyArrives(c, st, s, r);
    } else {
      var a := LowerStmt(c.t, st, ss[0]).value;
      var z := LowerBody(c.t, st, ss).value;
      StmtAccepted(c.t, st, ss[0], inLoop);
      StmtGrows(c.t, st, ss[0]);
      GrowsLater(st, a);
      BodyGrows(c.t, a, ss[1..]);
      GrowsLater(a, z);
      CodeInTrans(a.blocks, z.blocks, c.p.blocks);
      LocalsGrowTrans(a.locals, z.locals, c.locals);
      var k := StmtSim(c, fuel, ss[0], st, s, r);
      var o := ExecStmt(c.p.fpu, fuel, ss[0], c.x, s);
      n := k;
      if o.Normal? {
        NormalArrives(c, st, a, o.s, r, Steps(c.p, Here(st, r), k));
        var r1 := Steps(c.p, Here(st, r), k).r;
        NextStarts(c, st, a, s, o.s, r, r1);
        assert BodyTypes(ss[1..], EC.TypesOf(a.locals), c.t.inT, c.t.outT, inLoop).Some?;
        var k1 := BodySim(c, fuel, ss[1..], a, o.s, r1);
        n := k + k1;
        StepsAdd(c.p, Here(st, r), k, k1);
        ArrivesLater(c, st, a, z, o.s, Exec(c.p.fpu, fuel, ss[1..], c.x, o.s), r, r1, Steps(c.p, Here(st, r), n));
      } else {
        ArrivesElsewhere(c, st, a, z, o, r, Steps(c.p, Here(st, r), k));
      }
    }
  }

  lemma NormalArrives(c: Ctx, st: Build, a: Build, s: Store, r: Regs, end: Config)
    requires a.cur < |a.blocks| && Arrives(c, st, a, Normal(s), r, end)
    ensures !a.terminated && end.At? && end == Here(a, end.r) && After(c, st.nvals, s, r, end.r)
  {
  }

  lemma EmptyArrives(c: Ctx, st: Build, s: Store, r: Regs)
    requires Starts(c, st, s, r)
    ensures Arrives(c, st, st, Normal(s), r, Here(st, r))
  {
  }

  lemma {:induction false} StmtSim(c: Ctx, fuel: nat, stmt: Stmt, st: Build, s: Store, r: Regs) returns (n: nat)
    requires Starts(c, st, s, r) && StmtTyped(c, st, stmt)
    requires LowerStmt(c.t, st, stmt).Ok? && In(c, LowerStmt(c.t, st, stmt).value)
    ensures LowerStmt(c.t, st, stmt).value.cur < |LowerStmt(c.t, st, stmt).value.blocks|
    ensures Arrives(c, st, LowerStmt(c.t, st, stmt).value, ExecStmt(c.p.fpu, fuel, stmt, c.x, s), r,
                    Steps(c.p, Here(st, r), n))
    ensures ExecStmt(c.p.fpu, fuel, stmt, c.x, s).Timeout? ==> n >= fuel
    decreases fuel, stmt, 3
  {
    hide Starts, StmtTyped, In, Ready, Grows, Arrives, Steps, StmtTypes;
    StartsReady(c, st, s, r);
    StmtGrows(c.t, st, stmt);
    GrowsLater(st, LowerStmt(c.t, st, stmt).value);
    match stmt {
      case Assign(_, _, _) => n := AssignSim(c, fuel, stmt, st, s, r);
      case Return(_) => n := ReturnSim(c, fuel, stmt, st, s, r);
      case Break => n := LeaveSim(c, fuel, stmt, st, s, r);
      case Continue => n := LeaveSim(c, fuel, stmt, st, s, r);
      case If(_, _, _) => n := IfSim(c, fuel, stmt, st, s, r);
      case While(_, _) => n := WhileSim(c, fuel, stmt, st, s, r);
      case ForRange(_, _, _, _) => n := ForSim(c, fuel, stmt, st, s, r);
    }
  }

  lemma LeaveSim(c: Ctx, fuel: nat, stmt: Stmt, st: Build, s: Store, r: Regs) returns (n: nat)
    requires (stmt.Break? || stmt.Continue?) && Starts(c, st, s, r)
    requires LowerStmt(c.t, st, stmt).Ok? && In(c, LowerStmt(c.t, st, stmt).value)
    ensures Arrives(c, st, LowerStmt(c.t, st, stmt).value, ExecStmt(c.p.fpu, fuel, stmt, c.x, s), r,
                    Steps(c.p, Here(st, r), n))
  {
    hide Step;
    JumpRuns(c.p, st.cur, LowerStmt(c.t, st, stmt).value.blocks[st.cur], r);
    StepsOne(c.p, Here(st, r), 0);
    n := 1;
  }

  lemma {:induction false} IfSim(c: Ctx, fuel: nat, stmt: Stmt, st: Build, s: Store, r: Regs) returns (n: nat)
    requires stmt.If? && Starts(c, st, s, r) && StmtTyped(c, st, stmt)
    requires LowerStmt(c.t, st, stmt).Ok? && In(c, LowerStmt(c.t, st, stmt).value)
    ensures LowerStmt(c.t, st, stmt).value.cur < |LowerStmt(c.t, st, stmt).value.blocks|
    ensures Arrives(c, st, LowerStmt(c.t, st, stmt).value, ExecStmt(c.p.fpu, fuel, stmt, c.x, s), r,
                    Steps(c.p, Here(st, r), n))
    ensures ExecStmt(c.p.fpu, fuel, stmt, c.x, s).Timeout? ==> n >= fuel
    decreases fuel, stmt, 2
  {
    hide LowerStmt, Partly, Arrives, After, CodeIn, ExprCode, Eval, ExprType, IsTest, BodyTypes, LowerBody, Ready;
    hide Later, Fill, IfHead, EC.Kept, EC.Holds, Run, Steps, Starts, EC.TypesOf, LocalsGrow;
    var inLoop :| (inLoop ==> st.loops != []) && StmtTypes(stmt, EC.TypesOf(st.locals), c.t.inT, c.t.outT, inLoop).Some?;
    var b := |st.blocks|;
    StartsReady(c, st, s, r);
    var st0, st1, st2, st3 := IfParts(c.t, st, stmt);
    var z := Fill(st3, b + 2, b + 2);
    IfIn(c, st0.blocks, st1.blocks, st2.blocks, st3.blocks, z.blocks);
    var k := ExprCode(c.t, st.locals, stmt.test, I64, st.nvals).value;
    IfHeadSame(st, k);
    FillSame(st3, b + 2, b + 2);
    IfLocals(c, st, st0, st1, st2, st3, b);
    var m, r1 := IfHeadRuns(c, st, k, stmt.test, s, r);
    n := m;
    var taken := EvalTest(c.p.fpu, stmt.test, c.x, s);
    if taken.Some? {
      BodyAccepted(c.t, st0, stmt.thenBody, inLoop);
      if taken.value {
        NextStarts(c, st, st0, s, s, r, r1);
        assert BodyTypes(stmt.thenBody, EC.TypesOf(st0.locals), c.t.inT, c.t.outT, inLoop).Some?;
        var k1 := BranchSim(c, fuel, stmt.thenBody, st, st0, z, b + 1, s, r, r1);
        n := m + k1;
      } else {
        NextStarts(c, st, st2, s, s, r, r1);
        assert BodyTypes(stmt.elseBody, EC.TypesOf(st2.locals), c.t.inT, c.t.outT, inLoop).Some?;
        var k1 := BranchSim(c, fuel, stmt.elseBody, st, st2, z, b + 2, s, r, r1);
        n := m + k1;
      }
      StepsAdd(c.p, Here(st, r), m, n - m);
    } else {
      TrapArrives(c, st, z, r, Steps(c.p, Here(st, r), n));
    }
  }

  lemma StartsReady(c: Ctx, st: Build, s: Store, r: Regs)
    requires Starts(c, st, s, r)
    ensures Ready(c.t, st) && !st.terminated && st.cur < |st.blocks| && LocalsGrow(st.locals, c.locals)
    ensures c.t.exit < |st.blocks|
  {
  }

  lemma TrapArrives(c: Ctx, st: Build, z: Build, r: Regs, end: Config)
    requires z.cur < |z.blocks| && end == Fault
    ensures Arrives(c, st, z, Trapped, r, end)
  {
  }

  lemma IfHeadSame(st: Build, k: Code)
    ensures IfHead(st, k).locals == st.locals && (st.cur < |st.blocks| ==> IfHead(st, k).nvals == k.next)
  {
  }

  lemma FillSame(st: Build, next: nat, b: nat)
    ensures var r := Fill(st, next, b);
            r.locals == st.locals && r.nvals == st.nvals && r.loops == st.loops && r.cur == b && |r.blocks| == |st.blocks| && !r.terminated
  {
  }

  lemma IfLocals(c: Ctx, st: Build, st0: Build, st1: Build, st2: Build, st3: Build, b: nat)
    requires st0.locals == st.locals && st.nvals <= st0.nvals && Later(st0, st1) && Later(st2, st3)
    requires st2 == Fill(st1, b + 2, b + 1) && LocalsGrow(st3.locals, c.locals)
    ensures LocalsGrow(st1.locals, c.locals) && LocalsGrow(st0.locals, c.locals) && LocalsGrow(st2.locals, c.locals)
    ensures st2.locals == st1.locals && st.nvals <= st2.nvals && st2.cur == b + 1
  {
    FillSame(st1, b + 2, b + 1);
    LocalsGrowTrans(st2.locals, st3.locals, c.locals);
    LocalsGrowTrans(st0.locals, st1.locals, c.locals);
  }

  /** A branch from its first block to where the branches meet again. */
  lemma {:induction false} BranchSim(c: Ctx, fuel: nat, ss: seq<Stmt>, st: Build, st0: Build, z: Build, b: nat,
                                     s: Store, r: Regs, r1: Regs) returns (n: nat)
    requires Starts(c, st0, s, r1) && BodyTyped(c, st0, ss) && st0.cur < |st0.blocks| && st0.blocks[st0.cur] == EMPTY
    requires LowerBody(c.t, st0, ss).Ok? && In(c, LowerBody(c.t, st0, ss).value)
    requires CodeIn(Fill(LowerBody(c.t, st0, ss).value, z.cur, b).blocks, c.p.blocks)
    requires z.cur < |z.blocks| && z.blocks[z.cur] == EMPTY && !z.terminated
    requires After(c, st.nvals, s, r, r1) && st.nvals <= st0.nvals && st.loops == st0.loops
    ensures Arrives(c, st, z, Exec(c.p.fpu, fuel, ss, c.x, s), r, Steps(c.p, At(st0.cur, 0, r1), n))
    ensures Exec(c.p.fpu, fuel, ss, c.x, s).Timeout? ==> n >= fuel
    decreases fuel, ss, 1
  {
    hide Starts, BodyTyped, LowerBody, In, CodeIn, Fill, After, Exec, Arrives, Steps;
    var e := LowerBody(c.t, st0, ss).value;
    var o := Exec(c.p.fpu, fuel, ss, c.x, s);
    n := BodySim(c, fuel, ss, st0, s, r1);
    var end := Steps(c.p, Here(st0, r1), n);
    if o.Normal? {
      NormalArrives(c, st0, e, o.s, r1, end);
      FallsThrough(c, e, z.cur, b, end.r);
      StepsOne(c.p, Here(st0, r1), n);
      n := n + 1;
      ArrivesHere(c, st0, z, o.s, r1, end.r);
      ArrivesLater(c, st, st0, z, s, o, r, r1, Here(z, end.r));
    } else {
      ArrivesElsewhere(c, st0, e, z, o, r1, end);
      ArrivesLater(c, st, st0, z, s, o, r, r1, end);
    }
  }

  lemma ArrivesHere(c: Ctx, st: Build, z: Build, s: Store, r: Regs, r1: Regs)
    requires z.cur < |z.blocks| && !z.terminated && After(c, st.nvals, s, r, r1)
    ensures Arrives(c, st, z, Normal(s), r, Here(z, r1))
  {
  }

  lemma FallsThrough(c: Ctx, st: Build, next: nat, b: nat, r: Regs)
    requires !st.terminated && st.cur < |st.blocks| && CodeIn(Fill(st, next, b).blocks, c.p.blocks)
    ensures Step(c.p, Here(st, r)) == At(next, 0, r)
  {
  }

  lemma IfIn(c: Ctx, a: seq<Block>, b: seq<Block>, d: seq<Block>, e: seq<Block>, z: seq<Block>)
    requires CodeIn(a, b) && CodeIn(b, d) && CodeIn(d, e) && CodeIn(e, z) && CodeIn(z, c.p.blocks)
    ensures CodeIn(a, c.p.blocks) && CodeIn(b, c.p.blocks) && CodeIn(d, c.p.blocks) && CodeIn(e, c.p.blocks)
  {
    hide CodeIn;
    CodeInTrans(e, z, c.p.blocks);
    CodeInTrans(d, e, c.p.blocks);
    CodeInTrans(b, d, c.p.blocks);
    CodeInTrans(a, b, c.p.blocks);
  }

  /** The test of a conditional: the run goes to the block of the branch it takes. */
  lemma IfHeadRuns(c: Ctx, st: Build, k: Code, e: Expr, s: Store, r: Regs) returns (n: nat, r1: Regs)
    requires Starts(c, st, s, r) && EC.Fits(e, I64, st.locals, c.t.inT)
    requires ExprCode(c.t, st.locals, e, I64, st.nvals) == Ok(k) && CodeIn(IfHead(st, k).blocks, c.p.blocks)
    ensures match EvalTest(c.p.fpu, e, c.x, s)
            case None => Steps(c.p, Here(st, r), n) == Fault
            case Some(taken) =>
              && Steps(c.p, Here(st, r), n) == At(if taken then |st.blocks| else |st.blocks| + 1, 0, r1)
              && After(c, st.nvals, s, r, r1) && Starts(c, st, s, r1)
  {
    hide ExprCode, Eval, Run, Steps, Step, ExprType, IsTest;
    var i := |st.blocks[st.cur].instrs|;
    assert Found(c, st.cur, i, k.instrs);
    var m, q := ExprRuns(c, st.cur, i, st.locals, e, I64, st.nvals, s, r);
    n, r1 := m, q;
    if Eval(c.p.fpu, e, c.x, s).Some? {
      JumpRuns(c.p, st.cur, IfHead(st, k).blocks[st.cur], r1);
      StepsOne(c.p, Here(st, r), m);
      n := m + 1;
    }
  }

  // ----- loops -----

  /** A loop body lowered between `st0` and `st1`, going round through `f.header` and leaving to `z`. */
  ghost predicate Around(c: Ctx, body: seq<Stmt>, st: Build, st0: Build, z: Build, f: LoopFrame) {
    && Ready(c.t, st0) && !st0.terminated && st0.cur < |st0.blocks| && st0.blocks[st0.cur] == EMPTY
    && st0.loops == st.loops + [f] && st.nvals <= st0.nvals && LocalsGrow(st0.locals, c.locals)
    && BodyTyped(c, st0, body)
    && LowerBody(c.t, st0, body).Ok? && In(c, LowerBody(c.t, st0, body).value)
    && CodeIn(Fill(PopLoop(LowerBody(c.t, st0, body).value), f.header, f.exit).blocks, c.p.blocks)
    && z.cur == f.exit && z.cur < |z.blocks| && z.blocks[z.cur] == EMPTY && !z.terminated
  }

  /** One round of a loop body: on to the next round, or out of the loop. */
  predicate Rounds(c: Ctx, st: Build, z: Build, f: LoopFrame, o: Outcome, r: Regs, end: Config)
    requires z.cur < |z.blocks|
  {
    match o
    case Normal(s) => end.At? && end == At(f.header, 0, end.r) && After(c, st.nvals, s, r, end.r)
    case Continued(s) => end.At? && end == At(f.header, 0, end.r) && After(c, st.nvals, s, r, end.r)
    case Broke(s) => Arrives(c, st, z, Normal(s), r, end)
    case _ => Arrives(c, st, z, o, r, end)
  }

  lemma {:induction false} RoundSim(c: Ctx, fuel: nat, body: seq<Stmt>, st: Build, st0: Build, z: Build, f: LoopFrame,
                                    s: Store, r: Regs, r1: Regs) returns (n: nat)
    requires Around(c, body, st, st0, z, f) && Starts(c, st0, s, r1) && After(c, st.nvals, s, r, r1)
    ensures Rounds(c, st, z, f, Exec(c.p.fpu, fuel, body, c.x, s), r, Steps(c.p, At(st0.cur, 0, r1), n))
    ensures Exec(c.p.fpu, fuel, body, c.x, s).Timeout? ==> n >= fuel
    decreases fuel, body, 1
  {
    hide Starts, BodyTyped, LowerBody, CodeIn, Fill, Exec, Steps, Ready, After, Step;
    var e := LowerBody(c.t, st0, body).value;
    var o := Exec(c.p.fpu, fuel, body, c.x, s);
    n := BodySim(c, fuel, body, st0, s, r1);
    var end := Steps(c.p, Here(st0, r1), n);
    if o.Normal? {
      FallsThrough(c, PopLoop(e), f.header, f.exit, end.r);
      StepsOne(c.p, Here(st0, r1), n);
      n := n + 1;
    }
    RoundsFrom(c, st, st0, z, e, f, s, o, r, r1, end);
  }

  lemma RoundsFrom(c: Ctx, st: Build, st0: Build, z: Build, e: Build, f: LoopFrame, s: Store, o: Outcome,
                   r: Regs, r1: Regs, end: Config)
    requires e.cur < |e.blocks| && Arrives(c, st0, e, o, r1, end) && After(c, st.nvals, s, r, r1)
    requires st0.loops == st.loops + [f] && st.nvals <= st0.nvals
    requires z.cur == f.exit && z.cur < |z.blocks| && z.blocks[z.cur] == EMPTY && !z.terminated
    ensures o.Normal? ==> end.At? && Rounds(c, st, z, f, o, r, At(f.header, 0, end.r))
    ensures !o.Normal? ==> Rounds(c, st, z, f, o, r, end)
  {
    if o.Normal? || o.Broke? || o.Continued? || o.Returned? {
      AfterTrans(c, st.nvals, st0.nvals, s, o.s, r, r1, end.r);
    }
  }

  lemma RoundTail(c: Ctx, st: Build, z: Build, s: Store, o: Outcome, r: Regs, r1: Regs, end: Config)
    requires z.cur < |z.blocks| && After(c, st.nvals, s, r, r1) && Arrives(c, st, z, o, r1, end)
    ensures Arrives(c, st, z, o, r, end)
  {
    ArrivesLater(c, st, st, z, s, o, r, r1, end);
  }

  lemma WhileBlocks(st: Build, k: Code)
    requires st.cur < |st.blocks|
    ensures var b, r := |st.blocks|, WhileHead(st, k);
            && |r.blocks| == b + 3 && r.locals == st.locals && r.nvals == k.next
            && r.blocks[st.cur] == Block(st.blocks[st.cur].instrs, Some(Jump(b)))
            && r.blocks[b] == Block(k.instrs, Some(Brif(k.res, b + 1, b + 2)))
  {
  }

  /** A `while` header: the run goes to the body or to the exit. */
  lemma WhileHeaderRuns(c: Ctx, st: Build, k: Code, e: Expr, s: Store, r: Regs) returns (n: nat, r1: Regs)
    requires Starts(c, st, s, r) && EC.Fits(e, I64, st.locals, c.t.inT)
    requires ExprCode(c.t, st.locals, e, I64, st.nvals) == Ok(k) && CodeIn(WhileHead(st, k).blocks, c.p.blocks)
    ensures n > 0
    ensures match EvalTest(c.p.fpu, e, c.x, s)
            case None => Steps(c.p, At(|st.blocks|, 0, r), n) == Fault
            case Some(taken) =>
              && Steps(c.p, At(|st.blocks|, 0, r), n) == At(if taken then |st.blocks| + 1 else |st.blocks| + 2, 0, r1)
              && After(c, st.nvals, s, r, r1)
  {
    hide ExprCode, Eval, Run, Step, ExprType, IsTest, WhileHead;
    var b := |st.blocks|;
    WhileBlocks(st, k);
    assert c.p.blocks[b] == WhileHead(st, k).blocks[b];
    assert Found(c, b, 0, k.instrs);
    var m, q := ExprRuns(c, b, 0, st.locals, e, I64, st.nvals, s, r);
    n, r1 := m, q;
    StepsOne(c.p, At(b, 0, r), m);
    if Eval(c.p.fpu, e, c.x, s).Some? {
      JumpRuns(c.p, b, WhileHead(st, k).blocks[b], r1);
    } else {
      assert Step(c.p, Fault) == Fault by { FaultStays(c.p); }
    }
    n := m + 1;
  }

  lemma FaultStays(p: Program)
    ensures Step(p, Fault) == Fault
  {
  }

  lemma {:induction false} WhileSim(c: Ctx, fuel: nat, stmt: Stmt, st: Build, s: Store, r: Regs) returns (n: nat)
    requires stmt.While? && Starts(c, st, s, r) && StmtTyped(c, st, stmt)
    requires LowerStmt(c.t, st, stmt).Ok? && In(c, LowerStmt(c.t, st, stmt).value)
    ensures LowerStmt(c.t, st, stmt).value.cur < |LowerStmt(c.t, st, stmt).value.blocks|
    ensures Arrives(c, st, LowerStmt(c.t, st, stmt).value, ExecStmt(c.p.fpu, fuel, stmt, c.x, s), r,
                    Steps(c.p, Here(st, r), n))
    ensures ExecStmt(c.p.fpu, fuel, stmt, c.x, s).Timeout? ==> n >= fuel
    decreases fuel, stmt, 2
  {
    hide LowerStmt, Partly, Arrives, After, CodeIn, ExprCode, Eval, ExprType, IsTest, BodyTypes, LowerBody, Ready;
    hide Later, Fill, WhileHead, EC.Kept, EC.Holds, Run, Steps, Step, Starts, EC.TypesOf, LocalsGrow, ExecWhile;
    var inLoop :| (inLoop ==> st.loops != []) && StmtTypes(stmt, EC.TypesOf(st.locals), c.t.inT, c.t.outT, inLoop).Some?;
    var b := |st.blocks|;
    var f := LoopFrame(b, b + 2);
    StartsReady(c, st, s, r);
    var st0, st1 := WhileParts(c.t, st, stmt);
    var z := Fill(PopLoop(st1), b, b + 2);
    var k := ExprCode(c.t, st.locals, stmt.cond, I64, st.nvals).value;
    WhileBlocks(st, k);
    FillSame(PopLoop(st1), b, b + 2);
    LoopIn(c, st0, st1, z);
    WhileHeadLoops(st, k);
    assert BodyTypes(stmt.wbody, EC.TypesOf(st0.locals), c.t.inT, c.t.outT, true).Some?;
    assert Around(c, stmt.wbody, st, st0, z, f);
    var m := WhileLoop(c, fuel, stmt, st, st0, z, k, s, r);
    JumpFrom(c, st0, st.cur, b, r);
    assert Steps(c.p, Here(st, r), 1) == At(b, 0, r) by { StepsOne(c.p, Here(st, r), 0); ZeroSteps(c.p, Here(st, r)); }
    StepsAdd(c.p, Here(st, r), 1, m);
    n := 1 + m;
  }

  lemma ZeroSteps(p: Program, c: Config)
    ensures Steps(p, c, 0) == c
  {
  }

  lemma WhileHeadLoops(st: Build, k: Code)
    ensures WhileHead(st, k).loops == st.loops
  {
  }

  lemma LoopIn(c: Ctx, st0: Build, st1: Build, z: Build)
    requires CodeIn(st0.blocks, st1.blocks) && CodeIn(st1.blocks, z.blocks) && CodeIn(z.blocks, c.p.blocks)
    requires Later(st0, st1) && z.locals == st1.locals && LocalsGrow(z.locals, c.locals)
    ensures CodeIn(st0.blocks, c.p.blocks) && In(c, st1) && LocalsGrow(st0.locals, c.locals)
  {
    hide CodeIn;
    CodeInTrans(st1.blocks, z.blocks, c.p.blocks);
    CodeInTrans(st0.blocks, st1.blocks, c.p.blocks);
    LocalsGrowTrans(st0.locals, st1.locals, c.locals);
  }

  lemma JumpFrom(c: Ctx, st: Build, cur: nat, b: nat, r: Regs)
    requires CodeIn(st.blocks, c.p.blocks) && cur < |st.blocks| && st.blocks[cur].term == Some(Jump(b))
    ensures Step(c.p, At(cur, |st.blocks[cur].instrs|, r)) == At(b, 0, r)
  {
  }

  lemma {:induction false} WhileLoop(c: Ctx, fuel: nat, stmt: Stmt, st: Build, st0: Build, z: Build, k: Code,
                                     s: Store, r: Regs) returns (n: nat)
    requires stmt.While? && Starts(c, st, s, r) && EC.Fits(stmt.cond, I64, st.locals, c.t.inT)
    requires ExprCode(c.t, st.locals, stmt.cond, I64, st.nvals) == Ok(k) && CodeIn(WhileHead(st, k).blocks, c.p.blocks)
    requires Around(c, stmt.wbody, st, st0, z, LoopFrame(|st.blocks|, |st.blocks| + 2)) && st0.cur == |st.blocks| + 1
    ensures Arrives(c, st, z, ExecWhile(c.p.fpu, fuel, stmt.cond, stmt.wbody, c.x, s), r,
                    Steps(c.p, At(|st.blocks|, 0, r), n))
    ensures ExecWhile(c.p.fpu, fuel, stmt.cond, stmt.wbody, c.x, s).Timeout? ==> n >= fuel
    decreases fuel, stmt, 1
  {
    hide Starts, BodyTyped, LowerBody, CodeIn, Fill, Exec, Steps, Step, Ready, After, ExprCode, Eval, WhileHead, EC.Fits, LocalsGrow;
    var b := |st.blocks|;
    if fuel == 0 {
      n := 0;
      ZeroSteps(c.p, At(b, 0, r));
      StartsReady(c, st, s, r);
    } else {
      var m, r1 := WhileHeaderRuns(c, st, k, stmt.cond, s, r);
      n := m;
      var taken := EvalTest(c.p.fpu, stmt.cond, c.x, s);
      if taken == Some(true) {
        NextStarts(c, st, st0, s, s, r, r1);
        var m1 := RoundSim(c, fuel, stmt.wbody, st, st0, z, LoopFrame(b, b + 2), s, r, r1);
        var o := Exec(c.p.fpu, fuel, stmt.wbody, c.x, s);
        StepsAdd(c.p, At(b, 0, r), m, m1);
        n := m + m1;
        if o.Normal? || o.Continued? {
          var r2 := Steps(c.p, At(b, 0, r), n).r;
          StartsAgain(c, st, s, o.s, r, r2);
          var m2 := WhileLoop(c, fuel - 1, stmt, st, st0, z, k, o.s, r2);
          StepsAdd(c.p, At(b, 0, r), n, m2);
          RoundTail(c, st, z, o.s, ExecWhile(c.p.fpu, fuel - 1, stmt.cond, stmt.wbody, c.x, o.s), r, r2,
                    Steps(c.p, At(b, 0, r), n + m2));
          n := n + m2;
        }
      }
    }
  }

  /** After a round the loop may start again. */
  lemma StartsAgain(c: Ctx, st: Build, s: Store, s1: Store, r: Regs, r1: Regs)
    requires Starts(c, st, s, r) && After(c, st.nvals, s1, r, r1)
    ensures Starts(c, st, s1, r1)
  {
  }

  /** The blocks of a counted loop before its body. */
  lemma ForBlocks(st: Build, v: string, from: Code, to: Code)
    requires st.cur < |st.blocks|
    ensures var b, r, n, x := |st.blocks|, ForHead(st, v, from, to), to.next, VarOf(st, v);
            && |r.blocks| == b + 4 && r.locals == Declare(st, v, I64).locals && r.nvals == n + 5 && r.loops == st.loops
            && r.blocks[st.cur] == Block(st.blocks[st.cur].instrs + (from.instrs + to.instrs + [DefVar(x, from.res)]), Some(Jump(b)))
            && r.blocks[b] == Block(ForTest(n, x, to.res), Some(Brif(n + 1, b + 1, b + 2)))
            && r.blocks[b + 3] == Block(ForStep(n + 2, x), Some(Jump(b)))
    ensures VarOf(st, v) == Declare(st, v, I64).locals[v].v && v in Declare(st, v, I64).locals
  {
    hide ForTest, ForStep;
    var b, n, x := |st.blocks|, to.next, VarOf(st, v);
    var e := ForEntry(st, v, from, to);
    assert |e.blocks| == b + 3 && e.cur == b && e.blocks[b] == EMPTY;
    assert e.blocks[st.cur] == Block(st.blocks[st.cur].instrs + (from.instrs + to.instrs + [DefVar(x, from.res)]), Some(Jump(b)));
    var h := ForHeader(st, v, from, to);
    assert |h.blocks| == b + 4 && h.cur == b + 3 && h.blocks[b + 3] == EMPTY;
    assert h.blocks[st.cur] == e.blocks[st.cur];
    assert h.blocks[b] == Block([] + ForTest(n, x, to.res), Some(Brif(n + 1, b + 1, b + 2)));
    assert [] + ForTest(n, x, to.res) == ForTest(n, x, to.res);
    assert [] + ForStep(n + 2, x) == ForStep(n + 2, x);
  }

  /** What a counted loop keeps across rounds: the code of its head, the counter, and its bound. */
  predicate Counting(c: Ctx, st: Build, v: string, from: Code, to: Code, end: I64, s: Store, r: Regs) {
    && st.cur < |st.blocks| && c.t.exit < |st.blocks| && CodeIn(ForHead(st, v, from, to).blocks, c.p.blocks) && OkCtx(c)
    && v in c.locals && c.locals[v] == Slot(VarOf(st, v), I64)
    && to.res < to.next && Lookup(r.vals, to.res) == Some(IntV(end))
    && c.t.param < to.next && Lookup(r.vals, c.t.param) == Some(c.x)
    && EC.Holds(c.locals, s, r.vars)
  }

  /** Seen from a counted loop, only what its head has computed must be kept. */
  function Bounded(st: Build, to: Code): Build { st.(nvals := to.next) }

  lemma RunTwo(p: Program, a: Instr, b: Instr, r: Regs, r1: Regs, r2: Regs)
    requires ExecInstr(p, a, r) == Some(r1) && ExecInstr(p, b, r1) == Some(r2)
    ensures Run(p, [a, b], r) == Some(r2)
  {
    hide ExecInstr;
    assert [a, b][1..] == [b];
    assert [b][1..] == [];
    assert Run(p, [b], r1) == Some(r2);
  }

  /** What the test of a counted loop leaves in the registers. */
  function Compared(r: Regs, k: nat, n: I64, end: I64): Regs {
    r.(vals := r.vals[k := IntV(n)][k + 1 := FlagV(n < end)])
  }

  lemma TestRuns(p: Program, k: nat, x: nat, bound: nat, n: I64, end: I64, r: Regs)
    requires bound < k && Lookup(r.vars, x) == Some(IntV(n)) && Lookup(r.vals, bound) == Some(IntV(end))
    ensures Run(p, ForTest(k, x, bound), r) == Some(Compared(r, k, n, end))
  {
    hide Run;
    RunTwo(p, UseVar(k, x), Icmp(k + 1, Lt, k, bound), r, r.(vals := r.vals[k := IntV(n)]), Compared(r, k, n, end));
  }

  /** A block that is nothing but `code` and a terminator. */
  lemma BlockRuns(p: Program, b: nat, code: seq<Instr>, term: Terminator, r: Regs, r1: Regs) returns (n: nat)
    requires b < |p.blocks| && p.blocks[b] == Block(code, Some(term)) && Run(p, code, r) == Some(r1)
    ensures n > 0 && Steps(p, At(b, 0, r), n) == Step(p, At(b, |code|, r1))
  {
    hide Run, Steps, Step;
    assert p.blocks[b].instrs[0..0 + |code|] == code;
    n := RunSteps(p, b, 0, code, r);
    StepsOne(p, At(b, 0, r), n);
    n := n + 1;
  }

  lemma BlockIn(a: seq<Block>, g: seq<Block>, b: nat)
    requires CodeIn(a, g) && b < |a| && a[b].term.Some?
    ensures b < |g| && g[b] == a[b]
  {
  }

  lemma CounterHeld(c: Ctx, v: string, x: nat, s: Store, r: Regs)
    requires v in c.locals && c.locals[v] == Slot(x, I64) && EC.Holds(c.locals, s, r.vars)
    ensures v in s && s[v].IntV? && Lookup(r.vars, x) == Some(s[v])
  {
  }

  /** The header of a counted loop. */
  lemma ForHeaderRuns(c: Ctx, st: Build, v: string, from: Code, to: Code, end: I64, s: Store, r: Regs) returns (n: nat, r1: Regs)
    requires Counting(c, st, v, from, to, end, s, r)
    ensures n > 0 && v in s && s[v].IntV?
    ensures var b := |st.blocks|;
            Steps(c.p, At(b, 0, r), n) == At(if s[v].n < end then b + 1 else b + 2, 0, r1)
    ensures After(c, to.next, s, r, r1)
  {
    hide Steps, Step, ForHead, Run, CodeIn, EC.Holds, ForTest;
    var b, k, x := |st.blocks|, to.next, VarOf(st, v);
    ForBlocks(st, v, from, to);
    BlockIn(ForHead(st, v, from, to).blocks, c.p.blocks, b);
    CounterHeld(c, v, x, s, r);
    r1 := Compared(r, k, s[v].n, end);
    TestRuns(c.p, k, x, to.res, s[v].n, end, r);
    n := BlockRuns(c.p, b, ForTest(k, x, to.res), Brif(k + 1, b + 1, b + 2), r, r1);
    JumpRuns(c.p, b, c.p.blocks[b], r1);
  }

  /** What the increment leaves in the registers. */
  function Incremented(r: Regs, k: nat, x: nat, n: I64): Regs {
    r.(vals := r.vals[k := IntV(n)][k + 1 := IntV(1)][k + 2 := IntV(Wrap(n + 1))], vars := r.vars[x := IntV(Wrap(n + 1))])
  }

  lemma IncrementRuns(p: Program, k: nat, x: nat, n: I64, r: Regs)
    requires Lookup(r.vars, x) == Some(IntV(n))
    ensures Run(p, ForStep(k, x), r) == Some(Incremented(r, k, x, n))
  {
    hide Run, Wrap;
    var q1 := r.(vals := r.vals[k := IntV(n)]);
    var q2 := q1.(vals := q1.vals[k + 1 := IntV(1)]);
    var q3 := q2.(vals := q2.vals[k + 2 := IntV(Wrap(n + 1))]);
    RunTwo(p, UseVar(k, x), Iconst(k + 1, 1), r, q1, q2);
    RunTwo(p, IntBin(k + 2, Iadd, k, k + 1), DefVar(x, k + 2), q2, q3, Incremented(r, k, x, n));
    RunConcat(p, [UseVar(k, x), Iconst(k + 1, 1)], [IntBin(k + 2, Iadd, k, k + 1), DefVar(x, k + 2)], r);
    assert ForStep(k, x) == [UseVar(k, x), Iconst(k + 1, 1)] + [IntBin(k + 2, Iadd, k, k + 1), DefVar(x, k + 2)];
  }

  lemma BumpHeld(c: Ctx, v: string, x: nat, n: nat, s: Store, r: Regs, k: nat)
    requires OkCtx(c) && v in c.locals && c.locals[v] == Slot(x, I64) && EC.Holds(c.locals, s, r.vars) && n <= k
    requires v in s && s[v].IntV?
    ensures After(c, n, Bump(s, v), r, Incremented(r, k, x, s[v].n))
  {
    hide Wrap;
  }

  /** The increment of a counted loop, which wraps around. */
  lemma ForStepRuns(c: Ctx, st: Build, v: string, from: Code, to: Code, end: I64, s: Store, r: Regs) returns (n: nat, r1: Regs)
    requires Counting(c, st, v, from, to, end, s, r)
    ensures Steps(c.p, At(|st.blocks| + 3, 0, r), n) == At(|st.blocks|, 0, r1)
    ensures After(c, to.next, Bump(s, v), r, r1)
  {
    hide Steps, Step, ForHead, Run, Wrap, ExecInstr, ForStep, CodeIn, EC.Holds, After, Incremented;
    var b, k, x := |st.blocks|, to.next + 2, VarOf(st, v);
    ForBlocks(st, v, from, to);
    BlockIn(ForHead(st, v, from, to).blocks, c.p.blocks, b + 3);
    CounterHeld(c, v, x, s, r);
    r1 := Incremented(r, k, x, s[v].n);
    IncrementRuns(c.p, k, x, s[v].n, r);
    BumpHeld(c, v, x, to.next, s, r, k);
    n := BlockRuns(c.p, b + 3, ForStep(k, x), Jump(b), r, r1);
    JumpRuns(c.p, b + 3, c.p.blocks[b + 3], r1);
  }

  /** Before a counted loop both bounds are evaluated, once, and the counter is set. */
  lemma ForEntryRuns(c: Ctx, st: Build, stmt: Stmt, from: Code, to: Code, s: Store, r: Regs) returns (n: nat, r1: Regs)
    requires stmt.ForRange? && Starts(c, st, s, r)
    requires ExprType(stmt.start, EC.TypesOf(st.locals), c.t.inT) == Some(I64)
    requires ExprType(stmt.end, EC.TypesOf(st.locals), c.t.inT) == Some(I64)
    requires ExprCode(c.t, st.locals, stmt.start, I64, st.nvals) == Ok(from)
    requires ExprCode(c.t, st.locals, stmt.end, I64, from.next) == Ok(to)
    requires CodeIn(ForHead(st, stmt.loopVar, from, to).blocks, c.p.blocks)
    requires stmt.loopVar in c.locals && c.locals[stmt.loopVar] == Slot(VarOf(st, stmt.loopVar), I64)
    ensures match (Eval(c.p.fpu, stmt.start, c.x, s), Eval(c.p.fpu, stmt.end, c.x, s))
            case (Some(a), Some(z)) =>
              && z.IntV? && Steps(c.p, Here(st, r), n) == At(|st.blocks|, 0, r1)
              && After(c, st.nvals, s[stmt.loopVar := a], r, r1)
              && Counting(c, st, stmt.loopVar, from, to, z.n, s[stmt.loopVar := a], r1)
            case _ => Steps(c.p, Here(st, r), n) == Fault
  {
    hide ExprCode, Eval, Run, Steps, Step, ExprType, IsTest, ForHead, CodeIn, ExecInstr, EC.Holds, EC.Kept, Ready, After, Counting;
    StartsReady(c, st, s, r);
    var b, i, x := |st.blocks|, |st.blocks[st.cur].instrs|, VarOf(st, stmt.loopVar);
    ForBlocks(st, stmt.loopVar, from, to);
    BlockIn(ForHead(st, stmt.loopVar, from, to).blocks, c.p.blocks, st.cur);
    var blk := ForHead(st, stmt.loopVar, from, to).blocks[st.cur];
    ForCode(c, st, from, to, DefVar(x, from.res));
    var m, q := ExprRuns(c, st.cur, i, st.locals, stmt.start, I64, st.nvals, s, r);
    n, r1 := m, q;
    var u, w := Eval(c.p.fpu, stmt.start, c.x, s), Eval(c.p.fpu, stmt.end, c.x, s);
    if u.Some? {
      KeptAt(r.vals, q.vals, st.nvals, c.t.param);
      var m1, q1 := ExprRuns(c, st.cur, i + |from.instrs|, st.locals, stmt.end, I64, from.next, s, q);
      StepsAdd(c.p, Here(st, r), m, m1);
      n := m + m1;
      if w.Some? {
        r1 := q1.(vars := q1.vars[x := u.value]);
        CountingBegins(c, st, stmt.loopVar, from, to, u.value, w.value.n, s, r, q, q1);
        DefVarExec(c.p, x, from.res, u.value, q1);
        InstrAt(c.p, st.cur, i + |from.instrs| + |to.instrs|, DefVar(x, from.res), q1, r1);
        StepsOne(c.p, Here(st, r), n);
        JumpRuns(c.p, st.cur, blk, r1);
        StepsOne(c.p, Here(st, r), n + 1);
        n := n + 2;
      }
    }
  }

  lemma KeptAt(a: map<nat, Val>, b: map<nat, Val>, n: nat, k: nat)
    requires EC.Kept(a, b, n) && k < n && k in a
    ensures Lookup(b, k) == Lookup(a, k)
  {
  }

  lemma CountingBegins(c: Ctx, st: Build, v: string, from: Code, to: Code, u: Val, end: I64, s: Store, r: Regs, q: Regs, q1: Regs)
    requires Starts(c, st, s, r) && CodeIn(ForHead(st, v, from, to).blocks, c.p.blocks)
    requires v in c.locals && c.locals[v] == Slot(VarOf(st, v), I64) && HasType(u, I64)
    requires EC.Kept(r.vals, q.vals, st.nvals) && q.vars == r.vars && q.out == r.out && Lookup(q.vals, from.res) == Some(u)
    requires EC.Kept(q.vals, q1.vals, from.next) && q1.vars == q.vars && q1.out == q.out && Lookup(q1.vals, to.res) == Some(IntV(end))
    requires st.nvals <= from.next <= to.next && from.res < from.next && to.res < to.next
    ensures var r1 := q1.(vars := q1.vars[VarOf(st, v) := u]);
            After(c, st.nvals, s[v := u], r, r1) && Counting(c, st, v, from, to, end, s[v := u], r1)
    ensures Lookup(q1.vals, from.res) == Some(u)
  {
    hide CodeIn, ForHead;
  }

  lemma InstrAt(p: Program, b: nat, i: nat, ins: Instr, r: Regs, r1: Regs)
    requires b < |p.blocks| && i < |p.blocks[b].instrs| && p.blocks[b].instrs[i] == ins
    requires ExecInstr(p, ins, r) == Some(r1)
    ensures Step(p, At(b, i, r)) == At(b, i + 1, r1)
  {
  }

  lemma ForCode(c: Ctx, st: Build, from: Code, to: Code, ins: Instr)
    requires st.cur < |st.blocks| && st.cur < |c.p.blocks|
    requires c.p.blocks[st.cur].instrs == st.blocks[st.cur].instrs + (from.instrs + to.instrs + [ins])
    ensures var i := |st.blocks[st.cur].instrs|;
            && Found(c, st.cur, i, from.instrs) && Found(c, st.cur, i + |from.instrs|, to.instrs)
            && |c.p.blocks[st.cur].instrs| == i + |from.instrs| + |to.instrs| + 1
            && c.p.blocks[st.cur].instrs[i + |from.instrs| + |to.instrs|] == ins
  {
  }

  lemma {:induction false} ForSim(c: Ctx, fuel: nat, stmt: Stmt, st: Build, s: Store, r: Regs) returns (n: nat)
    requires stmt.ForRange? && Starts(c, st, s, r) && StmtTyped(c, st, stmt)
    requires LowerStmt(c.t, st, stmt).Ok? && In(c, LowerStmt(c.t, st, stmt).value)
    ensures LowerStmt(c.t, st, stmt).value.cur < |LowerStmt(c.t, st, stmt).value.blocks|
    ensures Arrives(c, st, LowerStmt(c.t, st, stmt).value, ExecStmt(c.p.fpu, fuel, stmt, c.x, s), r,
                    Steps(c.p, Here(st, r), n))
    ensures ExecStmt(c.p.fpu, fuel, stmt, c.x, s).Timeout? ==> n >= fuel
    decreases fuel, stmt, 2
  {
    hide LowerStmt, Partly, Arrives, After, CodeIn, ExprCode, Eval, ExprType, IsTest, BodyTypes, LowerBody, Ready;
    hide Later, Fill, ForHead, EC.Kept, EC.Holds, Run, Steps, Step, Starts, EC.TypesOf, LocalsGrow, ExecFor, Counting;
    var inLoop :| (inLoop ==> st.loops != []) && StmtTypes(stmt, EC.TypesOf(st.locals), c.t.inT, c.t.outT, inLoop).Some?;
    var b := |st.blocks|;
    var f := LoopFrame(b + 3, b + 2);
    StartsReady(c, st, s, r);
    var from, to, st0, st1 := ForParts(c.t, st, stmt);
    var z := Fill(PopLoop(st1), b + 3, b + 2);
    ForBlocks(st, stmt.loopVar, from, to);
    FillSame(PopLoop(st1), b + 3, b + 2);
    LoopIn(c, st0, st1, z);
    DeclaredType(st, stmt.loopVar, from, to);
    CounterSlot(c, st, stmt.loopVar, inLoop, stmt);
    assert BodyTypes(stmt.body, EC.TypesOf(st0.locals), c.t.inT, c.t.outT, true).Some?;
    assert Around(c, stmt.body, Bounded(st, to), st0, z, f);
    var m, r1 := ForEntryRuns(c, st, stmt, from, to, s, r);
    n := m;
    var (u, v) := (Eval(c.p.fpu, stmt.start, c.x, s), Eval(c.p.fpu, stmt.end, c.x, s));
    if u.Some? && v.Some? {
      var s1 := s[stmt.loopVar := u.value];
      var m1 := ForLoop(c, fuel, stmt, st, st0, z, from, to, v.value.n, s1, r1);
      StepsAdd(c.p, Here(st, r), m, m1);
      n := m + m1;
      ArrivesLater(c, st, Bounded(st, to), z, s1,
                   ExecFor(c.p.fpu, fuel, stmt.loopVar, v.value, stmt.body, c.x, s1), r, r1, Steps(c.p, Here(st, r), n));
    } else {
      TrapArrives(c, st, z, r, Steps(c.p, Here(st, r), n));
    }
  }

  /** The counter is an i64 local of the kernel. */
  lemma CounterSlot(c: Ctx, st: Build, v: string, inLoop: bool, stmt: Stmt)
    requires stmt.ForRange? && stmt.loopVar == v && StmtTypes(stmt, EC.TypesOf(st.locals), c.t.inT, c.t.outT, inLoop).Some?
    requires LocalsGrow(Declare(st, v, I64).locals, c.locals)
    ensures v in c.locals && c.locals[v] == Slot(VarOf(st, v), I64)
  {
    assert v in EC.TypesOf(st.locals) ==> EC.TypesOf(st.locals)[v] == I64;
  }

  lemma CountingExit(c: Ctx, st: Build, v: string, from: Code, to: Code, end: I64, s: Store, r: Regs)
    requires Counting(c, st, v, from, to, end, s, r)
    ensures c.t.exit < |st.blocks|
  {
  }

  /** The counter and the bound survive a round of the body. */
  lemma CountsOn(c: Ctx, st: Build, v: string, from: Code, to: Code, end: I64, s: Store, s1: Store, r: Regs, r1: Regs)
    requires Counting(c, st, v, from, to, end, s, r) && After(c, to.next, s1, r, r1)
    ensures Counting(c, st, v, from, to, end, s1, r1)
  {
  }

  lemma CountStarts(c: Ctx, st: Build, st0: Build, v: string, from: Code, to: Code, end: I64, s: Store, r: Regs)
    requires Counting(c, st, v, from, to, end, s, r) && Ready(c.t, st0) && !st0.terminated
    requires to.next <= st0.nvals && LocalsGrow(st0.locals, c.locals)
    ensures Starts(c, st0, s, r)
  {
  }

  lemma {:induction false} ForLoop(c: Ctx, fuel: nat, stmt: Stmt, st: Build, st0: Build, z: Build, from: Code, to: Code,
                                   end: I64, s: Store, r: Regs) returns (n: nat)
    requires stmt.ForRange? && Counting(c, st, stmt.loopVar, from, to, end, s, r)
    requires Around(c, stmt.body, Bounded(st, to), st0, z, LoopFrame(|st.blocks| + 3, |st.blocks| + 2))
    requires st0.cur == |st.blocks| + 1
    ensures Arrives(c, Bounded(st, to), z, ExecFor(c.p.fpu, fuel, stmt.loopVar, IntV(end), stmt.body, c.x, s), r,
                    Steps(c.p, At(|st.blocks|, 0, r), n))
    ensures ExecFor(c.p.fpu, fuel, stmt.loopVar, IntV(end), stmt.body, c.x, s).Timeout? ==> n >= fuel
    decreases fuel, stmt, 1
  {
    hide Starts, BodyTyped, LowerBody, CodeIn, Fill, Exec, Steps, Step, Ready, After, Counting, LocalsGrow, Bump;
    var b, v, bst := |st.blocks|, stmt.loopVar, Bounded(st, to);
    if fuel == 0 {
      n := 0;
      ZeroSteps(c.p, At(b, 0, r));
      CountingExit(c, st, v, from, to, end, s, r);
    } else {
      var m, r1 := ForHeaderRuns(c, st, v, from, to, end, s, r);
      n := m;
      if s[v].n < end {
        CountsOn(c, st, v, from, to, end, s, s, r, r1);
        CountStarts(c, st, st0, v, from, to, end, s, r1);
        var m1 := RoundSim(c, fuel, stmt.body, bst, st0, z, LoopFrame(b + 3, b + 2), s, r, r1);
        var o := Exec(c.p.fpu, fuel, stmt.body, c.x, s);
        StepsAdd(c.p, At(b, 0, r), m, m1);
        n := m + m1;
        if o.Normal? || o.Continued? {
          var r2 := Steps(c.p, At(b, 0, r), n).r;
          CountsOn(c, st, v, from, to, end, s, o.s, r, r2);
          var m2, r3 := ForStepRuns(c, st, v, from, to, end, o.s, r2);
          StepsAdd(c.p, At(b, 0, r), n, m2);
          CountsOn(c, st, v, from, to, end, o.s, Bump(o.s, v), r2, r3);
          AfterTrans(c, to.next, to.next, o.s, Bump(o.s, v), r, r2, r3);
          var m3 := ForLoop(c, fuel - 1, stmt, st, st0, z, from, to, end, Bump(o.s, v), r3);
          StepsAdd(c.p, At(b, 0, r), n + m2, m3);
          n := n + m2 + m3;
          RoundTail(c, bst, z, Bump(o.s, v), ExecFor(c.p.fpu, fuel - 1, v, IntV(end), stmt.body, c.x, Bump(o.s, v)),
                    r, r3, Steps(c.p, At(b, 0, r), n));
        }
      }
    }
  }

  /** An assignment appends the code of its value and a definition. */
  lemma AssignIn(c: Ctx, st: Build, stmt: Stmt, k: Code)
    requires stmt.Assign? && st.cur < |st.blocks| && ExprCode(c.t, st.locals, stmt.value, stmt.dtype, st.nvals) == Ok(k)
    requires LowerStmt(c.t, st, stmt).Ok? && In(c, LowerStmt(c.t, st, stmt).value)
    ensures st.cur < |c.p.blocks|
    ensures st.blocks[st.cur].instrs + (k.instrs + [DefVar(VarOf(st, stmt.name), k.res)]) <= c.p.blocks[st.cur].instrs
    ensures stmt.name in c.locals && c.locals[stmt.name] == Slot(VarOf(st, stmt.name), stmt.dtype)
    ensures var z := LowerStmt(c.t, st, stmt).value;
            z.cur == st.cur < |z.blocks| && z.terminated == st.terminated
            && |z.blocks[z.cur].instrs| == |st.blocks[st.cur].instrs| + |k.instrs| + 1
  {
    hide ExprCode;
  }

  lemma AssignSim(c: Ctx, fuel: nat, stmt: Stmt, st: Build, s: Store, r: Regs) returns (n: nat)
    requires stmt.Assign? && Starts(c, st, s, r) && StmtTyped(c, st, stmt)
    requires LowerStmt(c.t, st, stmt).Ok? && In(c, LowerStmt(c.t, st, stmt).value)
    requires LowerStmt(c.t, st, stmt).value.cur < |LowerStmt(c.t, st, stmt).value.blocks|
    ensures Arrives(c, st, LowerStmt(c.t, st, stmt).value, ExecStmt(c.p.fpu, fuel, stmt, c.x, s), r,
                    Steps(c.p, Here(st, r), n))
  {
    hide ExprCode, Eval, Run, Steps, Step, ExprType, IsTest, EC.Kept, EC.Holds, ExecInstr, Ready, CodeIn, LowerStmt;
    StartsReady(c, st, s, r);
    AssignOk(c.t, st, stmt);
    var k := ExprCode(c.t, st.locals, stmt.value, stmt.dtype, st.nvals).value;
    AssignIn(c, st, stmt, k);
    var i := |st.blocks[st.cur].instrs|;
    var v := VarOf(st, stmt.name);
    Split(c, st.cur, st.blocks[st.cur].instrs, k.instrs, DefVar(v, k.res));
    var m, r1 := ExprRuns(c, st.cur, i, st.locals, stmt.value, stmt.dtype, st.nvals, s, r);
    n := m;
    var u := Eval(c.p.fpu, stmt.value, c.x, s);
    if u.Some? {
      var r2 := r1.(vars := r1.vars[v := u.value]);
      AssignHolds(c, st, stmt.name, stmt.dtype, u.value, s, r, r1);
      DefVarExec(c.p, v, k.res, u.value, r1);
      InstrAt(c.p, st.cur, i + |k.instrs|, DefVar(v, k.res), r1, r2);
      StepsOne(c.p, Here(st, r), m);
      n := m + 1;
    }
  }

  lemma AssignOk(t: Target, st: Build, stmt: Stmt)
    requires stmt.Assign? && LowerStmt(t, st, stmt).Ok?
    ensures ExprCode(t, st.locals, stmt.value, stmt.dtype, st.nvals).Ok?
  {
    hide ExprCode;
  }

  lemma DefVarExec(p: Program, v: nat, src: nat, u: Val, r: Regs)
    requires Lookup(r.vals, src) == Some(u)
    ensures ExecInstr(p, DefVar(v, src), r) == Some(r.(vars := r.vars[v := u]))
  {
  }

  /** Defining the variable of a local makes the registers hold the updated store. */
  lemma AssignHolds(c: Ctx, st: Build, name: string, d: Dtype, u: Val, s: Store, r: Regs, r1: Regs)
    requires OkCtx(c) && EC.Holds(c.locals, s, r.vars) && r1.vars == r.vars && HasType(u, d)
    requires name in c.locals && c.locals[name] == Slot(VarOf(st, name), d)
    ensures EC.Holds(c.locals, s[name := u], r1.vars[VarOf(st, name) := u])
    ensures Lookup(r1.vars[VarOf(st, name) := u], I_VAR) == Lookup(r.vars, I_VAR)
  {
  }

  lemma ResultHolds(c: Ctx, u: Val, s: Store, r: Regs, r1: Regs)
    requires OkCtx(c) && EC.Holds(c.locals, s, r.vars) && r1.vars == r.vars
    ensures EC.Holds(c.locals, s, r1.vars[RESULT_VAR := u])
    ensures Lookup(r1.vars[RESULT_VAR := u], I_VAR) == Lookup(r.vars, I_VAR)
  {
  }

  lemma ReturnSim(c: Ctx, fuel: nat, stmt: Stmt, st: Build, s: Store, r: Regs) returns (n: nat)
    requires stmt.Return? && Starts(c, st, s, r) && StmtTyped(c, st, stmt)
    requires LowerStmt(c.t, st, stmt).Ok? && In(c, LowerStmt(c.t, st, stmt).value)
    ensures Arrives(c, st, LowerStmt(c.t, st, stmt).value, ExecStmt(c.p.fpu, fuel, stmt, c.x, s), r,
                    Steps(c.p, Here(st, r), n))
  {
    hide ExprCode, Eval, Run, Steps, Step, ExprType, IsTest, ExecInstr, EC.Kept, EC.Holds, Ready;
    StartsReady(c, st, s, r);
    var k := ExprCode(c.t, st.locals, stmt.result, c.t.outT, st.nvals).value;
    var z := LowerStmt(c.t, st, stmt).value;
    var i := |st.blocks[st.cur].instrs|;
    Split(c, st.cur, st.blocks[st.cur].instrs, k.instrs, DefVar(RESULT_VAR, k.res));
    var m, r1 := ExprRuns(c, st.cur, i, st.locals, stmt.result, c.t.outT, st.nvals, s, r);
    n := m;
    if Eval(c.p.fpu, stmt.result, c.x, s).Some? {
      var u := Eval(c.p.fpu, stmt.result, c.x, s).value;
      var r2 := r1.(vars := r1.vars[RESULT_VAR := u]);
      ResultHolds(c, u, s, r, r1);
      DefVarExec(c.p, RESULT_VAR, k.res, u, r1);
      InstrAt(c.p, st.cur, i + |k.instrs|, DefVar(RESULT_VAR, k.res), r1, r2);
      StepsOne(c.p, Here(st, r), m);
      JumpRuns(c.p, st.cur, z.blocks[st.cur], r2);
      StepsOne(c.p, Here(st, r), m + 1);
      n := m + 2;
    }
  }

  /** Code and one more instruction, after what a block held before. */
  lemma Split(c: Ctx, b: nat, before: seq<Instr>, code: seq<Instr>, ins: Instr)
    requires b < |c.p.blocks| && before + (code + [ins]) <= c.p.blocks[b].instrs
    ensures Found(c, b, |before|, code)
    ensures |before| + |code| < |c.p.blocks[b].instrs| && c.p.blocks[b].instrs[|before| + |code|] == ins
  {
  }

  // ----- one element, both ways -----

  /** Code of a whole body, not yet followed by anything: its exit block is still empty. */
  predicate Whole(c: Ctx, st: Build, ss: seq<Stmt>) {
    && LowerBody(c.t, st, ss).Ok? && c.p.blocks == LowerBody(c.t, st, ss).value.blocks
    && LowerBody(c.t, st, ss).value.locals == c.locals
    && st.loops == [] && c.t.exit < |st.blocks| && st.cur != c.t.exit && st.blocks[c.t.exit] == EMPTY
  }

  /** A run that has come to rest stays there. */
  lemma {:induction false} RestStays(p: Program, c: Config, n: nat, m: nat)
    requires Step(p, Steps(p, c, n)) == Steps(p, c, n) && n <= m
    ensures Steps(p, c, m) == Steps(p, c, n)
    decreases m
  {
    hide Step;
    if n < m {
      RestStays(p, c, n, m - 1);
      StepsOne(p, c, m - 1);
    }
  }

  lemma WholeEnd(c: Ctx, st: Build, ss: seq<Stmt>)
    requires Whole(c, st, ss) && Ready(c.t, st)
    ensures var e := LowerBody(c.t, st, ss).value;
            && e.cur < |e.blocks| && e.cur != c.t.exit && In(c, e) && c.t.exit < |c.p.blocks| && c.p.blocks[c.t.exit] == EMPTY
            && (!e.terminated ==> c.p.blocks[e.cur].term.None?)
  {
    hide LowerBody;
    BodyGrows(c.t, st, ss);
  }

  /** The run of a body from its first instruction comes to the exit of the element with `v` as its
      result exactly when the structured semantics returns `v`. */
  lemma ElementAgrees(c: Ctx, ss: seq<Stmt>, st: Build, s: Store, r: Regs, v: Val)
    requires Starts(c, st, s, r) && BodyTyped(c, st, ss) && Whole(c, st, ss)
    ensures (exists n :: AtExit(c, v, Steps(c.p, Here(st, r), n))) <==>
            (exists fuel :: Returns(Exec(c.p.fpu, fuel, ss, c.x, s), v))
  {
    hide LowerBody, Steps, Exec, Starts, BodyTyped, In, After;
    StartsReady(c, st, s, r);
    WholeEnd(c, st, ss);
    var start := Here(st, r);
    if fuel :| Returns(Exec(c.p.fpu, fuel, ss, c.x, s), v) {
      var n := BodySim(c, fuel, ss, st, s, r);
      assert AtExit(c, v, Steps(c.p, start, n));
    }
    if n: nat :| AtExit(c, v, Steps(c.p, start, n)) {
      var m := BodySim(c, n + 1, ss, st, s, r);
      EndDecides(c, ss, st, s, r, v, n, m);
      assert Returns(Exec(c.p.fpu, n + 1, ss, c.x, s), v);
    }
  }

  /** A run that came to the exit in `n` steps is the run that `m` steps simulate. */
  lemma EndDecides(c: Ctx, ss: seq<Stmt>, st: Build, s: Store, r: Regs, v: Val, n: nat, m: nat)
    requires Starts(c, st, s, r) && BodyTyped(c, st, ss) && Whole(c, st, ss)
    requires AtExit(c, v, Steps(c.p, Here(st, r), n)) && LowerBody(c.t, st, ss).value.cur < |LowerBody(c.t, st, ss).value.blocks|
    requires Arrives(c, st, LowerBody(c.t, st, ss).value, Exec(c.p.fpu, n + 1, ss, c.x, s), r, Steps(c.p, Here(st, r), m))
    requires Exec(c.p.fpu, n + 1, ss, c.x, s).Timeout? ==> m >= n + 1
    ensures Returns(Exec(c.p.fpu, n + 1, ss, c.x, s), v)
  {
    hide LowerBody, Steps, Exec, Starts, BodyTyped, In, After;
    StartsReady(c, st, s, r);
    WholeEnd(c, st, ss);
    var start := Here(st, r);
    if n <= m { RestStays(c.p, start, n, m); } else if !Exec(c.p.fpu, n + 1, ss, c.x, s).Timeout? { RestStays(c.p, start, m, n); }
  }

  predicate AtExit(c: Ctx, v: Val, end: Config) {
    end.At? && end == At(c.t.exit, 0, end.r) && Lookup(end.r.vars, RESULT_VAR) == Some(v)
  }

  predicate Returns(o: Outcome, v: Val) { o.Returned? && o.v == v }
}
