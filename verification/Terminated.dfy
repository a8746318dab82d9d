/** The walker's `terminated` flag is sound: a list it reports terminated never falls through, so at the
    top level a function can only return, and cutting what follows loses nothing. */
module Terminated {
  import opened Wrappers
  import opened Ir
  import opened Machine
  import opened Semantics
  import opened Walker
  import SK = ScalarKernel
  import L = Lowering
  import Py = PyAst

  /** No path through the list falls off its end. */
  predicate Ends(ss: seq<Stmt>) {
    ss != [] && StmtEnds(ss[|ss| - 1])
  }

  predicate StmtEnds(s: Stmt) {
    match s
    case Return(_) => true
    case Break => true
    case Continue => true
    case If(_, yes, no) => Ends(yes) && Ends(no)
    case _ => false
  }

  /** Only the last statement of a list, or of a list inside it, ends it: nothing was kept that cannot run. */
  predicate CutClean(ss: seq<Stmt>) {
    && (forall i | 0 <= i < |ss| - 1 :: !StmtEnds(ss[i]))
    && (forall i | 0 <= i < |ss| :: StmtClean(ss[i]))
  }

  predicate StmtClean(s: Stmt) {
    match s
    case If(_, yes, no) => CutClean(yes) && CutClean(no)
    case ForRange(_, _, _, body) => CutClean(body)
    case While(_, body) => CutClean(body)
    case _ => true
  }

  /** The flag is exact, and the walker keeps nothing behind a statement that ends the list. */
  lemma {:induction false} WalkedListEnds(f: Fn, s: State, ss: seq<Py.Stmt>)
    requires WalkList(f, s, ss).Ok?
    ensures var (ir, term, _) := WalkList(f, s, ss).value; (term <==> Ends(ir)) && CutClean(ir)
    decreases ss, 0
  {
    hide WalkStmt, StmtEnds, StmtClean;
    if ss != [] {
      WalkedStmtEnds(f, s, ss[0]);
      var (ir, term, s') := WalkStmt(f, s, ss[0]).value;
      if !term {
        WalkedListEnds(f, s', ss[1..]);
      }
    }
  }

  lemma {:induction false} WalkedStmtEnds(f: Fn, s: State, stmt: Py.Stmt)
    requires WalkStmt(f, s, stmt).Ok?
    ensures var (ir, term, _) := WalkStmt(f, s, stmt).value; (term <==> StmtEnds(ir)) && StmtClean(ir)
    decreases stmt, 1
  {
    hide WalkExpr, WalkRange, WalkBody;
    match stmt
    case If(t, yes, no) =>
      WalkedBodyEnds(f, s, yes);
      if no != [] {
        WalkedBodyEnds(f, WalkBody(f, s, yes).value.2, no);
      }
    case For(t, iter, body, _) => WalkedBodyEnds(f, s.(locals := s.locals[t.id := I64]), body);
    case While(t, body, _) => WalkedBodyEnds(f, s, body);
    case _ =>
  }

  lemma {:induction false} WalkedBodyEnds(f: Fn, s: State, ss: seq<Py.Stmt>)
    ensures WalkBody(f, s, ss).Ok? ==>
              var (ir, term, _) := WalkBody(f, s, ss).value; (term <==> Ends(ir)) && CutClean(ir)
    decreases ss, 1
  {
    if WalkBody(f, s, ss).Ok? {
      WalkedListEnds(f, s, Py.StripDocstring(ss));
    }
  }

  // ----- what ending means -----

  /** A list that ends never leaves control at its end, so whatever is written after it is never run. */
  lemma {:induction false} EndsNeverNormal(m: Fpu, fuel: nat, ss: seq<Stmt>, rest: seq<Stmt>, x: Val, s: Store)
    requires Ends(ss)
    ensures !Exec(m, fuel, ss, x, s).Normal?
    ensures Exec(m, fuel, ss + rest, x, s) == Exec(m, fuel, ss, x, s)
    decreases ss, 1
  {
    hide ExecStmt, StmtEnds;
    assert (ss + rest)[0] == ss[0];
    assert (ss + rest)[1..] == ss[1..] + rest;
    var o := ExecStmt(m, fuel, ss[0], x, s);
    if |ss| == 1 {
      StmtNeverNormal(m, fuel, ss[0], x, s);
    } else if o.Normal? {
      EndsNeverNormal(m, fuel, ss[1..], rest, x, o.s);
    }
  }

  lemma {:induction false} StmtNeverNormal(m: Fpu, fuel: nat, stmt: Stmt, x: Val, s: Store)
    requires StmtEnds(stmt)
    ensures !ExecStmt(m, fuel, stmt, x, s).Normal?
    decreases stmt, 0
  {
    hide Exec, Eval, EvalTest, Ends;
    if stmt.If? {
      EndsNeverNormal(m, fuel, stmt.thenBody, [], x, s);
      EndsNeverNormal(m, fuel, stmt.elseBody, [], x, s);
    }
  }

  // ----- breaks and continues stay inside loops -----

  /** Every break and continue is inside a loop of the list. */
  predicate JumpsInside(ss: seq<Stmt>, inLoop: bool) {
    forall i | 0 <= i < |ss| :: StmtInside(ss[i], inLoop)
  }

  predicate StmtInside(s: Stmt, inLoop: bool) {
    match s
    case Break => inLoop
    case Continue => inLoop
    case If(_, yes, no) => JumpsInside(yes, inLoop) && JumpsInside(no, inLoop)
    case While(_, body) => JumpsInside(body, true)
    case ForRange(_, _, _, body) => JumpsInside(body, true)
    case _ => true
  }

  /** The code generator turns away a break or continue outside every loop (of the code it looks at,
      which is all of it when nothing follows a statement that ends a list). */
  lemma {:induction false} LoweredJumpsInside(t: L.Target, st: L.Build, ss: seq<Stmt>)
    requires L.LowerBody(t, st, ss).Ok? && CutClean(ss) && !st.terminated
    ensures JumpsInside(ss, st.loops != []) && L.LowerBody(t, st, ss).value.loops == st.loops
    decreases ss, 1
  {
    hide L.LowerStmt, StmtInside, StmtClean, StmtEnds;
    if ss != [] {
      LoweredStmtInside(t, st, ss[0]);
      var a := L.LowerStmt(t, st, ss[0]).value;
      if |ss| > 1 {
        JumpsEnd(ss[0]);
        LoweredJumpsInside(t, a, ss[1..]);
        assert ss == [ss[0]] + ss[1..];
      }
    }
  }

  lemma JumpsEnd(s: Stmt)
    ensures Jumps(s) ==> StmtEnds(s)
  {
  }

  lemma {:induction false} LoweredStmtInside(t: L.Target, st: L.Build, s: Stmt)
    requires L.LowerStmt(t, st, s).Ok? && StmtClean(s) && !st.terminated
    ensures StmtInside(s, st.loops != []) && L.LowerStmt(t, st, s).value.loops == st.loops
    ensures L.LowerStmt(t, st, s).value.terminated <==> Jumps(s)
    decreases s, 0
  {
    hide L.ExprCode, L.LowerBody, CutClean, JumpsInside, L.ForHead;
    var b := |st.blocks|;
    match s
    case If(c, yes, no) =>
      var k := L.ExprCode(t, st.locals, c, I64, st.nvals).value;
      LoweredJumpsInside(t, L.IfHead(st, k), yes);
      var st1 := L.LowerBody(t, L.IfHead(st, k), yes).value;
      LoweredJumpsInside(t, L.Fill(st1, b + 2, b + 1), no);
    case While(c, body) =>
      var k := L.ExprCode(t, st.locals, c, I64, st.nvals).value;
      LoweredJumpsInside(t, L.PushLoop(L.WhileHead(st, k), L.LoopFrame(b, b + 2)), body);
    case ForRange(v, lo, hi, body) =>
      var from := L.ExprCode(t, st.locals, lo, I64, st.nvals).value;
      var to := L.ExprCode(t, st.locals, hi, I64, from.next).value;
      ForHeadOpen(st, v, from, to);
      LoweredJumpsInside(t, L.PushLoop(L.ForHead(st, v, from, to), L.LoopFrame(b + 3, b + 2)), body);
    case _ =>
  }

  lemma ForHeadOpen(st: L.Build, v: string, from: L.Code, to: L.Code)
    ensures L.ForHead(st, v, from, to).loops == st.loops && !L.ForHead(st, v, from, to).terminated
  {
    hide L.ForTest, L.ForStep;
  }

  lemma {:induction false} StaysInside(m: Fpu, fuel: nat, ss: seq<Stmt>, x: Val, s: Store)
    requires JumpsInside(ss, false)
    ensures !Exec(m, fuel, ss, x, s).Broke? && !Exec(m, fuel, ss, x, s).Continued?
    decreases ss, 1
  {
    hide ExecStmt, StmtInside;
    if ss != [] {
      StmtStaysInside(m, fuel, ss[0], x, s);
      var o := ExecStmt(m, fuel, ss[0], x, s);
      if o.Normal? {
        StaysInside(m, fuel, ss[1..], x, o.s);
      }
    }
  }

  lemma {:induction false} StmtStaysInside(m: Fpu, fuel: nat, stmt: Stmt, x: Val, s: Store)
    requires StmtInside(stmt, false)
    ensures !ExecStmt(m, fuel, stmt, x, s).Broke? && !ExecStmt(m, fuel, stmt, x, s).Continued?
    decreases stmt, 0
  {
    hide Exec, Eval, EvalTest, JumpsInside;
    match stmt
    case If(_, yes, no) =>
      StaysInside(m, fuel, yes, x, s);
      StaysInside(m, fuel, no, x, s);
    case While(t, body) => LoopsSwallow(m, fuel, t, "", IntV(0), body, x, s);
    case ForRange(v, lo, hi, body) =>
      if Eval(m, lo, x, s).Some? && Eval(m, hi, x, s).Some? {
        LoopsSwallow(m, fuel, lo, v, Eval(m, hi, x, s).value, body, x, s[v := Eval(m, lo, x, s).value]);
      }
    case _ =>
  }

  /** A loop consumes the breaks and continues of its body. */
  lemma {:induction false} LoopsSwallow(m: Fpu, fuel: nat, t: Expr, v: string, to: Val, body: seq<Stmt>, x: Val, s: Store)
    ensures !ExecWhile(m, fuel, t, body, x, s).Broke? && !ExecWhile(m, fuel, t, body, x, s).Continued?
    ensures !ExecFor(m, fuel, v, to, body, x, s).Broke? && !ExecFor(m, fuel, v, to, body, x, s).Continued?
    decreases fuel
  {
    hide Exec, EvalTest, Bump;
    if fuel != 0 {
      var o := Exec(m, fuel, body, x, s);
      if o.Normal? || o.Continued? {
        LoopsSwallow(m, fuel - 1, t, v, to, body, x, o.s);
        LoopsSwallow(m, fuel - 1, t, v, to, body, x, Bump(o.s, v));
      }
    }
  }

  // ----- accepted functions -----

  lemma ReturnEnds(v: Expr)
    ensures Ends([Return(v)]) && CutClean([Return(v)])
  {
  }

  lemma KernelEnds(c: Callable, inT: Dtype)
    requires KernelOf(c, inT).Some?
    ensures Ends(KernelOf(c, inT).value.body) && CutClean(KernelOf(c, inT).value.body)
  {
    hide WalkBody, WalkExpr, Ends, CutClean;
    var f := Fn(c.params[0], inT);
    match c
    case Lambda(_, e) => ReturnEnds(WalkExpr(f, map[], e).value.0);
    case Def(_, body) => WalkedBodyEnds(f, State(map[], None), body);
  }

  /** An accepted function only returns, traps or runs on: the zero that the code generator returns for
      a body that falls through is never the answer. */
  lemma AcceptedOnlyReturns(c: Callable, inT: Dtype, m: Fpu, fuel: nat, x: Val, s: Store)
    requires KernelOf(c, inT).Some? && SK.CompileScalar(KernelOf(c, inT).value).Ok?
    ensures var k := KernelOf(c, inT).value;
            && SK.Element(m, fuel, k, x, s) == Exec(m, fuel, k.body, x, s)
            && (Exec(m, fuel, k.body, x, s).Returned? || Exec(m, fuel, k.body, x, s).Trapped? || Exec(m, fuel, k.body, x, s).Timeout?)
  {
    hide Ends, CutClean, JumpsInside, KernelOf, L.LowerBody;
    var k := KernelOf(c, inT).value;
    KernelEnds(c, inT);
    EndsNeverNormal(m, fuel, k.body, [], x, s);
    LoweredJumpsInside(SK.ScalarTarget(k), SK.Prologue(), k.body);
    StaysInside(m, fuel, k.body, x, s);
  }
}
