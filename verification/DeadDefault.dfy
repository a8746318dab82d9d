/** The default for a body that falls through is dead code in accepted functions: no jump leads to it.  A body
    on which every path is left may still end in a block that joins two arms; that block, and every block
    that could lead there, is never entered. */
module DeadDefault {
  import opened Wrappers
  import opened Ir
  import opened Machine
  import opened Cfg
  import opened Lowering
  import opened Shape
  import opened Terminated
  import SK = ScalarKernel
  import W = Walker

  // ----- where code jumps -----

  /** Every target of `x` is a block from `lo` on, or allowed. */
  predicate JumpsTo(x: Option<Terminator>, lo: nat, allowed: set<nat>) {
    match x
    case Some(Jump(b)) => lo <= b || b in allowed
    case Some(Brif(_, y, n)) => (lo <= y || y in allowed) && (lo <= n || n in allowed)
    case _ => true
  }

  /** Blocks from before a statement that its code may jump to: the element's exit and those of the loops
      around it. */
  function Around(t: Target, loops: seq<LoopFrame>): set<nat> {
    {t.exit} + (set f | f in loops :: f.header) + (set f | f in loops :: f.exit)
  }

  /** Code emitted between `st` and `r` jumps to new blocks or to what is around. */
  predicate Within(t: Target, st: Build, r: Build) {
    forall b | 0 <= b < |r.blocks| && (b == st.cur || |st.blocks| <= b) ::
      JumpsTo(r.blocks[b].term, |st.blocks|, Around(t, st.loops))
  }

  lemma {:induction false} BodyWithin(t: Target, st: Build, ss: seq<Stmt>)
    requires Ready(t, st) && !st.terminated && LowerBody(t, st, ss).Ok?
    ensures Within(t, st, LowerBody(t, st, ss).value)
    decreases ss, 0
  {
    hide LowerStmt, Around;
    if ss != [] {
      StmtWithin(t, st, ss[0]);
      StmtGrows(t, st, ss[0]);
      var a := LowerStmt(t, st, ss[0]).value;
      if !a.terminated {
        BodyWithin(t, a, ss[1..]);
        BodyGrows(t, a, ss[1..]);
        WithinTrans(t, st, a, LowerBody(t, st, ss).value);
      }
    }
  }

  lemma WithinTrans(t: Target, st: Build, a: Build, r: Build)
    requires Within(t, st, a) && Within(t, a, r) && Grows(st, a) && Grows(a, r)
    ensures Within(t, st, r)
  {
    hide Around;
  }

  lemma {:induction false} StmtWithin(t: Target, st: Build, s: Stmt)
    requires Ready(t, st) && !st.terminated && LowerStmt(t, st, s).Ok?
    ensures Within(t, st, LowerStmt(t, st, s).value)
    decreases s, 1
  {
    hide ExprCode;
    match s
    case Assign(_, _, _) =>
    case Return(_) =>
    case Break => assert st.loops[|st.loops| - 1] in st.loops;
    case Continue => assert st.loops[|st.loops| - 1] in st.loops;
    case If(_, _, _) => IfWithin(t, st, s);
    case While(_, _) => WhileWithin(t, st, s);
    case ForRange(_, _, _, _) => ForWithin(t, st, s);
  }

  /** Terminators after falling through. */
  lemma FillTerms(st: Build, next: nat, b: nat)
    requires st.cur < |st.blocks|
    ensures var r := Fill(st, next, b);
            && |r.blocks| == |st.blocks| && r.loops == st.loops
            && forall x | 0 <= x < |st.blocks| ::
                 r.blocks[x].term == if x == st.cur && !st.terminated then Some(Jump(next)) else st.blocks[x].term
  {
  }

  lemma IfHeadTerms(st: Build, k: Code)
    requires st.cur < |st.blocks|
    ensures var r, b := IfHead(st, k), |st.blocks|;
            && |r.blocks| == b + 3 && r.blocks[st.cur].term == Some(Brif(k.res, b, b + 1))
            && (forall x | b <= x < b + 3 :: r.blocks[x].term == None)
  {
  }

  lemma {:induction false} IfWithin(t: Target, st: Build, s: Stmt)
    requires Ready(t, st) && !st.terminated && s.If? && LowerStmt(t, st, s).Ok?
    ensures Within(t, st, LowerStmt(t, st, s).value)
    decreases s, 0
  {
    hide ExprCode, LowerStmt, LowerBody, IfHead, Fill, Around, BlocksOk, LocalsOk, Grows, CodeIn, Later, Within;
    var st0, st1, st2, st3 := IfParts(t, st, s);
    var b := |st.blocks|;
    var k := ExprCode(t, st.locals, s.test, I64, st.nvals).value;
    IfHeadTerms(st, k);
    BodyWithin(t, st0, s.thenBody);
    BodyGrows(t, st0, s.thenBody);
    FillCur(st1, b + 2, b + 1);
    BodyWithin(t, st2, s.elseBody);
    BodyGrows(t, st2, s.elseBody);
    ArmsWithin(t, st, st0, st1, st2, st3, k);
  }

  /** A conditional, from what is known of its branch and of its arms. */
  lemma ArmsWithin(t: Target, st: Build, st0: Build, st1: Build, st2: Build, st3: Build, k: Code)
    requires st.cur < |st.blocks| == st0.cur && |st0.blocks| == |st.blocks| + 3 && st0.loops == st2.loops == st.loops
    requires st0.blocks[st.cur].term == Some(Brif(k.res, |st.blocks|, |st.blocks| + 1))
    requires forall x | |st.blocks| <= x < |st0.blocks| :: st0.blocks[x].term == None
    requires Grows(st0, st1) && Within(t, st0, st1) && st2 == Fill(st1, |st.blocks| + 2, |st.blocks| + 1)
    requires Grows(st2, st3) && Within(t, st2, st3)
    ensures Within(t, st, Fill(st3, |st.blocks| + 2, |st.blocks| + 2))
  {
    hide Fill, Around, LocalsGrow;
    var b := |st.blocks|;
    FillTerms(st1, b + 2, b + 1);
    FillCur(st1, b + 2, b + 1);
    FillTerms(st3, b + 2, b + 2);
  }

  lemma WhileHeadTerms(st: Build, k: Code)
    requires st.cur < |st.blocks|
    ensures var r, b := WhileHead(st, k), |st.blocks|;
            && |r.blocks| == b + 3 && r.cur == b + 1 && r.blocks[st.cur].term == Some(Jump(b))
            && r.blocks[b].term == Some(Brif(k.res, b + 1, b + 2))
            && r.blocks[b + 1].term == None && r.blocks[b + 2].term == None && r.loops == st.loops
  {
  }

  lemma ForHeadTerms(st: Build, v: string, from: Code, to: Code)
    requires st.cur < |st.blocks|
    ensures var r, b := ForHead(st, v, from, to), |st.blocks|;
            && |r.blocks| == b + 4 && r.cur == b + 1 && r.blocks[st.cur].term == Some(Jump(b))
            && r.blocks[b].term == Some(Brif(to.next + 1, b + 1, b + 2)) && r.blocks[b + 3].term == Some(Jump(b))
            && r.blocks[b + 1].term == None && r.blocks[b + 2].term == None && r.loops == st.loops
  {
    hide ForStep, ForTest;
  }

  /** A loop's body jumps to new blocks, to its own frame, or to what is around the loop. */
  lemma AroundLoop(t: Target, loops: seq<LoopFrame>, f: LoopFrame)
    ensures Around(t, loops + [f]) == Around(t, loops) + {f.header, f.exit}
  {
    assert forall g :: g in loops + [f] <==> g in loops || g == f;
  }

  /** A loop, from what is known of its head and of its body. */
  lemma LoopWithin(t: Target, st: Build, st0: Build, st1: Build, f: LoopFrame)
    requires st.cur < |st.blocks| < |st0.blocks| && st0.loops == st.loops + [f] && st0.cur == |st.blocks| + 1
    requires |st.blocks| <= f.header && |st.blocks| <= f.exit
    requires forall x | 0 <= x < |st0.blocks| && (x == st.cur || |st.blocks| <= x) ::
               JumpsTo(st0.blocks[x].term, |st.blocks|, Around(t, st.loops))
    requires Grows(st0, st1) && Within(t, st0, st1)
    ensures Within(t, st, Fill(PopLoop(st1), f.header, f.exit))
  {
    hide Around, LocalsGrow, Fill;
    AroundLoop(t, st.loops, f);
    FillTerms(PopLoop(st1), f.header, f.exit);
  }

  lemma {:induction false} WhileWithin(t: Target, st: Build, s: Stmt)
    requires Ready(t, st) && !st.terminated && s.While? && LowerStmt(t, st, s).Ok?
    ensures Within(t, st, LowerStmt(t, st, s).value)
    decreases s, 0
  {
    hide ExprCode, LowerStmt, LowerBody, WhileHead, Fill, Around, BlocksOk, LocalsOk, Grows, Later, Within;
    var st0, st1 := WhileParts(t, st, s);
    var b := |st.blocks|;
    WhileHeadTerms(st, ExprCode(t, st.locals, s.cond, I64, st.nvals).value);
    BodyWithin(t, st0, s.wbody);
    BodyGrows(t, st0, s.wbody);
    LoopWithin(t, st, st0, st1, LoopFrame(b, b + 2));
  }

  lemma {:induction false} ForWithin(t: Target, st: Build, s: Stmt)
    requires Ready(t, st) && !st.terminated && s.ForRange? && LowerStmt(t, st, s).Ok?
    ensures Within(t, st, LowerStmt(t, st, s).value)
    decreases s, 0
  {
    hide ExprCode, LowerStmt, LowerBody, ForHead, Fill, Around, BlocksOk, LocalsOk, Grows, Later, Within;
    var from, to, st0, st1 := ForParts(t, st, s);
    var b := |st.blocks|;
    ForHeadTerms(st, s.loopVar, from, to);
    BodyWithin(t, st0, s.body);
    BodyGrows(t, st0, s.body);
    LoopWithin(t, st, st0, st1, LoopFrame(b + 3, b + 2));
  }

  // ----- blocks nothing leads to -----

  predicate Avoids(x: Option<Terminator>, dead: set<nat>) {
    match x
    case Some(Jump(b)) => b !in dead
    case Some(Brif(_, y, n)) => y !in dead && n !in dead
    case _ => true
  }

  /** New blocks `dead`: a body that ends has left its block or stands in one of them, and no other block
      emitted for it jumps to one. */
  predicate Sealed(st: Build, r: Build, dead: set<nat>) {
    && (forall d <- dead :: |st.blocks| <= d < |r.blocks|)
    && (r.terminated || r.cur in dead)
    && (forall b | 0 <= b < |r.blocks| && (b == st.cur || |st.blocks| <= b) && b !in dead :: Avoids(r.blocks[b].term, dead))
  }

  lemma {:induction false} BodyDead(t: Target, st: Build, ss: seq<Stmt>) returns (dead: set<nat>)
    requires Ready(t, st) && !st.terminated && LowerBody(t, st, ss).Ok? && Ends(ss)
    ensures Sealed(st, LowerBody(t, st, ss).value, dead)
    decreases ss, 1
  {
    hide LowerStmt, Around, LocalsOk, StmtEnds;
    var r := LowerBody(t, st, ss).value;
    var a := LowerStmt(t, st, ss[0]).value;
    StmtGrows(t, st, ss[0]);
    if a.terminated {
      dead := {};
    } else if |ss| == 1 {
      dead := StmtDead(t, st, ss[0]);
    } else {
      dead := BodyDead(t, a, ss[1..]);
      BodyGrows(t, a, ss[1..]);
      SealedLater(t, st, a, r, dead);
    }
  }

  /** What was emitted earlier cannot jump to blocks that did not exist yet. */
  lemma SealedLater(t: Target, st: Build, a: Build, r: Build, dead: set<nat>)
    requires Ready(t, a) && Grows(st, a) && Grows(a, r) && Sealed(a, r, dead)
    ensures Sealed(st, r, dead)
  {
    hide LocalsOk, LocalsGrow;
    forall b | 0 <= b < |a.blocks| && b != a.cur ensures Avoids(r.blocks[b].term, dead) {
      assert r.blocks[b] == a.blocks[b] && TargetsBelow(a.blocks[b].term, |a.blocks|);
    }
  }

  lemma {:induction false} StmtDead(t: Target, st: Build, s: Stmt) returns (dead: set<nat>)
    requires Ready(t, st) && !st.terminated && LowerStmt(t, st, s).Ok? && StmtEnds(s) && !LowerStmt(t, st, s).value.terminated
    ensures Sealed(st, LowerStmt(t, st, s).value, dead)
    decreases s, 0
  {
    hide ExprCode, LowerBody, IfHead, Fill, Around, Ready, Grows, CodeIn, Later, Ends, Sealed, Within, LowerStmt;
    ReadyCur(t, st);
    EndsArms(t, st, s);
    var st0, st1, st2, st3 := IfParts(t, st, s);
    var b := |st.blocks|;
    var k := ExprCode(t, st.locals, s.test, I64, st.nvals).value;
    IfHeadTerms(st, k);
    BodyGrows(t, st0, s.thenBody);
    BodyGrows(t, st2, s.elseBody);
    BodyWithin(t, st0, s.thenBody);
    BodyWithin(t, st2, s.elseBody);
    var one := BodyDead(t, st0, s.thenBody);
    var two := BodyDead(t, st2, s.elseBody);
    dead := one + two + {b + 2};
    FillCur(st1, b + 2, b + 1);
    YesArm(t, st, st0, st1, st2, st3, one, two);
    NoArm(t, st, st0, st1, st2, st3, one, two);
    var r := LowerStmt(t, st, s).value;
    FillTerms(st1, b + 2, b + 1);
    FillTerms(st3, b + 2, b + 2);
    FillCur(st3, b + 2, b + 2);
    BothArms(st, st0, st1, st2, st3, r, k, one, two);
  }

  lemma ReadyCur(t: Target, st: Build)
    requires Ready(t, st)
    ensures st.cur < |st.blocks|
  {
  }

  /** A statement that ends without having left its block is a conditional whose arms both end. */
  lemma EndsArms(t: Target, st: Build, s: Stmt)
    requires LowerStmt(t, st, s).Ok? && StmtEnds(s) && !LowerStmt(t, st, s).value.terminated
    ensures s.If? && Ends(s.thenBody) && Ends(s.elseBody)
  {
    hide ExprCode, LowerBody, Ends;
  }

  /** The arms of a conditional, as lowered: `st0` to `st1`, `st2` to `st3`. */
  predicate Arms(t: Target, st: Build, st0: Build, st1: Build, st2: Build, st3: Build) {
    && Ready(t, st) && Ready(t, st1) && Grows(st0, st1) && Grows(st2, st3)
    && st0.cur == |st.blocks| && |st0.blocks| == |st.blocks| + 3 && st0.loops == st2.loops == st.loops
    && st2 == Fill(st1, |st.blocks| + 2, |st.blocks| + 1)
    && Within(t, st0, st1) && Within(t, st2, st3)
  }

  lemma YesArm(t: Target, st: Build, st0: Build, st1: Build, st2: Build, st3: Build, one: set<nat>, two: set<nat>)
    requires Arms(t, st, st0, st1, st2, st3) && Sealed(st0, st1, one) && Sealed(st2, st3, two)
    ensures forall x | (x == |st.blocks| || |st.blocks| + 3 <= x) && 0 <= x < |st1.blocks| && x !in one ::
              Avoids(st1.blocks[x].term, one + two + {|st.blocks| + 2})
  {
    hide Around, LocalsOk, LocalsGrow;
    var b := |st.blocks|;
    FillCur(st1, b + 2, b + 1);
    AroundBelow(t, st);
    forall x | (x == b || b + 3 <= x) && 0 <= x < |st1.blocks| && x !in one ensures Avoids(st1.blocks[x].term, one + two + {b + 2}) {
      assert TargetsBelow(st1.blocks[x].term, |st1.blocks|);
      YesAvoids(st1.blocks[x].term, b, |st1.blocks|, Around(t, st.loops), one, two);
    }
  }

  lemma YesAvoids(x: Option<Terminator>, b: nat, m: nat, around: set<nat>, one: set<nat>, two: set<nat>)
    requires JumpsTo(x, b + 3, around) && Avoids(x, one) && TargetsBelow(x, m) && b + 3 <= m
    requires (forall a <- around :: a < b) && forall d <- two :: m <= d
    ensures Avoids(x, one + two + {b + 2})
  {
  }

  lemma NoArm(t: Target, st: Build, st0: Build, st1: Build, st2: Build, st3: Build, one: set<nat>, two: set<nat>)
    requires Arms(t, st, st0, st1, st2, st3) && Sealed(st0, st1, one) && Sealed(st2, st3, two)
    ensures forall x | (x == |st.blocks| + 1 || |st1.blocks| <= x) && 0 <= x < |st3.blocks| && x !in two ::
              Avoids(st3.blocks[x].term, one + two + {|st.blocks| + 2})
  {
    hide Around, LocalsOk, LocalsGrow, BlocksOk;
    var b := |st.blocks|;
    FillCur(st1, b + 2, b + 1);
    AroundBelow(t, st);
    forall x | (x == b + 1 || |st1.blocks| <= x) && 0 <= x < |st3.blocks| && x !in two
      ensures Avoids(st3.blocks[x].term, one + two + {b + 2})
    {
      NoAvoids(st3.blocks[x].term, b, |st1.blocks|, Around(t, st.loops), one, two);
    }
  }

  lemma NoAvoids(x: Option<Terminator>, b: nat, m: nat, around: set<nat>, one: set<nat>, two: set<nat>)
    requires JumpsTo(x, m, around) && Avoids(x, two) && b + 3 <= m
    requires (forall a <- around :: a < b) && forall d <- one :: b + 3 <= d < m
    ensures Avoids(x, one + two + {b + 2})
  {
  }

  lemma AroundBelow(t: Target, st: Build)
    requires Ready(t, st)
    ensures forall x <- Around(t, st.loops) :: x < |st.blocks|
  {
  }

  lemma BothArms(st: Build, st0: Build, st1: Build, st2: Build, st3: Build, r: Build, k: Code, one: set<nat>, two: set<nat>)
    requires st.cur < |st.blocks| && |st0.blocks| == |st.blocks| + 3 && st0.cur == |st.blocks|
    requires st0.blocks[st.cur].term == Some(Brif(k.res, |st.blocks|, |st.blocks| + 1))
    requires Grows(st0, st1) && Grows(st2, st3) && Sealed(st0, st1, one) && Sealed(st2, st3, two)
    requires |st2.blocks| == |st1.blocks| && st2.cur == |st.blocks| + 1 && r.cur == |st.blocks| + 2 && |r.blocks| == |st3.blocks|
    requires forall x | 0 <= x < |st1.blocks| ::
               st2.blocks[x].term == if x == st1.cur && !st1.terminated then Some(Jump(|st.blocks| + 2)) else st1.blocks[x].term
    requires forall x | 0 <= x < |st3.blocks| ::
               r.blocks[x].term == if x == st3.cur && !st3.terminated then Some(Jump(|st.blocks| + 2)) else st3.blocks[x].term
    requires forall x | (x == |st.blocks| || |st.blocks| + 3 <= x) && 0 <= x < |st1.blocks| && x !in one ::
               Avoids(st1.blocks[x].term, one + two + {|st.blocks| + 2})
    requires forall x | (x == |st.blocks| + 1 || |st1.blocks| <= x) && 0 <= x < |st3.blocks| && x !in two ::
               Avoids(st3.blocks[x].term, one + two + {|st.blocks| + 2})
    ensures Sealed(st, r, one + two + {|st.blocks| + 2})
  {
    hide LocalsGrow;
    var b := |st.blocks|;
    var dead := one + two + {b + 2};
    forall x | 0 <= x < |r.blocks| && (x == st.cur || b <= x) && x !in dead ensures Avoids(r.blocks[x].term, dead) {
      if x == st.cur {
        assert st1.blocks[x] == st0.blocks[x] && st3.blocks[x] == st2.blocks[x];
      }
    }
  }

  // ----- runs never get there -----

  lemma StepAvoids(p: Program, dead: set<nat>, c: Config)
    requires forall b | 0 <= b < |p.blocks| && b !in dead :: Avoids(p.blocks[b].term, dead)
    requires c.At? ==> c.b !in dead
    ensures Step(p, c).At? ==> Step(p, c).b !in dead
  {
    hide ExecInstr;
  }

  lemma {:induction false} RunAvoids(p: Program, dead: set<nat>, c: Config, n: nat)
    requires forall b | 0 <= b < |p.blocks| && b !in dead :: Avoids(p.blocks[b].term, dead)
    requires c.At? ==> c.b !in dead
    ensures Steps(p, c, n).At? ==> Steps(p, c, n).b !in dead
    decreases n
  {
    hide Step;
    if n > 0 {
      StepAvoids(p, dead, c);
      RunAvoids(p, dead, Step(p, c), n - 1);
    }
  }

  /** In the compiled code of an accepted function the block with the default zero is never entered. */
  lemma DefaultNeverRuns(c: W.Callable, inT: Dtype, p: Program, vars: map<nat, Val>, out: seq<Val>, n: nat)
    requires W.KernelOf(c, inT).Some? && SK.CompileScalar(W.KernelOf(c, inT).value) == Ok(p.blocks) && |p.inp| < TWO_63
    ensures var k := W.KernelOf(c, inT).value;
            var end := LowerBody(SK.ScalarTarget(k), SK.Prologue(), k.body);
            && end.Ok?
            && (!end.value.terminated && Steps(p, SK.Call(p, vars, out), n).At? ==>
                  Steps(p, SK.Call(p, vars, out), n).b != end.value.cur)
  {
    hide W.KernelOf, LowerBody, Ends, CutClean, SK.ExitCode, LocalsOk, LocalsGrow;
    var k := W.KernelOf(c, inT).value;
    var t := SK.ScalarTarget(k);
    KernelEnds(c, inT);
    SK.PrologueReady(k);
    var st := LowerBody(t, SK.Prologue(), k.body).value;
    BodyGrows(t, SK.Prologue(), k.body);
    SK.OuterBlocks(st);
    SK.EpilogueBlocks(k.outputDtype, st);
    if !st.terminated {
      var dead := BodyDead(t, SK.Prologue(), k.body);
      forall b | 0 <= b < |p.blocks| && b !in dead ensures Avoids(p.blocks[b].term, dead) {
        if b != SK.ELEM_EXIT && b != SK.OUTER_EXIT {
          assert p.blocks[b] == st.blocks[b];
        }
      }
      RunAvoids(p, dead, SK.Call(p, vars, out), n);
    }
  }
}
