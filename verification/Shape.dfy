/** The control flow that lowering emits is well formed: every new block ends in exactly one terminator,
    finished code is never touched again, every target exists and the loop stack is restored. */
module Shape {
  import opened Wrappers
  import opened Ir
  import opened Machine
  import opened Cfg
  import opened Lowering

  predicate TargetsBelow(t: Option<Terminator>, n: nat) {
    match t
    case None => true
    case Some(Jump(b)) => b < n
    case Some(Brif(_, y, e)) => y < n && e < n
    case Some(Ret) => true
  }

  predicate LocalsOk(locals: Locals, nvars: nat) {
    && (forall a <- locals :: 2 <= locals[a].v < nvars)
    && (forall a <- locals, b <- locals :: locals[a].v == locals[b].v ==> a == b)
  }

  predicate BlocksOk(blocks: seq<Block>) {
    forall i | 0 <= i < |blocks| :: TargetsBelow(blocks[i].term, |blocks|)
  }

  /** The invariant between statements: in particular the current block is unterminated exactly
      when `terminated` is false. */
  predicate Ready(t: Target, st: Build) {
    && st.cur < |st.blocks|
    && (st.terminated <==> st.blocks[st.cur].term.Some?)
    && t.exit < |st.blocks|
    && (forall f <- st.loops :: f.header < |st.blocks| && f.exit < |st.blocks|)
    && BlocksOk(st.blocks)
    && 2 <= st.nvars
    && LocalsOk(st.locals, st.nvars)
  }

  predicate LocalsGrow(a: Locals, b: Locals) {
    a.Keys <= b.Keys && forall x <- a :: b[x] == a[x]
  }

  /** `r` has the code of `st`, more of it in block `cur` at most. */
  predicate BlocksGrow(a: seq<Block>, cur: nat, r: seq<Block>) {
    && cur < |a| <= |r|
    && (forall b | 0 <= b < |a| && b != cur :: r[b] == a[b])
    && a[cur].instrs <= r[cur].instrs
    && (a[cur].term.Some? ==> r[cur] == a[cur])
  }

  /** Code of `a` found unchanged in `g`: instructions are a prefix, a finished block is the same. */
  predicate CodeIn(a: seq<Block>, g: seq<Block>) {
    && |a| <= |g|
    && (forall b | 0 <= b < |a| :: a[b].instrs <= g[b].instrs && (a[b].term.Some? ==> g[b] == a[b]))
  }

  lemma CodeInTrans(a: seq<Block>, b: seq<Block>, g: seq<Block>)
    requires CodeIn(a, b) && CodeIn(b, g)
    ensures CodeIn(a, g)
  {
  }

  /** Numbers handed out only go up, and locals once declared stay. */
  predicate Later(a: Build, r: Build) {
    a.nvals <= r.nvals && |a.blocks| <= |r.blocks| && LocalsGrow(a.locals, r.locals)
  }

  /** `r` is `st` with code added, the blocks `pending` still to be filled in: nothing already finished
      is touched, the current block only grows, and every new block other than the current one and
      the pending ones ends in a terminator. */
  predicate Partly(st: Build, r: Build, pending: set<nat>) {
    && BlocksGrow(st.blocks, st.cur, r.blocks) && r.cur < |r.blocks|
    && st.nvals <= r.nvals && st.nvars <= r.nvars
    && LocalsGrow(st.locals, r.locals)
    && (r.cur == st.cur || (|st.blocks| <= r.cur && r.blocks[st.cur].term.Some?))
    && (forall b | |st.blocks| <= b < |r.blocks| && b != r.cur && b !in pending :: r.blocks[b].term.Some?)
    && (forall b <- pending :: |st.blocks| <= b < |r.blocks| && b != r.cur && r.blocks[b] == EMPTY)
  }

  predicate Grows(st: Build, r: Build) {
    Partly(st, r, {}) && r.loops == st.loops
  }

  /** In the middle of lowering a statement that began at `st`. */
  predicate Going(t: Target, st: Build, r: Build, pending: set<nat>) {
    Ready(t, r) && !r.terminated && Partly(st, r, pending)
  }

  lemma Begin(t: Target, st: Build)
    requires Ready(t, st) && !st.terminated
    ensures Going(t, st, st, {})
  {
  }

  lemma GoingEmit(t: Target, st: Build, r: Build, pending: set<nat>, code: seq<Instr>, next: nat)
    requires Going(t, st, r, pending) && r.nvals <= next
    ensures Going(t, st, Emit(r, code, next), pending)
  {
  }

  lemma GoingDeclare(t: Target, st: Build, r: Build, pending: set<nat>, name: string, d: Dtype)
    requires Going(t, st, r, pending)
    ensures Going(t, st, Declare(r, name, d), pending)
  {
  }

  lemma GoingNew(t: Target, st: Build, r: Build, pending: set<nat>, n: nat, all: set<nat>)
    requires Going(t, st, r, pending)
    requires forall b :: b in all <==> b in pending || |r.blocks| <= b < |r.blocks| + n
    ensures Going(t, st, NewBlocks(r, n), all)
  {
  }

  /** Ending the current block and going on with a pending one. */
  lemma GoingEnter(t: Target, st: Build, r: Build, pending: set<nat>, term: Terminator, b: nat, rest: set<nat>)
    requires Going(t, st, r, pending) && TargetsBelow(Some(term), |r.blocks|)
    requires pending == rest + {b} && b !in rest
    ensures Going(t, st, Switch(Close(r, term), b), rest) && Switch(Close(r, term), b).blocks[b] == EMPTY
  {
  }

  /** Lowering a list inside a statement keeps the statement going, or has left its block. */
  lemma GoingBody(t: Target, st: Build, a: Build, r: Build, pending: set<nat>)
    requires Partly(st, a, pending) && Partly(a, r, {})
    ensures Partly(st, r, pending) && CodeIn(a.blocks, r.blocks) && Later(a, r)
  {
  }

  lemma GoingFill(t: Target, st: Build, r: Build, pending: set<nat>, next: nat, b: nat, rest: set<nat>)
    requires Ready(t, r) && Partly(st, r, pending) && next < |r.blocks|
    requires pending == rest + {b} && b !in rest
    ensures Going(t, st, Fill(r, next, b), rest) && Fill(r, next, b).loops == r.loops
    ensures CodeIn(r.blocks, Fill(r, next, b).blocks) && Fill(r, next, b).blocks[b] == EMPTY
  {
  }

  /** A loop body is lowered with one more frame on the loop stack, which popping removes. */
  lemma GoingLoop(t: Target, st: Build, a: Build, f: LoopFrame, r: Build, pending: set<nat>)
    requires Going(t, st, a, pending) && Ready(t, r) && Grows(PushLoop(a, f), r)
    ensures r.loops != [] && PopLoop(r).loops == a.loops
    ensures Partly(st, PopLoop(r), pending) && Ready(t, PopLoop(r)) && CodeIn(a.blocks, r.blocks) && Later(a, r)
  {
    assert Partly(a, PopLoop(r), {});
    GoingBody(t, st, a, PopLoop(r), pending);
  }

  lemma IfHeadGoing(t: Target, st: Build, k: Code)
    requires Ready(t, st) && !st.terminated && st.nvals <= k.next
    ensures Going(t, st, IfHead(st, k), {|st.blocks| + 1, |st.blocks| + 2})
    ensures var r := IfHead(st, k); |r.blocks| == |st.blocks| + 3 && r.loops == st.loops && r.cur == |st.blocks| && r.blocks[r.cur] == EMPTY
  {
    hide Ready, Partly, Going;
    var b := |st.blocks|;
    Begin(t, st);
    GoingEmit(t, st, st, {}, k.instrs, k.next);
    GoingNew(t, st, Emit(st, k.instrs, k.next), {}, 3, {b, b + 1, b + 2});
    GoingEnter(t, st, NewBlocks(Emit(st, k.instrs, k.next), 3), {b, b + 1, b + 2}, Brif(k.res, b, b + 1), b, {b + 1, b + 2});
  }

  lemma WhileEntryGoing(t: Target, st: Build)
    requires Ready(t, st) && !st.terminated
    ensures Going(t, st, WhileEntry(st), {|st.blocks| + 1, |st.blocks| + 2})
  {
    hide Ready, Partly, Going;
    var b := |st.blocks|;
    Begin(t, st);
    GoingNew(t, st, st, {}, 3, {b, b + 1, b + 2});
    GoingEnter(t, st, NewBlocks(st, 3), {b, b + 1, b + 2}, Jump(b), b, {b + 1, b + 2});
  }

  lemma WhileHeadGoing(t: Target, st: Build, k: Code)
    requires Ready(t, st) && !st.terminated && st.nvals <= k.next
    ensures Going(t, st, WhileHead(st, k), {|st.blocks| + 2})
    ensures var r := WhileHead(st, k); |r.blocks| == |st.blocks| + 3 && r.loops == st.loops && r.cur == |st.blocks| + 1 && r.blocks[r.cur] == EMPTY
  {
    hide Ready, Partly, Going;
    var b := |st.blocks|;
    WhileEntryGoing(t, st);
    GoingEmit(t, st, WhileEntry(st), {b + 1, b + 2}, k.instrs, k.next);
    GoingEnter(t, st, Emit(WhileEntry(st), k.instrs, k.next), {b + 1, b + 2}, Brif(k.res, b + 1, b + 2), b + 1, {b + 2});
  }

  lemma ForEntryGoing(t: Target, st: Build, v: string, from: Code, to: Code)
    requires Ready(t, st) && !st.terminated && st.nvals <= to.next
    ensures Going(t, st, ForEntry(st, v, from, to), {|st.blocks| + 1, |st.blocks| + 2})
  {
    hide Ready, Partly, Going;
    var b := |st.blocks|;
    var first := from.instrs + to.instrs + [DefVar(VarOf(st, v), from.res)];
    Begin(t, st);
    GoingDeclare(t, st, st, {}, v, I64);
    GoingEmit(t, st, Declare(st, v, I64), {}, first, to.next);
    var st1 := Emit(Declare(st, v, I64), first, to.next);
    GoingNew(t, st, st1, {}, 3, {b, b + 1, b + 2});
    GoingEnter(t, st, NewBlocks(st1, 3), {b, b + 1, b + 2}, Jump(b), b, {b + 1, b + 2});
  }

  lemma ForHeaderGoing(t: Target, st: Build, v: string, from: Code, to: Code)
    requires Ready(t, st) && !st.terminated && st.nvals <= to.next
    ensures var r := ForHeader(st, v, from, to);
            Going(t, st, r, {|st.blocks| + 1, |st.blocks| + 2}) && r.nvals == to.next + 2
            && |r.blocks| == |st.blocks| + 4 && r.loops == st.loops && r.cur == |st.blocks| + 3
  {
    hide Ready, Partly, Going, CodeIn, ForTest;
    var b := |st.blocks|;
    var n := to.next;
    ForEntryGoing(t, st, v, from, to);
    var st0 := ForEntry(st, v, from, to);
    var code := ForTest(n, VarOf(st, v), to.res);
    GoingEmit(t, st, st0, {b + 1, b + 2}, code, n + 2);
    var st1 := Emit(st0, code, n + 2);
    GoingNew(t, st, st1, {b + 1, b + 2}, 1, {b + 1, b + 2, b + 3});
    GoingEnter(t, st, NewBlocks(st1, 1), {b + 1, b + 2, b + 3}, Brif(n + 1, b + 1, b + 2), b + 3, {b + 1, b + 2});
    var st2 := ForHeader(st, v, from, to);
    assert st2.blocks == Switch(Close(NewBlocks(st1, 1), Brif(n + 1, b + 1, b + 2)), b + 3).blocks;
  }

  lemma ForHeadGoing(t: Target, st: Build, v: string, from: Code, to: Code)
    requires Ready(t, st) && !st.terminated && st.nvals <= to.next
    ensures Going(t, st, ForHead(st, v, from, to), {|st.blocks| + 2})
    ensures var r := ForHead(st, v, from, to);
            |r.blocks| == |st.blocks| + 4 && r.loops == st.loops && r.cur == |st.blocks| + 1 && r.blocks[r.cur] == EMPTY
  {
    hide Ready, Partly, Going, ForHeader, CodeIn, ForStep;
    var b := |st.blocks|;
    var n := to.next;
    ForHeaderGoing(t, st, v, from, to);
    var st0 := ForHeader(st, v, from, to);
    var code := ForStep(n + 2, VarOf(st, v));
    GoingEmit(t, st, st0, {b + 1, b + 2}, code, n + 5);
    GoingEnter(t, st, Emit(st0, code, n + 5), {b + 1, b + 2}, Jump(b), b + 1, {b + 2});
  }

  lemma {:induction false} BodyGrows(t: Target, st: Build, ss: seq<Stmt>)
    requires Ready(t, st) && LowerBody(t, st, ss).Ok?
    ensures Ready(t, LowerBody(t, st, ss).value) && Grows(st, LowerBody(t, st, ss).value)
    decreases ss, 0
  {
    if ss != [] && !st.terminated {
      var a := LowerStmt(t, st, ss[0]).value;
      StmtGrows(t, st, ss[0]);
      BodyGrows(t, a, ss[1..]);
      GoingBody(t, st, a, LowerBody(t, st, ss).value, {});
    }
  }

  lemma {:induction false} StmtGrows(t: Target, st: Build, s: Stmt)
    requires Ready(t, st) && !st.terminated && LowerStmt(t, st, s).Ok?
    ensures Ready(t, LowerStmt(t, st, s).value) && Grows(st, LowerStmt(t, st, s).value)
    decreases s, 1
  {
    match s
    case Assign(name, d, e) =>
      var k := ExprCode(t, st.locals, e, d, st.nvals).value;
      Begin(t, st);
      GoingDeclare(t, st, st, {}, name, d);
      GoingEmit(t, st, Declare(st, name, d), {}, k.instrs + [DefVar(VarOf(st, name), k.res)], k.next);
    case Return(e) =>
    case Break =>
    case Continue =>
    case If(_, _, _) => var _, _, _, _ := IfParts(t, st, s);
    case While(_, _) => var _, _ := WhileParts(t, st, s);
    case ForRange(_, _, _, _) => var _, _, _, _ := ForParts(t, st, s);
  }

  /** The states a conditional is lowered through: at the start and end of each branch. */
  lemma {:induction false} IfParts(t: Target, st: Build, s: Stmt)
    returns (st0: Build, st1: Build, st2: Build, st3: Build)
    requires Ready(t, st) && !st.terminated && s.If? && LowerStmt(t, st, s).Ok?
    ensures ExprCode(t, st.locals, s.test, I64, st.nvals).Ok?
    ensures st0 == IfHead(st, ExprCode(t, st.locals, s.test, I64, st.nvals).value)
    ensures Ready(t, st0) && !st0.terminated && st0.cur == |st.blocks| < |st0.blocks| && st0.blocks[st0.cur] == EMPTY
    ensures LowerBody(t, st0, s.thenBody) == Ok(st1) && Ready(t, st1) && CodeIn(st0.blocks, st1.blocks) && Later(st0, st1)
    ensures st2 == Fill(st1, |st.blocks| + 2, |st.blocks| + 1) && CodeIn(st1.blocks, st2.blocks)
    ensures Ready(t, st2) && !st2.terminated && st2.cur < |st2.blocks| && st2.blocks[st2.cur] == EMPTY
    ensures LowerBody(t, st2, s.elseBody) == Ok(st3) && Ready(t, st3) && CodeIn(st2.blocks, st3.blocks) && Later(st2, st3)
    ensures var st4 := Fill(st3, |st.blocks| + 2, |st.blocks| + 2);
            LowerStmt(t, st, s) == Ok(st4) && CodeIn(st3.blocks, st4.blocks) && st4.cur < |st4.blocks| && st4.blocks[st4.cur] == EMPTY
    ensures st0.loops == st2.loops == st.loops
    ensures Ready(t, LowerStmt(t, st, s).value) && Grows(st, LowerStmt(t, st, s).value)
    decreases s, 0
  {
    hide Ready, Partly, Going, ExprCode, LowerBody, IfHead, Fill, CodeIn, Later;
    var b := |st.blocks|;
    var k := ExprCode(t, st.locals, s.test, I64, st.nvals).value;
    IfHeadGoing(t, st, k);
    st0 := IfHead(st, k);
    GoingReady(t, st, st0, {b + 1, b + 2});
    st1 := LowerBody(t, st0, s.thenBody).value;
    BodyGrows(t, st0, s.thenBody);
    GoingBody(t, st, st0, st1, {b + 1, b + 2});
    BlockCount(st0, st1);
    GoingFill(t, st, st1, {b + 1, b + 2}, b + 2, b + 1, {b + 2});
    st2 := Fill(st1, b + 2, b + 1);
    GoingReady(t, st, st2, {b + 2});
    FillCur(st1, b + 2, b + 1);
    st3 := LowerBody(t, st2, s.elseBody).value;
    BodyGrows(t, st2, s.elseBody);
    GoingBody(t, st, st2, st3, {b + 2});
    BlockCount(st2, st3);
    GoingFill(t, st, st3, {b + 2}, b + 2, b + 2, {});
    FillCur(st3, b + 2, b + 2);
    GoingReady(t, st, Fill(st3, b + 2, b + 2), {});
  }

  lemma BlockCount(a: Build, r: Build)
    requires Later(a, r)
    ensures |a.blocks| <= |r.blocks|
  {
  }

  lemma FillCur(st: Build, next: nat, b: nat)
    ensures Fill(st, next, b).cur == b && |Fill(st, next, b).blocks| == |st.blocks|
  {
  }

  lemma PushReady(t: Target, st: Build, r: Build, pending: set<nat>, f: LoopFrame)
    requires Going(t, st, r, pending) && f.header < |r.blocks| && f.exit < |r.blocks|
    ensures Ready(t, PushLoop(r, f)) && !PushLoop(r, f).terminated
  {
  }

  /** The states around the body of a `while`. */
  lemma {:induction false} WhileParts(t: Target, st: Build, s: Stmt) returns (st0: Build, st1: Build)
    requires Ready(t, st) && !st.terminated && s.While? && LowerStmt(t, st, s).Ok?
    ensures ExprCode(t, st.locals, s.cond, I64, st.nvals).Ok?
    ensures st0 == PushLoop(WhileHead(st, ExprCode(t, st.locals, s.cond, I64, st.nvals).value),
                            LoopFrame(|st.blocks|, |st.blocks| + 2))
    ensures LowerBody(t, st0, s.wbody) == Ok(st1)
    ensures LoopShape(t, st, s, st0, st1, |st.blocks|, |st.blocks| + 2)
    decreases s, 0
  {
    hide Ready, Partly, Going, ExprCode, LowerBody, WhileHead, Fill, CodeIn, Later;
    var b := |st.blocks|;
    var f := LoopFrame(b, b + 2);
    var k := ExprCode(t, st.locals, s.cond, I64, st.nvals).value;
    WhileHeadGoing(t, st, k);
    PushReady(t, st, WhileHead(st, k), {b + 2}, f);
    st0 := PushLoop(WhileHead(st, k), f);
    BodyGrows(t, st0, s.wbody);
    st1 := LowerBody(t, st0, s.wbody).value;
    GoingLoop(t, st, WhileHead(st, k), f, st1, {b + 2});
    LaterPush(WhileHead(st, k), f, st1);
    GoingFill(t, st, PopLoop(st1), {b + 2}, b, b + 2, {});
    GoingReady(t, st, Fill(PopLoop(st1), b, b + 2), {});
    FillCur(PopLoop(st1), b, b + 2);
  }

  /** A loop lowered: `st0` at the start of the body, `st1` at its end. */
  predicate LoopShape(t: Target, st: Build, s: Stmt, st0: Build, st1: Build, next: nat, exit: nat) {
    && Ready(t, st0) && !st0.terminated && st0.cur == |st.blocks| + 1 < |st0.blocks| && st0.blocks[st0.cur] == EMPTY
    && Ready(t, st1) && CodeIn(st0.blocks, st1.blocks) && Later(st0, st1)
    && LoopEnd(t, st, s, st1, Fill(PopLoop(st1), next, exit))
  }

  predicate LoopEnd(t: Target, st: Build, s: Stmt, st1: Build, r: Build) {
    && LowerStmt(t, st, s) == Ok(r) && CodeIn(st1.blocks, r.blocks) && r.cur < |r.blocks| && r.blocks[r.cur] == EMPTY
    && Ready(t, r) && Grows(st, r)
  }

  lemma LaterPush(a: Build, f: LoopFrame, r: Build)
    requires Later(a, r)
    ensures Later(PushLoop(a, f), r) && |PopLoop(r).blocks| == |r.blocks| && |a.blocks| <= |r.blocks|
  {
  }

  /** The bounds of a counted loop and the states around its body. */
  lemma {:induction false} ForParts(t: Target, st: Build, s: Stmt)
    returns (from: Code, to: Code, st0: Build, st1: Build)
    requires Ready(t, st) && !st.terminated && s.ForRange? && LowerStmt(t, st, s).Ok?
    ensures ExprCode(t, st.locals, s.start, I64, st.nvals) == Ok(from)
    ensures ExprCode(t, st.locals, s.end, I64, from.next) == Ok(to)
    ensures st0 == PushLoop(ForHead(st, s.loopVar, from, to), LoopFrame(|st.blocks| + 3, |st.blocks| + 2))
    ensures LowerBody(t, st0, s.body) == Ok(st1)
    ensures LoopShape(t, st, s, st0, st1, |st.blocks| + 3, |st.blocks| + 2)
    decreases s, 0
  {
    hide Ready, Partly, Going, ExprCode, LowerBody, ForHead, Fill, CodeIn, Later;
    var b := |st.blocks|;
    var f := LoopFrame(b + 3, b + 2);
    from := ExprCode(t, st.locals, s.start, I64, st.nvals).value;
    to := ExprCode(t, st.locals, s.end, I64, from.next).value;
    ForHeadGoing(t, st, s.loopVar, from, to);
    var h := ForHead(st, s.loopVar, from, to);
    PushReady(t, st, h, {b + 2}, f);
    st0 := PushLoop(h, f);
    BodyGrows(t, st0, s.body);
    st1 := LowerBody(t, st0, s.body).value;
    GoingLoop(t, st, h, f, st1, {b + 2});
    LaterPush(h, f, st1);
    GoingFill(t, st, PopLoop(st1), {b + 2}, b + 3, b + 2, {});
    GoingReady(t, st, Fill(PopLoop(st1), b + 3, b + 2), {});
    FillCur(PopLoop(st1), b + 3, b + 2);
  }

  lemma GoingReady(t: Target, st: Build, r: Build, pending: set<nat>)
    requires Going(t, st, r, pending)
    ensures Ready(t, r) && !r.terminated && Partly(st, r, pending)
  {
  }
}
