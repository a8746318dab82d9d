/** Conversions nobody wrote.  The code generator makes every leaf of an expression a value of the dtype its consumer
    wants (`coerce`), so an f64 may be tested.  Here the conversions are written out as casts: an IR kernel and the
    kernel with its conversions written out have the same code, so what the second means the first does. */
module ImplicitCasts {
  import opened Wrappers
  import opened Ir
  import opened Machine
  import opened Cfg
  import opened Lowering
  import opened Semantics
  import EC = ExprCorrect
  import SK = ScalarKernel
  import S = Simd
  import V = SimdKernel
  import W = Walker
  import Py = PyAst

  // ----- one conversion -----

  /** A value of dtype `d` where `want` is wanted: conversions round towards zero, and trap, as the machine does. */
  function Converted(m: Fpu, u: Option<Val>, d: Dtype, want: Dtype): Option<Val> {
    if d == want then u else if want == I64 then ToI64(m, u) else ToF64(m, u)
  }

  /** Coerced code yields the converted value, and traps exactly when the conversion does. */
  lemma CoercedRuns(p: Program, k: Code, d: Dtype, want: Dtype, r: Regs, n: nat, u: Option<Val>)
    requires EC.Yields(p, k, r, n, u) && n <= k.next && (u.Some? ==> HasType(u.value, d))
    ensures EC.Yields(p, Coerced(k, d, want), r, n, Converted(p.fpu, u, d, want))
  {
    if d != want {
      var ins := if d == I64 then FromSint(k.next, k.res) else ToSint(k.next, k.res);
      if u.None? {
        EC.YieldsTrap(p, k.instrs, ins, r, n, k.next + 1, k.next);
      } else {
        EC.YieldsLast(p, k.instrs, ins, r, n, Run(p, k.instrs, r).value, Converted(p.fpu, u, d, want));
      }
    }
  }

  /** The same in both lanes. */
  lemma CoercedLanes(p: Program, k: Code, d: Dtype, want: Dtype, r: Regs, n: nat, u: Val, v: Val)
    requires EC.Yields(p, k, r, n, S.Lanes(Some(u), Some(v))) && n <= k.next && HasType(u, d) && HasType(v, d)
    ensures EC.Yields(p, Coerced(k, d, want), r, n,
                      S.Lanes(Converted(p.fpu, Some(u), d, want), Converted(p.fpu, Some(v), d, want)))
  {
    if d != want {
      var ins := if d == I64 then FromSint(k.next, k.res) else ToSint(k.next, k.res);
      EC.YieldsLast(p, k.instrs, ins, r, n, Run(p, k.instrs, r).value,
                    S.Lanes(Converted(p.fpu, Some(u), d, want), Converted(p.fpu, Some(v), d, want)));
    }
  }

  // ----- expressions -----

  function Cast(e: Expr, have: Dtype, want: Dtype): Expr {
    if have == want then e else if want == I64 then CastToI64(e) else CastToF64(e)
  }

  /** The dtype a comparison's operands are wanted in. */
  function Guess(inT: Dtype, ts: Types, l: Expr, r: Expr): Dtype {
    GuessCmpDtype(Target(inT, inT, 0, 0), map a | a in ts :: Slot(0, ts[a]), l, r)
  }

  /** The expression with casts where its code converts, when `want` is wanted of it. */
  function Explicit(inT: Dtype, ts: Types, e: Expr, want: Dtype): Expr {
    match e
    case Param => Cast(e, inT, want)
    case Local(name) => if name in ts then Cast(e, ts[name], want) else e
    case ConstI64(_) => Cast(e, I64, want)
    case ConstF64(_) => Cast(e, F64, want)
    case ConstBool(_) => e
    case Unary(op, a) => Unary(op, Explicit(inT, ts, a, want))
    case MathCall(f, a) => MathCall(f, Explicit(inT, ts, a, F64))
    case CastToI64(a) => CastToI64(Explicit(inT, ts, a, F64))
    case CastToF64(a) => CastToF64(Explicit(inT, ts, a, I64))
    case Binary(op, l, r) => Binary(op, Explicit(inT, ts, l, want), Explicit(inT, ts, r, want))
    case Compare(op, l, r) =>
      var d := Guess(inT, ts, l, r);
      Compare(op, Explicit(inT, ts, l, d), Explicit(inT, ts, r, d))
    case IfExpr(c, y, n) => IfExpr(Explicit(inT, ts, c, I64), Explicit(inT, ts, y, want), Explicit(inT, ts, n, want))
  }

  lemma {:induction false} InspectByTypes(t: Target, locals: Locals, e: Expr, u: Target, others: Locals)
    requires t.inT == u.inT && EC.TypesOf(locals) == EC.TypesOf(others)
    ensures Inspect(t, locals, e) == Inspect(u, others, e)
  {
    match e
    case Local(name) =>
      assert name in locals <==> name in EC.TypesOf(locals);
      assert name in others <==> name in EC.TypesOf(others);
      assert name in locals ==> locals[name].d == EC.TypesOf(locals)[name];
      assert name in others ==> others[name].d == EC.TypesOf(others)[name];
    case Unary(_, a) => InspectByTypes(t, locals, a, u, others);
    case Binary(_, l, r) =>
      InspectByTypes(t, locals, l, u, others);
      InspectByTypes(t, locals, r, u, others);
    case Compare(_, l, r) =>
      InspectByTypes(t, locals, l, u, others);
      InspectByTypes(t, locals, r, u, others);
    case IfExpr(_, y, n) =>
      InspectByTypes(t, locals, y, u, others);
      InspectByTypes(t, locals, n, u, others);
    case _ =>
  }

  lemma GuessByTypes(t: Target, locals: Locals, l: Expr, r: Expr)
    ensures Guess(t.inT, EC.TypesOf(locals), l, r) == GuessCmpDtype(t, locals, l, r)
  {
    var ts := EC.TypesOf(locals);
    var others: Locals := map a | a in ts :: Slot(0, ts[a]);
    assert EC.TypesOf(others) == ts;
    InspectByTypes(t, locals, l, Target(t.inT, t.inT, 0, 0), others);
    InspectByTypes(t, locals, r, Target(t.inT, t.inT, 0, 0), others);
  }

  /** Writing conversions out keeps the guess for a comparison. */
  lemma {:induction false} InspectExplicit(t: Target, locals: Locals, e: Expr, want: Dtype)
    ensures var g, x := Inspect(t, locals, e), Inspect(t, locals, Explicit(t.inT, EC.TypesOf(locals), e, want));
            (g == None ==> x == None) && (g == Some(want) ==> x == g)
  {
    match e
    case Unary(_, a) => InspectExplicit(t, locals, a, want);
    case Binary(_, l, r) =>
      InspectExplicit(t, locals, l, want);
      InspectExplicit(t, locals, r, want);
    case Compare(_, l, r) =>
      GuessByTypes(t, locals, l, r);
      var d := GuessCmpDtype(t, locals, l, r);
      InspectExplicit(t, locals, l, d);
      InspectExplicit(t, locals, r, d);
    case IfExpr(_, y, n) =>
      InspectExplicit(t, locals, y, want);
      InspectExplicit(t, locals, n, want);
    case _ =>
  }

  predicate Same(t: Target, locals: Locals, e: Expr, want: Dtype, next: nat) {
    ExprCode(t, locals, Explicit(t.inT, EC.TypesOf(locals), e, want), want, next) == ExprCode(t, locals, e, want, next)
  }

  /** The code is the same. */
  lemma {:induction false} SameCode(t: Target, locals: Locals, e: Expr, want: Dtype, next: nat)
    ensures Same(t, locals, e, want, next)
    decreases e, 2
  {
    if IsLeaf(e) {
      LeafSame(t, locals, e, want, next);
    } else if IsUnary(e) {
      UnarySame(t, locals, e, want, next);
    } else if e.Binary? {
      BinarySame(t, locals, e, want, next);
    } else if e.Compare? {
      CompareSame(t, locals, e, want, next);
    } else {
      IfExprSame(t, locals, e, want, next);
    }
    hide *;
  }

  /** A unary operation and the same with its operand written out differ in the operand alone. */
  ghost predicate Alike(e: Expr, x: Expr, want: Dtype, a: Expr)
    requires IsUnary(e)
  {
    && IsUnary(x) && Operand(x, want) == (a, Operand(e, want).1)
    && (x.MathCall? <==> e.MathCall?) && (x.Unary? <==> e.Unary?) && (e.Unary? ==> x.uop == e.uop)
    && forall dst: nat, src: nat :: UnaryInstr(x, want, dst, src) == UnaryInstr(e, want, dst, src)
  }

  lemma UnaryExplicit(inT: Dtype, ts: Types, e: Expr, want: Dtype)
    requires IsUnary(e)
    ensures Alike(e, Explicit(inT, ts, e, want), want, Explicit(inT, ts, Operand(e, want).0, Operand(e, want).1))
  {
  }

  lemma UnaryAlike(t: Target, locals: Locals, e: Expr, x: Expr, want: Dtype, next: nat)
    requires IsUnary(e) && Alike(e, x, want, Explicit(t.inT, EC.TypesOf(locals), Operand(e, want).0, Operand(e, want).1))
    requires Same(t, locals, Operand(e, want).0, Operand(e, want).1, next)
    ensures UnaryCode(t, locals, x, want, next) == UnaryCode(t, locals, e, want, next)
  {
    hide ExprCode, Explicit, UnaryInstr, Operand;
  }

  lemma {:induction false} UnarySame(t: Target, locals: Locals, e: Expr, want: Dtype, next: nat)
    requires IsUnary(e)
    ensures Same(t, locals, e, want, next)
    decreases e, 1
  {
    hide ExprCode, Explicit, UnaryInstr, UnaryCode, BinaryCode, CompareCode, IfExprCode, LeafCode;
    var x := Explicit(t.inT, EC.TypesOf(locals), e, want);
    UnaryExplicit(t.inT, EC.TypesOf(locals), e, want);
    SameCode(t, locals, Operand(e, want).0, Operand(e, want).1, next);
    UnaryAlike(t, locals, e, x, want, next);
    EC.CodeLevel(t, locals, e, want, next);
    EC.CodeLevel(t, locals, x, want, next);
  }

  lemma {:induction false} BinarySame(t: Target, locals: Locals, e: Expr, want: Dtype, next: nat)
    requires e.Binary?
    ensures Same(t, locals, e, want, next)
    decreases e, 1
  {
    hide ExprCode, Inspect, Guess, UnaryCode, CompareCode, IfExprCode, LeafCode;
    PairSame(t, locals, e, e.left, e.right, want, next);
    EC.CodeLevel(t, locals, e, want, next);
    EC.CodeLevel(t, locals, Explicit(t.inT, EC.TypesOf(locals), e, want), want, next);
  }

  lemma {:induction false} CompareSame(t: Target, locals: Locals, e: Expr, want: Dtype, next: nat)
    requires e.Compare?
    ensures Same(t, locals, e, want, next)
    decreases e, 1
  {
    var d := GuessCmpDtype(t, locals, e.cleft, e.cright);
    GuessByTypes(t, locals, e.cleft, e.cright);
    InspectExplicit(t, locals, e.cleft, d);
    InspectExplicit(t, locals, e.cright, d);
    hide ExprCode, Inspect, Guess, UnaryCode, BinaryCode, IfExprCode, LeafCode;
    PairSame(t, locals, e, e.cleft, e.cright, d, next);
    EC.CodeLevel(t, locals, e, want, next);
    EC.CodeLevel(t, locals, Explicit(t.inT, EC.TypesOf(locals), e, want), want, next);
  }

  lemma {:induction false} IfExprSame(t: Target, locals: Locals, e: Expr, want: Dtype, next: nat)
    requires e.IfExpr?
    ensures Same(t, locals, e, want, next)
    decreases e, 1
  {
    hide ExprCode, Inspect, Guess, UnaryCode, BinaryCode, CompareCode, LeafCode;
    SameCode(t, locals, e.test, I64, next);
    var c := ExprCode(t, locals, e.test, I64, next);
    if c.Ok? {
      PairSame(t, locals, e, e.yes, e.no, want, c.value.next);
    }
    EC.CodeLevel(t, locals, e, want, next);
    EC.CodeLevel(t, locals, Explicit(t.inT, EC.TypesOf(locals), e, want), want, next);
  }

  lemma {:induction false} PairSame(t: Target, locals: Locals, e: Expr, l: Expr, r: Expr, d: Dtype, next: nat)
    requires l < e && r < e
    ensures Same(t, locals, l, d, next)
    ensures var a := ExprCode(t, locals, l, d, next); a.Ok? ==> Same(t, locals, r, d, a.value.next)
    decreases e, 0
  {
    hide ExprCode, Same;
    SameCode(t, locals, l, d, next);
    if ExprCode(t, locals, l, d, next).Ok? {
      SameCode(t, locals, r, d, ExprCode(t, locals, l, d, next).value.next);
    }
  }

  lemma LeafSame(t: Target, locals: Locals, e: Expr, want: Dtype, next: nat)
    requires IsLeaf(e)
    ensures Same(t, locals, e, want, next)
  {
    EC.CodeLevel(t, locals, Explicit(t.inT, EC.TypesOf(locals), e, want), want, next);
    EC.CodeLevel(t, locals, e, want, next);
    EC.CodeLevel(t, locals, e, if want == I64 then F64 else I64, next);
    hide ExprCode, BinaryCode, CompareCode, IfExprCode;
  }

  // ----- statements -----

  /** The dtypes of the locals after a statement: a local keeps the one it is first given. */
  function After(s: Stmt, ts: Types): Types
    decreases s, 0
  {
    match s
    case Assign(name, d, _) => Known(ts, name, d)
    case If(_, yes, no) => AfterBody(no, AfterBody(yes, ts))
    case While(_, body) => AfterBody(body, ts)
    case ForRange(v, _, _, body) => AfterBody(body, Known(ts, v, I64))
    case _ => ts
  }

  function Known(ts: Types, name: string, d: Dtype): Types { if name in ts then ts else ts[name := d] }

  function AfterBody(ss: seq<Stmt>, ts: Types): Types
    decreases ss, 0
  {
    if ss == [] then ts
    else if Jumps(ss[0]) then After(ss[0], ts)
    else AfterBody(ss[1..], After(ss[0], ts))
  }

  function ExplicitStmt(inT: Dtype, outT: Dtype, ts: Types, s: Stmt): Stmt
    decreases s, 0
  {
    match s
    case Assign(name, d, e) => Assign(name, d, Explicit(inT, ts, e, d))
    case Return(e) => Return(Explicit(inT, ts, e, outT))
    case If(c, yes, no) => If(Explicit(inT, ts, c, I64), ExplicitBody(inT, outT, ts, yes), ExplicitBody(inT, outT, AfterBody(yes, ts), no))
    case While(c, body) => While(Explicit(inT, ts, c, I64), ExplicitBody(inT, outT, ts, body))
    case ForRange(v, lo, hi, body) =>
      ForRange(v, Explicit(inT, ts, lo, I64), Explicit(inT, ts, hi, I64), ExplicitBody(inT, outT, Known(ts, v, I64), body))
    case _ => s
  }

  function ExplicitBody(inT: Dtype, outT: Dtype, ts: Types, ss: seq<Stmt>): seq<Stmt>
    decreases ss, 0
  {
    if ss == [] then [] else [ExplicitStmt(inT, outT, ts, ss[0])] + ExplicitBody(inT, outT, After(ss[0], ts), ss[1..])
  }

  lemma Declared(st: Build, name: string, d: Dtype)
    ensures EC.TypesOf(Declare(st, name, d).locals) == Known(EC.TypesOf(st.locals), name, d)
  {
  }

  predicate SameStmt(t: Target, st: Build, s: Stmt) {
    var ts := EC.TypesOf(st.locals);
    var r := LowerStmt(t, st, s);
    && LowerStmt(t, st, ExplicitStmt(t.inT, t.outT, ts, s)) == r
    && (r.Ok? ==> EC.TypesOf(r.value.locals) == After(s, ts) && (r.value.terminated <==> Jumps(s)))
  }

  predicate SameBody(t: Target, st: Build, ss: seq<Stmt>) {
    var ts := EC.TypesOf(st.locals);
    var r := LowerBody(t, st, ss);
    && LowerBody(t, st, ExplicitBody(t.inT, t.outT, ts, ss)) == r
    && (r.Ok? ==> EC.TypesOf(r.value.locals) == AfterBody(ss, ts))
  }

  lemma {:induction false} StmtSame(t: Target, st: Build, s: Stmt)
    requires !st.terminated
    ensures SameStmt(t, st, s)
    decreases s, 1
  {
    match s
    case If(_, _, _) => IfSame(t, st, s);
    case While(_, _) => WhileSame(t, st, s);
    case ForRange(_, _, _, _) => ForSame(t, st, s);
    case _ => SimpleSame(t, st, s);
  }

  lemma SimpleSame(t: Target, st: Build, s: Stmt)
    requires s.Assign? || s.Return? || s.Break? || s.Continue?
    requires !st.terminated
    ensures SameStmt(t, st, s)
  {
    hide ExprCode, Explicit;
    match s
    case Assign(name, d, e) =>
      SameCode(t, st.locals, e, d, st.nvals);
      Declared(st, name, d);
    case Return(e) => SameCode(t, st.locals, e, t.outT, st.nvals);
    case _ =>
  }

  lemma HeadLocals(st: Build, k: Code, f: LoopFrame)
    ensures IfHead(st, k).locals == st.locals && !IfHead(st, k).terminated
    ensures var w := PushLoop(WhileHead(st, k), f); w.locals == st.locals && !w.terminated
  {
  }

  lemma ForHeadLocals(st: Build, v: string, from: Code, to: Code, f: LoopFrame)
    ensures var w := PushLoop(ForHead(st, v, from, to), f);
            EC.TypesOf(w.locals) == Known(EC.TypesOf(st.locals), v, I64) && !w.terminated
  {
    Declared(st, v, I64);
    hide ForTest, ForStep, EC.TypesOf;
  }

  lemma FillLocals(st: Build, a: nat, b: nat)
    ensures Fill(st, a, b).locals == st.locals == Fill(PopLoop(st), a, b).locals
    ensures !Fill(st, a, b).terminated && !Fill(PopLoop(st), a, b).terminated
  {
  }

  lemma {:induction false} IfSame(t: Target, st: Build, s: Stmt)
    requires s.If? && !st.terminated
    ensures SameStmt(t, st, s)
    decreases s, 0
  {
    hide ExprCode, Explicit, LowerBody, ExplicitBody, AfterBody, IfHead, Fill, EC.TypesOf;
    SameCode(t, st.locals, s.test, I64, st.nvals);
    var k := ExprCode(t, st.locals, s.test, I64, st.nvals);
    if k.Ok? {
      var b := |st.blocks|;
      HeadLocals(st, k.value, LoopFrame(0, 0));
      BodySame(t, IfHead(st, k.value), s.thenBody);
      var a := LowerBody(t, IfHead(st, k.value), s.thenBody);
      if a.Ok? {
        FillLocals(a.value, b + 2, b + 1);
        BodySame(t, Fill(a.value, b + 2, b + 1), s.elseBody);
        var c := LowerBody(t, Fill(a.value, b + 2, b + 1), s.elseBody);
        if c.Ok? {
          FillLocals(c.value, b + 2, b + 2);
        }
      }
    }
  }

  lemma {:induction false} WhileSame(t: Target, st: Build, s: Stmt)
    requires s.While? && !st.terminated
    ensures SameStmt(t, st, s)
    decreases s, 0
  {
    hide ExprCode, Explicit, LowerBody, ExplicitBody, AfterBody, WhileHead, PushLoop, PopLoop, Fill, EC.TypesOf;
    SameCode(t, st.locals, s.cond, I64, st.nvals);
    var k := ExprCode(t, st.locals, s.cond, I64, st.nvals);
    if k.Ok? {
      var f := LoopFrame(|st.blocks|, |st.blocks| + 2);
      HeadLocals(st, k.value, f);
      BodySame(t, PushLoop(WhileHead(st, k.value), f), s.wbody);
      var a := LowerBody(t, PushLoop(WhileHead(st, k.value), f), s.wbody);
      if a.Ok? {
        FillLocals(a.value, |st.blocks|, |st.blocks| + 2);
      }
    }
  }

  lemma {:induction false} ForSame(t: Target, st: Build, s: Stmt)
    requires s.ForRange? && !st.terminated
    ensures SameStmt(t, st, s)
    decreases s, 0
  {
    hide ExprCode, Explicit, LowerBody, ExplicitBody, AfterBody, ForHead, PushLoop, PopLoop, Fill, EC.TypesOf, Known;
    SameCode(t, st.locals, s.start, I64, st.nvals);
    var from := ExprCode(t, st.locals, s.start, I64, st.nvals);
    if from.Ok? {
      SameCode(t, st.locals, s.end, I64, from.value.next);
      var to := ExprCode(t, st.locals, s.end, I64, from.value.next);
      if to.Ok? {
        var f := LoopFrame(|st.blocks| + 3, |st.blocks| + 2);
        ForHeadLocals(st, s.loopVar, from.value, to.value, f);
        var head := PushLoop(ForHead(st, s.loopVar, from.value, to.value), f);
        BodySame(t, head, s.body);
        var a := LowerBody(t, head, s.body);
        if a.Ok? {
          FillLocals(a.value, |st.blocks| + 3, |st.blocks| + 2);
        }
      }
    }
  }

  lemma {:induction false} BodySame(t: Target, st: Build, ss: seq<Stmt>)
    requires !st.terminated
    ensures SameBody(t, st, ss)
    decreases ss, 0
  {
    hide LowerStmt, ExplicitStmt, After;
    if ss != [] {
      var ts := EC.TypesOf(st.locals);
      var xs := ExplicitBody(t.inT, t.outT, ts, ss);
      StmtSame(t, st, ss[0]);
      var a := LowerStmt(t, st, ss[0]);
      assert xs[0] == ExplicitStmt(t.inT, t.outT, ts, ss[0]) && xs[1..] == ExplicitBody(t.inT, t.outT, After(ss[0], ts), ss[1..]);
      if a.Ok? {
        if a.value.terminated {
          assert LowerBody(t, a.value, ss[1..]) == LowerBody(t, a.value, xs[1..]) == a;
        } else {
          BodySame(t, a.value, ss[1..]);
        }
      }
    }
  }

  // ----- vector code -----

  lemma {:induction false} PureExplicit(inT: Dtype, ts: Types, e: Expr, want: Dtype)
    ensures IsPureSimdExpr(Explicit(inT, ts, e, want)) <==> IsPureSimdExpr(e)
  {
    hide Guess;
    match e
    case Unary(_, a) => PureExplicit(inT, ts, a, want);
    case MathCall(_, a) =>
    case CastToI64(a) => PureExplicit(inT, ts, a, F64);
    case CastToF64(a) => PureExplicit(inT, ts, a, I64);
    case Binary(_, l, r) =>
      PureExplicit(inT, ts, l, want);
      PureExplicit(inT, ts, r, want);
    case Compare(_, l, r) =>
      PureExplicit(inT, ts, l, Guess(inT, ts, l, r));
      PureExplicit(inT, ts, r, Guess(inT, ts, l, r));
    case IfExpr(c, y, n) =>
      PureExplicit(inT, ts, c, I64);
      PureExplicit(inT, ts, y, want);
      PureExplicit(inT, ts, n, want);
    case _ =>
  }

  predicate SameLanes(inT: Dtype, param: nat, e: Expr, want: Dtype, next: nat) {
    S.SimdCode(inT, param, Explicit(inT, map[], e, want), want, next) == S.SimdCode(inT, param, e, want, next)
  }

  /** The vector code is the same. */
  lemma {:induction false} SameSimd(inT: Dtype, param: nat, e: Expr, want: Dtype, next: nat)
    requires IsPureSimdExpr(e)
    ensures SameLanes(inT, param, e, want, next)
    decreases e, 2
  {
    if IsLeaf(e) {
      LeafLanes(inT, param, e, want, next);
    } else if IsUnary(e) {
      UnaryLanes(inT, param, e, want, next);
    } else if e.Binary? {
      BinaryLanes(inT, param, e, want, next);
    } else if e.Compare? {
      CompareLanes(inT, param, e, want, next);
    } else {
      IfLanes(inT, param, e, want, next);
    }
    hide *;
  }

  lemma LeafLanes(inT: Dtype, param: nat, e: Expr, want: Dtype, next: nat)
    requires IsLeaf(e)
    ensures SameLanes(inT, param, e, want, next)
  {
    S.SimdLevel(inT, param, e, want, next);
    S.SimdLevel(inT, param, Explicit(inT, map[], e, want), want, next);
    S.SimdLevel(inT, param, e, if want == I64 then F64 else I64, next);
    hide S.SimdCode, S.SimdBinaryCode, S.SimdCompareCode, S.SimdIfCode;
  }

  lemma UnaryAlikeLanes(inT: Dtype, param: nat, e: Expr, x: Expr, want: Dtype, next: nat)
    requires IsUnary(e) && Alike(e, x, want, Explicit(inT, map[], Operand(e, want).0, Operand(e, want).1))
    requires SameLanes(inT, param, Operand(e, want).0, Operand(e, want).1, next)
    ensures S.SimdUnaryCode(inT, param, x, want, next) == S.SimdUnaryCode(inT, param, e, want, next)
  {
    hide S.SimdCode, Explicit, UnaryInstr, Operand;
  }

  lemma {:induction false} UnaryLanes(inT: Dtype, param: nat, e: Expr, want: Dtype, next: nat)
    requires IsUnary(e) && IsPureSimdExpr(e)
    ensures SameLanes(inT, param, e, want, next)
    decreases e, 1
  {
    hide S.SimdCode, Explicit, UnaryInstr, S.SimdUnaryCode, S.SimdBinaryCode, S.SimdCompareCode, S.SimdIfCode, S.SimdLeafCode;
    var x := Explicit(inT, map[], e, want);
    UnaryExplicit(inT, map[], e, want);
    SameSimd(inT, param, Operand(e, want).0, Operand(e, want).1, next);
    UnaryAlikeLanes(inT, param, e, x, want, next);
    S.SimdLevel(inT, param, e, want, next);
    S.SimdLevel(inT, param, x, want, next);
  }

  lemma {:induction false} BinaryLanes(inT: Dtype, param: nat, e: Expr, want: Dtype, next: nat)
    requires e.Binary? && IsPureSimdExpr(e)
    ensures SameLanes(inT, param, e, want, next)
    decreases e, 1
  {
    hide S.SimdCode, S.SimdUnaryCode, S.SimdCompareCode, S.SimdIfCode, S.SimdLeafCode, S.SimdBinInstr, Guess;
    PairLanes(inT, param, e, e.left, e.right, want, next);
    S.SimdLevel(inT, param, e, want, next);
    S.SimdLevel(inT, param, Explicit(inT, map[], e, want), want, next);
  }

  lemma {:induction false} CompareLanes(inT: Dtype, param: nat, e: Expr, want: Dtype, next: nat)
    requires e.Compare? && IsPureSimdExpr(e)
    ensures SameLanes(inT, param, e, want, next)
    decreases e, 1
  {
    var d := S.GuessSimdCmpDtype(inT, e.cleft, e.cright);
    SimdGuess(inT, e.cleft, e.cright);
    hide S.SimdCode, S.SimdUnaryCode, S.SimdBinaryCode, S.SimdIfCode, S.SimdLeafCode, Guess, S.GuessSimdCmpDtype;
    PairLanes(inT, param, e, e.cleft, e.cright, d, next);
    S.SimdLevel(inT, param, e, want, next);
    S.SimdLevel(inT, param, Explicit(inT, map[], e, want), want, next);
  }

  lemma {:induction false} IfLanes(inT: Dtype, param: nat, e: Expr, want: Dtype, next: nat)
    requires e.IfExpr? && IsPureSimdExpr(e)
    ensures SameLanes(inT, param, e, want, next)
    decreases e, 1
  {
    hide S.SimdCode, S.SimdUnaryCode, S.SimdBinaryCode, S.SimdCompareCode, S.SimdLeafCode, Guess, S.MaskFor;
    SameSimd(inT, param, e.test, I64, next);
    var c := S.SimdCode(inT, param, e.test, I64, next);
    if c.Ok? {
      PairLanes(inT, param, e, e.yes, e.no, want, c.value.next);
    }
    S.SimdLevel(inT, param, e, want, next);
    S.SimdLevel(inT, param, Explicit(inT, map[], e, want), want, next);
  }

  lemma SimdGuess(inT: Dtype, l: Expr, r: Expr)
    requires IsPureSimdExpr(l) && IsPureSimdExpr(r)
    ensures var d := S.GuessSimdCmpDtype(inT, l, r);
            && Guess(inT, map[], l, r) == d
            && S.GuessSimdCmpDtype(inT, Explicit(inT, map[], l, d), Explicit(inT, map[], r, d)) == d
  {
    hide Inspect, S.InspectSimd, IsPureSimdExpr, Explicit;
    var t := Target(inT, inT, 0, 0);
    var d := S.GuessSimdCmpDtype(inT, l, r);
    S.GuessesAgree(t, map[], l);
    S.GuessesAgree(t, map[], r);
    assert EC.TypesOf(map[]) == map[];
    GuessByTypes(t, map[], l, r);
    InspectExplicit(t, map[], l, d);
    InspectExplicit(t, map[], r, d);
    PureExplicit(inT, map[], l, d);
    PureExplicit(inT, map[], r, d);
    S.GuessesAgree(t, map[], Explicit(inT, map[], l, d));
    S.GuessesAgree(t, map[], Explicit(inT, map[], r, d));
  }

  lemma {:induction false} PairLanes(inT: Dtype, param: nat, e: Expr, l: Expr, r: Expr, d: Dtype, next: nat)
    requires l < e && r < e && IsPureSimdExpr(l) && IsPureSimdExpr(r)
    ensures SameLanes(inT, param, l, d, next)
    ensures var a := S.SimdCode(inT, param, l, d, next); a.Ok? ==> SameLanes(inT, param, r, d, a.value.next)
    decreases e, 0
  {
    hide S.SimdCode, SameLanes;
    SameSimd(inT, param, l, d, next);
    if S.SimdCode(inT, param, l, d, next).Ok? {
      SameSimd(inT, param, r, d, S.SimdCode(inT, param, l, d, next).value.next);
    }
  }

  // ----- kernels -----

  function ExplicitKernel(k: Kernel): Kernel { k.(body := ExplicitBody(k.inputDtype, k.outputDtype, map[], k.body)) }

  lemma {:induction false} SameLength(inT: Dtype, outT: Dtype, ts: Types, ss: seq<Stmt>)
    ensures |ExplicitBody(inT, outT, ts, ss)| == |ss|
    ensures |ss| == 1 ==> ExplicitBody(inT, outT, ts, ss) == [ExplicitStmt(inT, outT, ts, ss[0])]
    decreases |ss|
  {
    if ss != [] {
      SameLength(inT, outT, After(ss[0], ts), ss[1..]);
    }
  }

  /** A kernel and the kernel with its conversions written out are compiled to the same code, scalar or vector. */
  lemma SameCompiled(k: Kernel)
    ensures SK.CompileScalar(ExplicitKernel(k)) == SK.CompileScalar(k) && V.Compile(ExplicitKernel(k)) == V.Compile(k)
    ensures IsVectorizablePhase1(ExplicitKernel(k)) <==> IsVectorizablePhase1(k)
  {
    hide LowerBody, S.SimdCode, IsPureSimdExpr, Explicit;
    SameLength(k.inputDtype, k.outputDtype, map[], k.body);
    assert EC.TypesOf(SK.Prologue().locals) == map[];
    BodySame(SK.ScalarTarget(k), SK.Prologue(), k.body);
    if |k.body| == 1 && k.body[0].Return? {
      var e := k.body[0].result;
      var x := ExplicitKernel(k);
      assert x.body == [Return(Explicit(k.inputDtype, map[], e, k.outputDtype))];
      PureExplicit(k.inputDtype, map[], e, k.outputDtype);
      if IsPureSimdExpr(e) {
        SameSimd(k.inputDtype, V.VEC_PARAM, e, k.outputDtype, V.VEC_PARAM + 1);
        var v := S.SimdCode(k.inputDtype, V.VEC_PARAM, e, k.outputDtype, V.VEC_PARAM + 1);
        if v.Ok? {
          assert EC.TypesOf(V.TailStart(v.value).locals) == map[];
          BodySame(V.TailTarget(k, v.value.next + 2), V.TailStart(v.value), k.body);
        }
      }
    }
  }

  /** So code with implicit conversions does what the kernel with casts in their place means: it returns, or faults, exactly
      when that kernel does. */
  lemma ImplicitAgrees(k: Kernel, p: Program, s: Store, vars: map<nat, Val>, out: seq<Val>, end: Config)
    requires SK.KernelTyped(ExplicitKernel(k)) && SK.CompileScalar(k) == Ok(p.blocks) && V.Typed(k, p.inp)
    requires |out| == |p.inp| && EC.Holds(SK.KernelLocals(ExplicitKernel(k)), s, vars) && Final(end)
    ensures SK.EndsIn(p, vars, out, end) <==>
            exists fuel :: SK.Ends(SK.RunKernel(p.fpu, fuel, ExplicitKernel(k), p.inp, 0, s), end)
  {
    hide SK.KernelTyped, SK.CompileScalar, SK.EndsIn, SK.RunKernel, SK.KernelLocals, EC.Holds, ExplicitBody;
    SameCompiled(k);
    SK.CompiledAgrees(ExplicitKernel(k), p, s, vars, out, end);
  }

  /** The same for the vector code: in whole pairs its lanes compute `LaneEval` of the expression with its casts. */
  lemma ImplicitLanes(k: Kernel, p: Program, vars: map<nat, Val>, out: seq<Val>, end: Config)
    requires V.LaneKernel(ExplicitKernel(k)) && V.Compile(k) == Ok(p.blocks) && V.Typed(k, p.inp)
    requires |out| == |p.inp| && Final(end)
    ensures SK.EndsIn(p, vars, out, end) <==>
            end == V.Outcome(V.MapEval(p.fpu, ExplicitKernel(k).body[0].result, p.inp, 0, V.VecEnd(p)))
  {
    hide SK.KernelTyped, SK.EndsIn, V.MapEval, ExplicitBody, V.CompileSimd;
    SameCompiled(k);
    V.VectorEnds(ExplicitKernel(k), p, vars, out, end);
  }

  // ----- where conversions are -----

  /** Where an expression has the dtype that is wanted nothing is written out. */
  lemma {:induction false} TypedIsExplicit(t: Target, locals: Locals, e: Expr, want: Dtype)
    requires EC.Fits(e, want, locals, t.inT)
    ensures Explicit(t.inT, EC.TypesOf(locals), e, want) == e
  {
    hide Guess, Inspect;
    match e
    case Unary(_, a) => TypedIsExplicit(t, locals, a, want);
    case MathCall(_, a) => TypedIsExplicit(t, locals, a, F64);
    case CastToI64(a) => TypedIsExplicit(t, locals, a, F64);
    case CastToF64(a) => TypedIsExplicit(t, locals, a, I64);
    case Binary(_, l, r) =>
      TypedIsExplicit(t, locals, l, want);
      TypedIsExplicit(t, locals, r, want);
    case Compare(_, l, r) =>
      var d := GuessCmpDtype(t, locals, l, r);
      GuessByTypes(t, locals, l, r);
      EC.GuessIsOperandType(t, locals, l, r);
      TypedIsExplicit(t, locals, l, d);
      TypedIsExplicit(t, locals, r, d);
    case IfExpr(c, y, n) =>
      TypedIsExplicit(t, locals, c, I64);
      TypedIsExplicit(t, locals, y, want);
      TypedIsExplicit(t, locals, n, want);
    case _ =>
  }

  /** An f64 expression without calls and casts: arithmetic on f64 leaves. */
  predicate Leafwise(e: Expr) {
    match e
    case Unary(_, a) => Leafwise(a)
    case Binary(op, l, r) => op != Pow && Leafwise(l) && Leafwise(r)
    case IfExpr(_, y, n) => Leafwise(y) && Leafwise(n)
    case MathCall(_, _) => false
    case CastToF64(_) => false
    case _ => true
  }

  /** An f64 under test is tested as an i64, with every leaf truncated; that makes an i64 of it exactly if there are
      only leaves and arithmetic. */
  lemma {:induction false} FloatTest(t: Target, locals: Locals, e: Expr)
    requires ExprType(e, EC.TypesOf(locals), t.inT) == Some(F64)
    ensures IsTest(Explicit(t.inT, EC.TypesOf(locals), e, I64), EC.TypesOf(locals), t.inT) <==> Leafwise(e)
    ensures ExprType(Explicit(t.inT, EC.TypesOf(locals), e, I64), EC.TypesOf(locals), t.inT) == Some(I64) <==> Leafwise(e)
  {
    match e
    case Unary(_, a) => FloatTest(t, locals, a);
    case Binary(_, l, r) =>
      FloatTest(t, locals, l);
      FloatTest(t, locals, r);
    case IfExpr(c, y, n) =>
      TypedIsExplicit(t, locals, c, I64);
      hide Guess;
      FloatTest(t, locals, y);
      FloatTest(t, locals, n);
    case _ =>
  }

  // ----- a test of a float -----

  const ONE: F64 := 0x3FF0_0000_0000_0000

  /** `if x: return 1.0` followed by `return 0.0`. */
  function Tested(): W.Callable {
    W.Def(["x"], [Py.If(Py.Name("x"), [Py.Return(Some(Py.FloatConst(ONE)))], []), Py.Return(Some(Py.FloatConst(0)))])
  }

  function TestedKernel(t: Expr): Kernel {
    Kernel(F64, F64, [If(t, [Return(ConstF64(ONE))], []), Return(ConstF64(0))])
  }

  lemma TestedWalked()
    ensures W.KernelOf(Tested(), F64) == Some(TestedKernel(Param))
  {
    var ss, ir := Tested().body, TestedKernel(Param).body;
    var f, s0, s1 := W.Fn("x", F64), W.State(map[], None), W.State(map[], Some(F64));
    var yes := ss[0].body;
    assert W.WalkStmt(f, s0, yes[0]) == Ok((Return(ConstF64(ONE)), true, s1));
    assert W.WalkList(f, s0, yes) == Ok(([Return(ConstF64(ONE))], true, s1));
    assert W.WalkStmt(f, s0, ss[0]) == Ok((ir[0], false, s1));
    assert ss[1..][0] == ss[1] && W.WalkStmt(f, s1, ss[1]) == Ok((ir[1], true, s1));
    assert W.WalkList(f, s1, ss[1..]) == Ok(([ir[1]], true, s1));
    assert [ir[0]] + [ir[1]] == ir;
    assert W.WalkList(f, s0, ss) == Ok((ir, true, s1));
  }

  lemma TestedExplicit()
    ensures ExplicitKernel(TestedKernel(Param)) == TestedKernel(CastToI64(Param)) && SK.KernelTyped(TestedKernel(CastToI64(Param)))
  {
    var k, x := TestedKernel(Param), TestedKernel(CastToI64(Param));
    var yes := k.body[0].thenBody;
    assert ExplicitStmt(F64, F64, map[], yes[0]) == yes[0];
    SameLength(F64, F64, map[], yes);
    SameLength(F64, F64, AfterBody(yes, map[]), []);
    assert ExplicitStmt(F64, F64, map[], k.body[0]) == x.body[0];
    assert k.body[1..][0] == k.body[1] && After(k.body[0], map[]) == map[];
    SameLength(F64, F64, map[], k.body[1..]);
    assert ExplicitBody(F64, F64, map[], k.body) == [x.body[0]] + [x.body[1]];
    assert BodyTypes(yes, map[], F64, F64, false) == Some(map[]) by {
      assert StmtTypes(yes[0], map[], F64, F64, false) == Some(map[]);
    }
    assert StmtTypes(x.body[0], map[], F64, F64, false) == Some(map[]);
    assert x.body[1..][0] == x.body[1] && StmtTypes(x.body[1], map[], F64, F64, false) == Some(map[]);
  }

  lemma TestedElement(m: Fpu, fuel: nat, w: F64, s: Store)
    ensures SK.Element(m, fuel, TestedKernel(CastToI64(Param)), FltV(w), s) ==
            match m.toInt(w)
            case None => Trapped
            case Some(n) => Returned(FltV(if n != 0 then ONE else 0), s)
  {
    var body := TestedKernel(CastToI64(Param)).body;
    var t, yes := body[0].test, body[0].thenBody;
    assert Eval(m, t, FltV(w), s) == ToI64(m, Some(FltV(w)));
    assert ExecStmt(m, fuel, yes[0], FltV(w), s) == Returned(FltV(ONE), s);
    assert Exec(m, fuel, yes, FltV(w), s) == Returned(FltV(ONE), s);
    assert Exec(m, fuel, body[0].elseBody, FltV(w), s) == Normal(s);
    assert body[0] == If(t, yes, []);
    assert ExecStmt(m, fuel, body[0], FltV(w), s) ==
           match m.toInt(w) case None => Trapped case Some(n) => if n != 0 then Returned(FltV(ONE), s) else Normal(s);
    assert body[1..][0] == body[1] && ExecStmt(m, fuel, body[1], FltV(w), s) == Returned(FltV(0), s);
    assert Exec(m, fuel, body[1..], FltV(w), s) == Returned(FltV(0), s);
  }

  function TestedEnd(m: Fpu, w: F64): Config {
    match m.toInt(w)
    case None => Fault
    case Some(n) => Done([FltV(if n != 0 then ONE else 0)])
  }

  /** The compiled function tests the truncated input, and traps if it has none. */
  lemma FloatIsTruncated(p: Program, s: Store, vars: map<nat, Val>, out: seq<Val>, w: F64)
    requires V.Compile(TestedKernel(Param)) == Ok(p.blocks) && p.inp == [FltV(w)] && |out| == 1
    requires EC.Holds(SK.KernelLocals(TestedKernel(CastToI64(Param))), s, vars)
    ensures W.KernelOf(Tested(), F64) == Some(TestedKernel(Param))
    ensures SK.EndsIn(p, vars, out, TestedEnd(p.fpu, w))
  {
    hide SK.KernelTyped, SK.CompileScalar, SK.EndsIn, SK.KernelLocals, EC.Holds, ExplicitKernel, SK.RunKernel, W.KernelOf;
    TestedWalked();
    TestedExplicit();
    TestedRun(p.fpu, 1, w, s);
    assert exists fuel :: SK.Ends(SK.RunKernel(p.fpu, fuel, TestedKernel(CastToI64(Param)), p.inp, 0, s), TestedEnd(p.fpu, w));
    ImplicitAgrees(TestedKernel(Param), p, s, vars, out, TestedEnd(p.fpu, w));
  }

  lemma TestedRun(m: Fpu, fuel: nat, w: F64, s: Store)
    ensures SK.Ends(SK.RunKernel(m, fuel, TestedKernel(CastToI64(Param)), [FltV(w)], 0, s), TestedEnd(m, w))
  {
    hide SK.Element;
    TestedElement(m, fuel, w, s);
    assert SK.RunKernel(m, fuel, TestedKernel(CastToI64(Param)), [FltV(w)], 1, s) == SK.Finished([]);
  }

  /** A sum under test is not truncated as a whole: where both parts truncate to 0 it counts as false, whatever it is. */
  lemma SumTruncatesParts(m: Fpu, x: F64, h: F64, s: Store)
    requires m.toInt(x) == m.toInt(h) == Some(0)
    ensures var e := Binary(Add, Param, ConstF64(h));
            && Eval(m, Explicit(F64, map[], e, I64), FltV(x), s) == Some(IntV(0))
            && Eval(m, e, FltV(x), s) == Some(FltV(m.add(x, h)))
  {
    assert Eval(m, CastToI64(Param), FltV(x), s) == ToI64(m, Eval(m, Param, FltV(x), s)) == Some(IntV(0));
    assert Eval(m, CastToI64(ConstF64(h)), FltV(x), s) == ToI64(m, Eval(m, ConstF64(h), FltV(x), s)) == Some(IntV(0));
  }
}
