/** Types survive the walk from Python to code.  A walked function is typed exactly when its source keeps
    the side conditions (comparisons under test only, tests on integers, no counter on a float local)
    and the code generator accepts it; and typed code contains no implicit conversion. */
module WalkerTypes {
  import opened Wrappers
  import opened Ir
  import opened Semantics
  import opened Walker
  import L = Lowering
  import Cfg
  import EC = ExprCorrect
  import LC = LoweringCorrect
  import SK = ScalarKernel
  import T = Terminated
  import Py = PyAst

  // ----- the side conditions, on the source -----

  /** Fit for a position that uses the value: no comparison except under test. */
  predicate ValueSafe(f: Fn, ls: Types, e: Py.Expr) {
    match e
    case UnaryExpr(_, a) => ValueSafe(f, ls, a)
    case BinExpr(_, l, r) => ValueSafe(f, ls, l) && ValueSafe(f, ls, r)
    case Compare(_, _, _) => false
    case IfExp(t, y, n) => TestSafe(f, ls, t) && ValueSafe(f, ls, y) && ValueSafe(f, ls, n)
    case MathCall(_, args, _) => |args| == 1 ==> ValueSafe(f, ls, args[0])
    case Call(_, args, _) => |args| == 1 ==> ValueSafe(f, ls, args[0])
    case _ => true
  }

  /** Fit for test position: a comparison of values, or an integer. */
  predicate TestSafe(f: Fn, ls: Types, e: Py.Expr) {
    match e
    case Compare(l, _, rs) => ValueSafe(f, ls, l) && (|rs| == 1 ==> ValueSafe(f, ls, rs[0]))
    case UnaryExpr(_, a) => ValueSafe(f, ls, a) && IsI64(f, ls, e)
    case BinExpr(_, l, r) => ValueSafe(f, ls, l) && ValueSafe(f, ls, r) && IsI64(f, ls, e)
    case IfExp(t, y, n) => TestSafe(f, ls, t) && ValueSafe(f, ls, y) && ValueSafe(f, ls, n) && IsI64(f, ls, e)
    case MathCall(_, args, _) => (|args| == 1 ==> ValueSafe(f, ls, args[0])) && IsI64(f, ls, e)
    case Call(g, args, _) =>
      if IsIntOfI64(f, ls, e) then TestSafe(f, ls, args[0])
      else (|args| == 1 ==> ValueSafe(f, ls, args[0])) && IsI64(f, ls, e)
    case _ => IsI64(f, ls, e)
  }

  /** `int(a)` of an integer: the walker drops the call, so this is `a` itself, maybe a comparison. */
  predicate IsIntOfI64(f: Fn, ls: Types, e: Py.Expr) {
    e.Call? && e.func == "int" && |e.args| == 1 && IsI64(f, ls, e.args[0])
  }

  predicate IsI64(f: Fn, ls: Types, e: Py.Expr) {
    WalkExpr(f, ls, e).Ok? && WalkExpr(f, ls, e).value.1 == I64
  }

  lemma TestSafeValue(f: Fn, ls: Types, e: Py.Expr)
    ensures !e.Compare? && !IsIntOfI64(f, ls, e) ==> (TestSafe(f, ls, e) <==> ValueSafe(f, ls, e) && IsI64(f, ls, e))
  {
    hide IsI64;
  }

  predicate BodySafe(f: Fn, s: State, ss: seq<Py.Stmt>)
    decreases ss, 1
  {
    ListSafe(f, s, Py.StripDocstring(ss))
  }

  predicate ListSafe(f: Fn, s: State, ss: seq<Py.Stmt>)
    decreases ss, 0
  {
    ss != [] ==>
      && StmtSafe(f, s, ss[0])
      && (WalkStmt(f, s, ss[0]).Ok? && !WalkStmt(f, s, ss[0]).value.1
          ==> ListSafe(f, WalkStmt(f, s, ss[0]).value.2, ss[1..]))
  }

  predicate StmtSafe(f: Fn, s: State, stmt: Py.Stmt)
    decreases stmt, 0
  {
    match stmt
    case Assign(_, e) => ValueSafe(f, s.locals, e)
    case AugAssign(_, _, e) => ValueSafe(f, s.locals, e)
    case Return(r) => r.Some? ==> ValueSafe(f, s.locals, r.value)
    case If(t, yes, no) =>
      && TestSafe(f, s.locals, t) && BodySafe(f, s, yes)
      && (WalkBody(f, s, yes).Ok? ==> BodySafe(f, WalkBody(f, s, yes).value.2, no))
    case For(t, iter, body, _) =>
      && RangeSafe(f, s.locals, iter)
      && (t.Name? ==> (t.id in s.locals ==> s.locals[t.id] == I64) && BodySafe(f, s.(locals := s.locals[t.id := I64]), body))
    case While(t, body, _) => TestSafe(f, s.locals, t) && BodySafe(f, s, body)
    case _ => true
  }

  predicate RangeSafe(f: Fn, ls: Types, e: Py.Expr) {
    e.Call? ==> forall a <- e.args :: ValueSafe(f, ls, a)
  }

  predicate FnSafe(c: Callable, inT: Dtype) {
    |c.params| == 1 ==>
      match c
      case Lambda(_, e) => ValueSafe(Fn(c.params[0], inT), map[], e)
      case Def(_, body) => BodySafe(Fn(c.params[0], inT), State(map[], None), body)
  }

  // ----- expressions -----

  lemma PromoteInspects(t: L.Target, locals: L.Locals, u: Expr, lt: Dtype, v: Expr, rt: Dtype)
    requires L.Inspect(t, locals, u) == Some(lt) && L.Inspect(t, locals, v) == Some(rt)
    ensures var (u', v', d) := Promote(u, lt, v, rt);
            L.Inspect(t, locals, u') == Some(d) && L.Inspect(t, locals, v') == Some(d)
  {
  }

  /** The dtype the code generator guesses for an operand is the one the walker gave it. */
  lemma {:induction false} WalkedInspect(f: Fn, t: L.Target, locals: L.Locals, e: Py.Expr)
    requires t.inT == f.inT && WalkExpr(f, EC.TypesOf(locals), e).Ok? && ValueSafe(f, EC.TypesOf(locals), e)
    ensures L.Inspect(t, locals, WalkExpr(f, EC.TypesOf(locals), e).value.0) == Some(WalkExpr(f, EC.TypesOf(locals), e).value.1)
  {
    hide TestSafe, Promote;
    var ls := EC.TypesOf(locals);
    match e
    case UnaryExpr(_, a) => WalkedInspect(f, t, locals, a);
    case BinExpr(_, l, r) =>
      WalkedInspect(f, t, locals, l);
      WalkedInspect(f, t, locals, r);
      var (u, lt) := WalkExpr(f, ls, l).value;
      var (v, rt) := WalkExpr(f, ls, r).value;
      PromoteInspects(t, locals, u, lt, v, rt);
    case IfExp(_, y, n) =>
      WalkedInspect(f, t, locals, y);
      WalkedInspect(f, t, locals, n);
      var (u, yt) := WalkExpr(f, ls, y).value;
      var (v, nt) := WalkExpr(f, ls, n).value;
      PromoteInspects(t, locals, u, yt, v, nt);
    case MathCall(_, args, _) => WalkedInspect(f, t, locals, args[0]);
    case Call(_, args, _) => WalkedInspect(f, t, locals, args[0]);
    case _ =>
  }

  /** Typed as `d`. */
  predicate Typed(e: Expr, locals: L.Locals, inT: Dtype, d: Dtype) {
    ExprType(e, EC.TypesOf(locals), inT) == Some(d)
  }

  predicate Coded(t: L.Target, locals: L.Locals, e: Expr, want: Dtype, next: nat) {
    L.ExprCode(t, locals, e, want, next).Ok?
  }

  function NextOf(t: L.Target, locals: L.Locals, e: Expr, want: Dtype, next: nat): nat {
    if Coded(t, locals, e, want, next) then L.ExprCode(t, locals, e, want, next).value.next else next
  }

  lemma CastTyped(t: L.Target, locals: L.Locals, u: Expr, d: Dtype, next: nat)
    ensures var c := if d == I64 then CastToF64(u) else CastToI64(u);
            && (Typed(c, locals, t.inT, if d == I64 then F64 else I64) <==> Typed(u, locals, t.inT, d))
            && (forall want :: Coded(t, locals, c, want, next) <==> Coded(t, locals, u, d, next))
  {
    var c := if d == I64 then CastToF64(u) else CastToI64(u);
    forall want ensures Coded(t, locals, c, want, next) <==> Coded(t, locals, u, d, next) {
      EC.CodeLevel(t, locals, c, want, next);
    }
  }

  /** Promotion preserves typing and acceptance of an operand. */
  lemma PromoteTyped(t: L.Target, locals: L.Locals, u: Expr, lt: Dtype, v: Expr, rt: Dtype, next: nat)
    ensures var (u', v', d) := Promote(u, lt, v, rt);
            && (Typed(u', locals, t.inT, d) <==> Typed(u, locals, t.inT, lt))
            && (Typed(v', locals, t.inT, d) <==> Typed(v, locals, t.inT, rt))
            && (Coded(t, locals, u', d, next) <==> Coded(t, locals, u, lt, next))
            && (Coded(t, locals, v', d, next) <==> Coded(t, locals, v, rt, next))
  {
    hide Typed, Coded;
    CastTyped(t, locals, u, I64, next);
    CastTyped(t, locals, v, I64, next);
  }

  lemma BinaryTyped(t: L.Target, locals: L.Locals, op: BinOp, u: Expr, v: Expr, d: Dtype, next: nat)
    ensures Typed(Binary(op, u, v), locals, t.inT, d) <==>
            Typed(u, locals, t.inT, d) && Typed(v, locals, t.inT, d) && HasArith(op, d)
    ensures Coded(t, locals, Binary(op, u, v), d, next) <==>
            Coded(t, locals, u, d, next) && Coded(t, locals, v, d, NextOf(t, locals, u, d, next)) && HasArith(op, d)
  {
    EC.CodeLevel(t, locals, Binary(op, u, v), d, next);
  }

  lemma IfExprTyped(t: L.Target, locals: L.Locals, c: Expr, u: Expr, v: Expr, d: Dtype, next: nat)
    ensures Typed(IfExpr(c, u, v), locals, t.inT, d) <==>
            Typed(u, locals, t.inT, d) && Typed(v, locals, t.inT, d) && IsTest(c, EC.TypesOf(locals), t.inT)
    ensures var n1 := NextOf(t, locals, c, I64, next);
            Coded(t, locals, IfExpr(c, u, v), d, next) <==>
            Coded(t, locals, c, I64, next) && Coded(t, locals, u, d, n1) && Coded(t, locals, v, d, NextOf(t, locals, u, d, n1))
  {
    hide IsTest;
    EC.CodeLevel(t, locals, IfExpr(c, u, v), d, next);
  }

  lemma CompareTyped(t: L.Target, locals: L.Locals, op: CmpOp, u: Expr, v: Expr, d: Dtype, next: nat)
    requires L.GuessCmpDtype(t, locals, u, v) == d
    ensures Coded(t, locals, Compare(op, u, v), I64, next) <==>
            Coded(t, locals, u, d, next) && Coded(t, locals, v, d, NextOf(t, locals, u, d, next))
    ensures Typed(u, locals, t.inT, d) && Typed(v, locals, t.inT, d) ==> IsTest(Compare(op, u, v), EC.TypesOf(locals), t.inT)
  {
    hide L.GuessCmpDtype;
    EC.CodeLevel(t, locals, Compare(op, u, v), I64, next);
  }

  /** What the walker says of an expression, as the code generator will see it: in value position it is
      typed exactly when the source is safe and code for it is accepted; likewise in test position. */
  lemma {:induction false} WalkedTyped(f: Fn, t: L.Target, locals: L.Locals, e: Py.Expr, next: nat)
    requires t.inT == f.inT && WalkExpr(f, EC.TypesOf(locals), e).Ok?
    ensures var (ir, d) := WalkExpr(f, EC.TypesOf(locals), e).value;
            Typed(ir, locals, t.inT, d) <==> ValueSafe(f, EC.TypesOf(locals), e) && Coded(t, locals, ir, d, next)
    decreases e, 0
  {
    hide TestSafe, Promote, Typed, Coded, WalkExpr, ValueSafe;
    var ls := EC.TypesOf(locals);
    WalkCases(f, ls, e);
    SafeCases(f, ls, e);
    match e
    case UnaryExpr(op, a) =>
      WalkedTyped(f, t, locals, a, next);
      var (u, d) := WalkExpr(f, ls, a).value;
      UnaryTyped(t, locals, if op == Py.USub then Neg else Plus, u, d, next);
    case BinExpr(op, l, r) =>
      var (u, lt) := WalkExpr(f, ls, l).value;
      var (v, rt) := WalkExpr(f, ls, r).value;
      var (u', v', d) := Promote(u, lt, v, rt);
      var n1 := NextOf(t, locals, u', d, next);
      WalkedTyped(f, t, locals, l, next);
      WalkedTyped(f, t, locals, r, n1);
      PromoteTyped(t, locals, u, lt, v, rt, next);
      PromoteTyped(t, locals, u, lt, v, rt, n1);
      BinaryTyped(t, locals, BinOpOf(op).value, u', v', d, next);
      TypedCoded(t, locals, Binary(BinOpOf(op).value, u', v'), d, next);
    case Compare(_, _, _) =>
      NeverTyped(t, locals, WalkExpr(f, ls, e).value.0);
    case IfExp(c, y, n) =>
      var (w, _) := WalkExpr(f, ls, c).value;
      var (u, yt) := WalkExpr(f, ls, y).value;
      var (v, nt) := WalkExpr(f, ls, n).value;
      var (u', v', d) := Promote(u, yt, v, nt);
      var n1 := NextOf(t, locals, w, I64, next);
      var n2 := NextOf(t, locals, u', d, n1);
      WalkedTest(f, t, locals, c, next);
      WalkedTyped(f, t, locals, y, n1);
      WalkedTyped(f, t, locals, n, n2);
      PromoteTyped(t, locals, u, yt, v, nt, n1);
      PromoteTyped(t, locals, u, yt, v, nt, n2);
      IfExprTyped(t, locals, w, u', v', d, next);
    case MathCall(attr, args, _) =>
      WalkedTyped(f, t, locals, args[0], next);
      var (u, d) := WalkExpr(f, ls, args[0]).value;
      CastTyped(t, locals, u, d, next);
      CallTyped(t, locals, MATH_MAP[attr], if d == I64 then CastToF64(u) else u, next);
    case Call(_, args, _) =>
      WalkedTyped(f, t, locals, args[0], next);
      var (u, d) := WalkExpr(f, ls, args[0]).value;
      CastTyped(t, locals, u, d, next);
    case _ => LeafTyped(f, t, locals, e, next);
  }

  /** A typed expression is accepted whatever the next free number. */
  lemma TypedCoded(t: L.Target, locals: L.Locals, e: Expr, d: Dtype, next: nat)
    ensures Typed(e, locals, t.inT, d) ==> Coded(t, locals, e, d, next)
  {
    if Typed(e, locals, t.inT, d) {
      LC.CodeAccepted(t, locals, e, d, next);
    }
  }

  lemma UnaryTyped(t: L.Target, locals: L.Locals, op: UnaryOp, u: Expr, d: Dtype, next: nat)
    ensures Typed(Unary(op, u), locals, t.inT, d) <==> Typed(u, locals, t.inT, d)
    ensures Coded(t, locals, Unary(op, u), d, next) <==> Coded(t, locals, u, d, next)
  {
    EC.CodeLevel(t, locals, Unary(op, u), d, next);
  }

  lemma CallTyped(t: L.Target, locals: L.Locals, g: MathFn, u: Expr, next: nat)
    ensures Typed(MathCall(g, u), locals, t.inT, F64) <==> Typed(u, locals, t.inT, F64)
    ensures Coded(t, locals, MathCall(g, u), F64, next) <==> Coded(t, locals, u, F64, next)
  {
    EC.CodeLevel(t, locals, MathCall(g, u), F64, next);
  }

  lemma NeverTyped(t: L.Target, locals: L.Locals, ir: Expr)
    requires ir.Compare?
    ensures forall d :: !Typed(ir, locals, t.inT, d)
  {
  }

  lemma LeafTyped(f: Fn, t: L.Target, locals: L.Locals, e: Py.Expr, next: nat)
    requires t.inT == f.inT && WalkExpr(f, EC.TypesOf(locals), e).Ok?
    requires e.Name? || e.IntConst? || e.BoolConst? || e.FloatConst? || e.OtherConst? || e.OtherExpr?
    ensures var (ir, d) := WalkExpr(f, EC.TypesOf(locals), e).value;
            Typed(ir, locals, t.inT, d) && ValueSafe(f, EC.TypesOf(locals), e) && Coded(t, locals, ir, d, next)
  {
  }

  /** One level of the walk. */
  lemma WalkCases(f: Fn, ls: Types, e: Py.Expr)
    requires WalkExpr(f, ls, e).Ok?
    ensures match e
            case UnaryExpr(op, a) =>
              && WalkExpr(f, ls, a).Ok?
              && var (u, d) := WalkExpr(f, ls, a).value;
                 WalkExpr(f, ls, e).value == (Unary(if op == Py.USub then Neg else Plus, u), d)
            case BinExpr(op, l, r) =>
              && BinOpOf(op).Ok? && WalkExpr(f, ls, l).Ok? && WalkExpr(f, ls, r).Ok?
              && var (u, lt) := WalkExpr(f, ls, l).value;
                 var (v, rt) := WalkExpr(f, ls, r).value;
                 var (u', v', d) := Promote(u, lt, v, rt);
                 WalkExpr(f, ls, e).value == (Binary(BinOpOf(op).value, u', v'), d)
            case Compare(l, ops, rs) =>
              && |ops| == 1 && |rs| == 1 && CmpOpOf(ops[0]).Ok? && WalkExpr(f, ls, l).Ok? && WalkExpr(f, ls, rs[0]).Ok?
              && var (u, lt) := WalkExpr(f, ls, l).value;
                 var (v, rt) := WalkExpr(f, ls, rs[0]).value;
                 var (u', v', _) := Promote(u, lt, v, rt);
                 WalkExpr(f, ls, e).value == (Compare(CmpOpOf(ops[0]).value, u', v'), I64)
            case IfExp(c, y, n) =>
              && WalkExpr(f, ls, c).Ok? && WalkExpr(f, ls, y).Ok? && WalkExpr(f, ls, n).Ok?
              && var (w, _) := WalkExpr(f, ls, c).value;
                 var (u, yt) := WalkExpr(f, ls, y).value;
                 var (v, nt) := WalkExpr(f, ls, n).value;
                 var (u', v', d) := Promote(u, yt, v, nt);
                 WalkExpr(f, ls, e).value == (IfExpr(w, u', v'), d)
            case MathCall(attr, args, _) =>
              && |args| == 1 && attr in MATH_MAP && WalkExpr(f, ls, args[0]).Ok?
              && var (u, d) := WalkExpr(f, ls, args[0]).value;
                 WalkExpr(f, ls, e).value == (MathCall(MATH_MAP[attr], if d == I64 then CastToF64(u) else u), F64)
            case Call(g, args, _) =>
              && |args| == 1 && WalkExpr(f, ls, args[0]).Ok?
              && var (u, d) := WalkExpr(f, ls, args[0]).value;
                 WalkExpr(f, ls, e).value ==
                 (if g == "int" then (if d == F64 then CastToI64(u) else u, I64) else (if d == I64 then CastToF64(u) else u, F64))
            case _ => true
  {
    hide Promote;
  }

  lemma SafeCases(f: Fn, ls: Types, e: Py.Expr)
    ensures match e
            case UnaryExpr(_, a) => ValueSafe(f, ls, e) == ValueSafe(f, ls, a)
            case BinExpr(_, l, r) => ValueSafe(f, ls, e) == (ValueSafe(f, ls, l) && ValueSafe(f, ls, r))
            case Compare(_, _, _) => !ValueSafe(f, ls, e)
            case IfExp(c, y, n) => ValueSafe(f, ls, e) == (TestSafe(f, ls, c) && ValueSafe(f, ls, y) && ValueSafe(f, ls, n))
            case MathCall(_, args, _) => |args| == 1 ==> ValueSafe(f, ls, e) == ValueSafe(f, ls, args[0])
            case Call(_, args, _) => |args| == 1 ==> ValueSafe(f, ls, e) == ValueSafe(f, ls, args[0])
            case _ => ValueSafe(f, ls, e)
  {
    hide TestSafe;
  }

  lemma {:induction false} WalkedTest(f: Fn, t: L.Target, locals: L.Locals, e: Py.Expr, next: nat)
    requires t.inT == f.inT && WalkExpr(f, EC.TypesOf(locals), e).Ok?
    ensures var (ir, d) := WalkExpr(f, EC.TypesOf(locals), e).value;
            IsTest(ir, EC.TypesOf(locals), t.inT) <==> TestSafe(f, EC.TypesOf(locals), e) && Coded(t, locals, ir, I64, next)
    decreases e, 1
  {
    var ls := EC.TypesOf(locals);
    if e.Compare? {
      hide Promote, Typed, Coded, WalkExpr, ValueSafe, L.GuessCmpDtype, IsTest;
      WalkCases(f, ls, e);
      var (u, lt) := WalkExpr(f, ls, e.first).value;
      var (v, rt) := WalkExpr(f, ls, e.comparators[0]).value;
      var (u', v', d) := Promote(u, lt, v, rt);
      var n1 := NextOf(t, locals, u', d, next);
      WalkedTyped(f, t, locals, e.first, next);
      WalkedTyped(f, t, locals, e.comparators[0], n1);
      PromoteTyped(t, locals, u, lt, v, rt, next);
      PromoteTyped(t, locals, u, lt, v, rt, n1);
      if ValueSafe(f, ls, e.first) && ValueSafe(f, ls, e.comparators[0]) {
        WalkedInspect(f, t, locals, e.first);
        WalkedInspect(f, t, locals, e.comparators[0]);
        PromoteInspects(t, locals, u, lt, v, rt);
        GuessPromoted(t, locals, u', v', d);
        CompareTyped(t, locals, CmpOpOf(e.ops[0]).value, u', v', d, next);
      }
      ComparedAlike(f, t, locals, CmpOpOf(e.ops[0]).value, e.first, e.comparators[0]);
    } else {
      hide Promote, WalkExpr, ValueSafe, IsIntOfI64;
      NotCompare(f, ls, e);
      if IsIntOfI64(f, ls, e) {
        IntOf(f, ls, e);
        WalkedTest(f, t, locals, e.args[0], next);
      } else {
        hide TestSafe;
        WalkedTyped(f, t, locals, e, next);
        TestSafeValue(f, ls, e);
        OneType(f, ls, e);
        NotComparedTest(WalkExpr(f, ls, e).value.0, ls, t.inT);
      }
    }
  }

  lemma NotCompare(f: Fn, ls: Types, e: Py.Expr)
    requires WalkExpr(f, ls, e).Ok? && !e.Compare?
    ensures !IsIntOfI64(f, ls, e) ==> !WalkExpr(f, ls, e).value.0.Compare?
    ensures IsIntOfI64(f, ls, e) ==> WalkExpr(f, ls, e) == WalkExpr(f, ls, e.args[0])
  {
    hide Promote;
  }

  /** A walked expression has no type but the one the walker gave it. */
  lemma {:induction false} OneType(f: Fn, ls: Types, e: Py.Expr)
    requires WalkExpr(f, ls, e).Ok?
    ensures var (ir, d) := WalkExpr(f, ls, e).value; ExprType(ir, ls, f.inT).Some? ==> ExprType(ir, ls, f.inT) == Some(d)
  {
    WalkCases(f, ls, e);
    match e
    case UnaryExpr(_, a) =>
      hide WalkExpr;
      OneType(f, ls, a);
    case BinExpr(_, l, _) =>
      hide WalkExpr, HasArith;
      OneType(f, ls, l);
    case IfExp(_, y, _) =>
      hide WalkExpr, IsTest;
      OneType(f, ls, y);
    case MathCall(_, _, _) => hide WalkExpr;
    case Compare(_, _, _) => hide WalkExpr;
    case Call(_, args, _) =>
      hide WalkExpr;
      OneType(f, ls, args[0]);
    case _ =>
  }

  lemma IntOf(f: Fn, ls: Types, e: Py.Expr)
    requires IsIntOfI64(f, ls, e)
    ensures e.Call? && |e.args| == 1 && TestSafe(f, ls, e) == TestSafe(f, ls, e.args[0])
  {
  }

  lemma NotComparedTest(e: Expr, ls: Types, inT: Dtype)
    requires !e.Compare?
    ensures IsTest(e, ls, inT) <==> ExprType(e, ls, inT) == Some(I64)
  {
  }

  lemma GuessPromoted(t: L.Target, locals: L.Locals, u: Expr, v: Expr, d: Dtype)
    requires L.Inspect(t, locals, u) == Some(d)
    ensures L.GuessCmpDtype(t, locals, u, v) == d
  {
  }

  /** A comparison the typing accepts compares operands of the dtype the walker promoted them to. */
  lemma ComparedAlike(f: Fn, t: L.Target, locals: L.Locals, op: CmpOp, l: Py.Expr, r: Py.Expr)
    requires t.inT == f.inT && WalkExpr(f, EC.TypesOf(locals), l).Ok? && WalkExpr(f, EC.TypesOf(locals), r).Ok?
    ensures var (u, lt) := WalkExpr(f, EC.TypesOf(locals), l).value;
            var (v, rt) := WalkExpr(f, EC.TypesOf(locals), r).value;
            var (u', v', d) := Promote(u, lt, v, rt);
            IsTest(Compare(op, u', v'), EC.TypesOf(locals), t.inT) ==>
            Typed(u, locals, t.inT, lt) && Typed(v, locals, t.inT, rt)
  {
    hide WalkExpr;
    OneType(f, EC.TypesOf(locals), l);
    OneType(f, EC.TypesOf(locals), r);
    var ls := EC.TypesOf(locals);
    var (u, lt) := WalkExpr(f, ls, l).value;
    var (v, rt) := WalkExpr(f, ls, r).value;
    var (u', v', d) := Promote(u, lt, v, rt);
    assert IsTest(Compare(op, u', v'), ls, t.inT) <==> ExprType(u', ls, t.inT).Some? && ExprType(u', ls, t.inT) == ExprType(v', ls, t.inT);
  }

  // ----- statements -----

  /** Once a return has fixed the output dtype, it stays. */
  predicate OutKept(s: State, s': State) { s.out.Some? ==> s'.out == s.out }

  lemma {:induction false} ListKeepsOut(f: Fn, s: State, ss: seq<Py.Stmt>)
    ensures WalkList(f, s, ss).Ok? ==> OutKept(s, WalkList(f, s, ss).value.2)
    decreases ss, 0
  {
    hide WalkStmt;
    if WalkList(f, s, ss).Ok? && ss != [] {
      StmtKeepsOut(f, s, ss[0]);
      var (_, term, s') := WalkStmt(f, s, ss[0]).value;
      if !term {
        ListKeepsOut(f, s', ss[1..]);
      }
    }
  }

  lemma {:induction false} StmtKeepsOut(f: Fn, s: State, stmt: Py.Stmt)
    ensures WalkStmt(f, s, stmt).Ok? ==> OutKept(s, WalkStmt(f, s, stmt).value.2)
    decreases stmt, 0
  {
    hide WalkExpr, WalkRange, WalkList;
    if WalkStmt(f, s, stmt).Ok? {
      match stmt
      case If(_, yes, no) =>
        ListKeepsOut(f, s, Py.StripDocstring(yes));
        ListKeepsOut(f, WalkBody(f, s, yes).value.2, Py.StripDocstring(no));
      case For(t, _, body, _) => ListKeepsOut(f, s.(locals := s.locals[t.id := I64]), Py.StripDocstring(body));
      case While(_, body, _) => ListKeepsOut(f, s, Py.StripDocstring(body));
      case _ =>
    }
  }

  /** The state a walked statement or list is lowered in: same table of locals, same output dtype. */
  predicate Meets(f: Fn, s: State, s': State, t: L.Target, st: L.Build) {
    && t.inT == f.inT && EC.TypesOf(st.locals) == s.locals && !st.terminated
    && (s'.out.Some? ==> s'.out.value == t.outT)
  }

  function TypesAfter(ss: seq<Stmt>, s: State, t: L.Target, st: L.Build): Option<Types> {
    BodyTypes(ss, s.locals, t.inT, t.outT, st.loops != [])
  }

  /** A walked list is typed exactly when its source is safe and the code generator accepts it, and the
      types it then has are the walker's table of locals. */
  lemma {:induction false} WalkedListTyped(f: Fn, s: State, ss: seq<Py.Stmt>, t: L.Target, st: L.Build)
    requires WalkList(f, s, ss).Ok? && Meets(f, s, WalkList(f, s, ss).value.2, t, st)
    ensures var (ir, _, s') := WalkList(f, s, ss).value;
            && (TypesAfter(ir, s, t, st).Some? <==> ListSafe(f, s, ss) && L.LowerBody(t, st, ir).Ok?)
            && (TypesAfter(ir, s, t, st).Some? ==> TypesAfter(ir, s, t, st).value == s'.locals)
    decreases ss, 0
  {
    hide WalkStmt, StmtSafe, StmtTypes, L.LowerStmt;
    if ss != [] {
      var (ir, term, s') := WalkStmt(f, s, ss[0]).value;
      if term {
        WalkedStmtTyped(f, s, ss[0], t, st);
        LowerOne(t, st, ir);
        TypesOne(ir, s, t, st);
      } else {
        StmtTerminates(f, s, ss[0]);
        ListKeepsOut(f, s', ss[1..]);
        WalkedStmtTyped(f, s, ss[0], t, st);
        var rest := WalkList(f, s', ss[1..]).value.0;
        assert ([ir] + rest)[1..] == rest;
        if L.LowerStmt(t, st, ir).Ok? && StmtSafe(f, s, ss[0]) {
          LC.StmtAccepted(t, st, ir, st.loops != []);
          WalkedListTyped(f, s', ss[1..], t, L.LowerStmt(t, st, ir).value);
        }
      }
    }
  }

  lemma StmtTerminates(f: Fn, s: State, stmt: Py.Stmt)
    requires WalkStmt(f, s, stmt).Ok? && !WalkStmt(f, s, stmt).value.1
    ensures !Jumps(WalkStmt(f, s, stmt).value.0)
  {
    hide WalkExpr, WalkRange, WalkBody;
  }

  lemma LowerOne(t: L.Target, st: L.Build, s: Stmt)
    requires !st.terminated
    ensures L.LowerBody(t, st, [s]) == L.LowerStmt(t, st, s)
  {
    hide L.LowerStmt;
    assert [s][1..] == [];
  }

  lemma TypesOne(ir: Stmt, s: State, t: L.Target, st: L.Build)
    ensures TypesAfter([ir], s, t, st) == StmtTypes(ir, s.locals, t.inT, t.outT, st.loops != [])
  {
    hide StmtTypes;
    assert [ir][0] == ir && [ir][1..] == [];
    var ts := StmtTypes(ir, s.locals, t.inT, t.outT, st.loops != []);
    if ts.Some? {
      assert BodyTypes([ir][1..], ts.value, t.inT, t.outT, st.loops != []) == ts;
    }
  }

  lemma {:induction false} WalkedStmtTyped(f: Fn, s: State, stmt: Py.Stmt, t: L.Target, st: L.Build)
    requires WalkStmt(f, s, stmt).Ok? && Meets(f, s, WalkStmt(f, s, stmt).value.2, t, st)
    ensures var (ir, _, s') := WalkStmt(f, s, stmt).value;
            var ts := StmtTypes(ir, s.locals, t.inT, t.outT, st.loops != []);
            && (ts.Some? <==> StmtSafe(f, s, stmt) && L.LowerStmt(t, st, ir).Ok?)
            && (ts.Some? ==> ts.value == s'.locals)
    decreases stmt, 1
  {
    match stmt
    case Assign(_, e) => AssignTyped(f, s, stmt, t, st);
    case AugAssign(_, _, _) => AugTyped(f, s, stmt, t, st);
    case Return(r) => ReturnTyped(f, s, stmt, t, st);
    case If(_, _, _) => IfTyped(f, s, stmt, t, st);
    case For(_, _, _, _) => ForTyped(f, s, stmt, t, st);
    case While(_, _, _) => WhileTyped(f, s, stmt, t, st);
    case _ =>
  }

  predicate StmtAgrees(f: Fn, s: State, stmt: Py.Stmt, t: L.Target, st: L.Build)
    requires WalkStmt(f, s, stmt).Ok?
  {
    var (ir, _, s') := WalkStmt(f, s, stmt).value;
    var ts := StmtTypes(ir, s.locals, t.inT, t.outT, st.loops != []);
    && (ts.Some? <==> StmtSafe(f, s, stmt) && L.LowerStmt(t, st, ir).Ok?)
    && (ts.Some? ==> ts.value == s'.locals)
  }

  lemma AssignTyped(f: Fn, s: State, stmt: Py.Stmt, t: L.Target, st: L.Build)
    requires stmt.Assign? && WalkStmt(f, s, stmt).Ok? && Meets(f, s, WalkStmt(f, s, stmt).value.2, t, st)
    ensures StmtAgrees(f, s, stmt, t, st)
  {
    hide WalkExpr, ValueSafe, ExprType, L.ExprCode, L.Emit, L.Declare;
    WalkedTyped(f, t, st.locals, stmt.value, st.nvals);
    TypesHave(st.locals, stmt.targets[0].id);
  }

  lemma TypesHave(locals: L.Locals, name: string)
    ensures name in EC.TypesOf(locals) <==> name in locals
    ensures name in locals ==> EC.TypesOf(locals)[name] == locals[name].d
  {
  }

  /** An augmented assignment is its plain form. */
  lemma AugTyped(f: Fn, s: State, stmt: Py.Stmt, t: L.Target, st: L.Build)
    requires stmt.AugAssign? && WalkStmt(f, s, stmt).Ok? && Meets(f, s, WalkStmt(f, s, stmt).value.2, t, st)
    ensures StmtAgrees(f, s, stmt, t, st)
  {
    var name := stmt.target.id;
    var (ir, _, s') := WalkStmt(f, s, stmt).value;
    TypesHave(st.locals, name);
    PlainForm(f, s, stmt);
    var plain := Py.BinExpr(stmt.op, stmt.target, stmt.value);
    if WalkExpr(f, s.locals, plain).Ok? {
      WalkedTyped(f, t, st.locals, plain, st.nvals);
      hide WalkExpr, ExprType, L.ExprCode, L.Emit, L.Declare, WalkStmt;
      assert s.locals[name := ir.dtype] == s.locals;
    } else {
      AugFloatFloor(f, s, stmt, t, st);
    }
  }

  lemma PlainForm(f: Fn, s: State, stmt: Py.Stmt)
    requires stmt.AugAssign? && WalkStmt(f, s, stmt).Ok?
    ensures var plain := Py.BinExpr(stmt.op, stmt.target, stmt.value);
            var (ir, _, s') := WalkStmt(f, s, stmt).value;
            && s' == s && ir.Assign? && ir.name == stmt.target.id && ir.name in s.locals && ir.dtype == s.locals[ir.name]
            && (ValueSafe(f, s.locals, plain) <==> ValueSafe(f, s.locals, stmt.value))
            && (WalkExpr(f, s.locals, plain).Ok? ==> WalkExpr(f, s.locals, plain).value == (ir.value, ir.dtype))
            && (WalkExpr(f, s.locals, plain).Err? ==> ir.dtype == F64 && ir.value.Binary? && ir.value.bop in {FloorDiv, Mod})
  {
  }

  /** `//=` and `%=` on floats pass the walker, which forgets the check it makes for `//` and `%`; the
      code generator turns them away. */
  lemma AugFloatFloor(f: Fn, s: State, stmt: Py.Stmt, t: L.Target, st: L.Build)
    requires stmt.AugAssign? && WalkStmt(f, s, stmt).Ok?
    requires WalkExpr(f, s.locals, Py.BinExpr(stmt.op, stmt.target, stmt.value)).Err?
    ensures var ir := WalkStmt(f, s, stmt).value.0;
            StmtTypes(ir, s.locals, t.inT, t.outT, st.loops != []).None? && L.LowerStmt(t, st, ir).Err?
  {
    PlainForm(f, s, stmt);
    var ir := WalkStmt(f, s, stmt).value.0;
    hide WalkStmt, WalkExpr;
    EC.CodeLevel(t, st.locals, ir.value, F64, st.nvals);
  }

  lemma ReturnTyped(f: Fn, s: State, stmt: Py.Stmt, t: L.Target, st: L.Build)
    requires stmt.Return? && WalkStmt(f, s, stmt).Ok? && Meets(f, s, WalkStmt(f, s, stmt).value.2, t, st)
    ensures StmtAgrees(f, s, stmt, t, st)
  {
    hide WalkExpr, ValueSafe, ExprType, L.ExprCode, L.Emit, L.Leave;
    WalkedTyped(f, t, st.locals, stmt.result.value, st.nvals);
  }

  /** One level of a conditional; a missing else is an empty one. */
  lemma IfLevel(f: Fn, s: State, stmt: Py.Stmt)
    requires stmt.If? && WalkStmt(f, s, stmt).Ok?
    ensures WalkExpr(f, s.locals, stmt.test).Ok? && WalkList(f, s, Py.StripDocstring(stmt.body)).Ok?
    ensures var (c, _) := WalkExpr(f, s.locals, stmt.test).value;
            var (yes, _, s1) := WalkList(f, s, Py.StripDocstring(stmt.body)).value;
            && WalkList(f, s1, Py.StripDocstring(stmt.orelse)).Ok?
            && var (no, _, s2) := WalkList(f, s1, Py.StripDocstring(stmt.orelse)).value;
               && WalkStmt(f, s, stmt).value.0 == If(c, yes, no) && WalkStmt(f, s, stmt).value.2 == s2
               && (StmtSafe(f, s, stmt) <==>
                   && TestSafe(f, s.locals, stmt.test) && ListSafe(f, s, Py.StripDocstring(stmt.body))
                   && ListSafe(f, s1, Py.StripDocstring(stmt.orelse)))
  {
    hide WalkExpr, TestSafe;
    var s1 := WalkBody(f, s, stmt.body).value.2;
    BodySafeIs(f, s, stmt.body);
    BodySafeIs(f, s1, stmt.orelse);
  }

  lemma {:induction false} IfTyped(f: Fn, s: State, stmt: Py.Stmt, t: L.Target, st: L.Build)
    requires stmt.If? && WalkStmt(f, s, stmt).Ok? && Meets(f, s, WalkStmt(f, s, stmt).value.2, t, st)
    ensures StmtAgrees(f, s, stmt, t, st)
    decreases stmt, 0
  {
    hide WalkExpr, TestSafe, ExprType, IsTest, L.ExprCode, L.LowerBody, WalkList, ListSafe, BodyTypes, WalkStmt, StmtSafe;
    IfLevel(f, s, stmt);
    var (c, _) := WalkExpr(f, s.locals, stmt.test).value;
    var (yes, _, s1) := WalkList(f, s, Py.StripDocstring(stmt.body)).value;
    var b := |st.blocks|;
    WalkedTest(f, t, st.locals, stmt.test, st.nvals);
    ListKeepsOut(f, s1, Py.StripDocstring(stmt.orelse));
    if L.ExprCode(t, st.locals, c, I64, st.nvals).Ok? {
      var k := L.ExprCode(t, st.locals, c, I64, st.nvals).value;
      var st0 := L.IfHead(st, k);
      WalkedListTyped(f, s, Py.StripDocstring(stmt.body), t, st0);
      if L.LowerBody(t, st0, yes).Ok? && ListSafe(f, s, Py.StripDocstring(stmt.body)) {
        LC.BodyAccepted(t, st0, yes, st.loops != []);
        WalkedListTyped(f, s1, Py.StripDocstring(stmt.orelse), t, L.Fill(L.LowerBody(t, st0, yes).value, b + 2, b + 1));
      }
    }
  }

  lemma BodySafeIs(f: Fn, s: State, ss: seq<Py.Stmt>)
    ensures BodySafe(f, s, ss) == ListSafe(f, s, Py.StripDocstring(ss))
  {
  }

  lemma {:induction false} WhileTyped(f: Fn, s: State, stmt: Py.Stmt, t: L.Target, st: L.Build)
    requires stmt.While? && WalkStmt(f, s, stmt).Ok? && Meets(f, s, WalkStmt(f, s, stmt).value.2, t, st)
    ensures StmtAgrees(f, s, stmt, t, st)
    decreases stmt, 0
  {
    hide WalkExpr, TestSafe, ExprType, IsTest, L.ExprCode, L.LowerBody, WalkList, ListSafe, BodyTypes;
    var (c, _) := WalkExpr(f, s.locals, stmt.test).value;
    var b := |st.blocks|;
    WalkedTest(f, t, st.locals, stmt.test, st.nvals);
    if L.ExprCode(t, st.locals, c, I64, st.nvals).Ok? {
      var k := L.ExprCode(t, st.locals, c, I64, st.nvals).value;
      var st0 := L.PushLoop(L.WhileHead(st, k), L.LoopFrame(b, b + 2));
      assert st0.loops != [];
      BodySafeIs(f, s, stmt.body);
      WalkedListTyped(f, s, Py.StripDocstring(stmt.body), t, st0);
    }
  }

  lemma {:induction false} ForTyped(f: Fn, s: State, stmt: Py.Stmt, t: L.Target, st: L.Build)
    requires stmt.For? && WalkStmt(f, s, stmt).Ok? && Meets(f, s, WalkStmt(f, s, stmt).value.2, t, st)
    ensures StmtAgrees(f, s, stmt, t, st)
    decreases stmt, 0
  {
    hide WalkRange, RangeSafe, ExprType, L.ExprCode, L.LowerBody, L.ForHead, WalkList, ListSafe, BodyTypes;
    var (lo, hi) := WalkRange(f, s.locals, stmt.iter).value;
    var v := stmt.target.id;
    var s0 := s.(locals := s.locals[v := I64]);
    var b := |st.blocks|;
    RangeTyped(f, t, st.locals, stmt.iter, st.nvals);
    if Coded(t, st.locals, lo, I64, st.nvals) && Coded(t, st.locals, hi, I64, NextOf(t, st.locals, lo, I64, st.nvals)) {
      var from := L.ExprCode(t, st.locals, lo, I64, st.nvals).value;
      var to := L.ExprCode(t, st.locals, hi, I64, from.next).value;
      var st0 := L.ForHead(st, v, from, to);
      T.ForHeadOpen(st, v, from, to);
      if v in s.locals ==> s.locals[v] == I64 {
        LC.DeclaredType(st, v, from, to);
        var st1 := L.PushLoop(st0, L.LoopFrame(b + 3, b + 2));
        assert st1.loops != [];
        BodySafeIs(f, s0, stmt.body);
        WalkedListTyped(f, s0, Py.StripDocstring(stmt.body), t, st1);
      }
    }
  }

  lemma RangeTyped(f: Fn, t: L.Target, locals: L.Locals, e: Py.Expr, next: nat)
    requires t.inT == f.inT && WalkRange(f, EC.TypesOf(locals), e).Ok?
    ensures var (lo, hi) := WalkRange(f, EC.TypesOf(locals), e).value;
            Typed(lo, locals, t.inT, I64) && Typed(hi, locals, t.inT, I64) <==>
            && RangeSafe(f, EC.TypesOf(locals), e) && Coded(t, locals, lo, I64, next)
            && Coded(t, locals, hi, I64, NextOf(t, locals, lo, I64, next))
  {
    hide WalkExpr, ValueSafe, Typed, Coded;
    var ls := EC.TypesOf(locals);
    var (lo, hi) := WalkRange(f, ls, e).value;
    var n1 := NextOf(t, locals, lo, I64, next);
    WalkedTyped(f, t, locals, e.args[0], next);
    WalkedTyped(f, t, locals, e.args[0], n1);
    var (u, d) := WalkExpr(f, ls, e.args[0]).value;
    CastTyped(t, locals, u, F64, next);
    CastTyped(t, locals, u, F64, n1);
    if |e.args| == 1 {
      ZeroTyped(t, locals, next);
      assert forall a <- e.args :: a == e.args[0];
    } else {
      WalkedTyped(f, t, locals, e.args[1], n1);
      CastTyped(t, locals, WalkExpr(f, ls, e.args[1]).value.0, F64, n1);
      assert forall a <- e.args :: a == e.args[0] || a == e.args[1];
    }
  }

  lemma ZeroTyped(t: L.Target, locals: L.Locals, next: nat)
    ensures Typed(ConstI64(0), locals, t.inT, I64) && Coded(t, locals, ConstI64(0), I64, next)
  {
  }

  // ----- functions -----

  /** Exactly the functions whose source is safe are typed once the code generator accepts them. */
  lemma TypedIffSafe(c: Callable, inT: Dtype)
    requires KernelOf(c, inT).Some?
    ensures var k := KernelOf(c, inT).value;
            SK.KernelTyped(k) <==> FnSafe(c, inT) && SK.CompileScalar(k).Ok?
  {
    hide WalkExpr, WalkList, ValueSafe, ListSafe, BodyTypes, L.LowerBody;
    var k := KernelOf(c, inT).value;
    var f := Fn(c.params[0], inT);
    var t := SK.ScalarTarget(k);
    var s := State(map[], None);
    assert EC.TypesOf(SK.Prologue().locals) == map[];
    match c
    case Lambda(_, e) =>
      var stmt := Py.Return(Some(e));
      assert WalkStmt(f, s, stmt) == Ok((k.body[0], true, State(map[], Some(k.outputDtype))));
      ReturnTyped(f, s, stmt, t, SK.Prologue());
      LowerOne(t, SK.Prologue(), k.body[0]);
      TypesOne(k.body[0], s, t, SK.Prologue());
    case Def(_, body) => WalkedListTyped(f, s, Py.StripDocstring(body), t, SK.Prologue());
  }

  // ----- no implicit conversion -----

  /** Conversion instructions in a piece of code. */
  function Conversions(code: seq<Cfg.Instr>): nat {
    if code == [] then 0 else (if code[0].FromSint? || code[0].ToSint? then 1 else 0) + Conversions(code[1..])
  }

  /** Casts written in an expression. */
  function Casts(e: Expr): nat {
    match e
    case Unary(_, a) => Casts(a)
    case Binary(_, l, r) => Casts(l) + Casts(r)
    case Compare(_, l, r) => Casts(l) + Casts(r)
    case IfExpr(t, y, n) => Casts(t) + Casts(y) + Casts(n)
    case MathCall(_, a) => Casts(a)
    case CastToI64(a) => 1 + Casts(a)
    case CastToF64(a) => 1 + Casts(a)
    case _ => 0
  }

  lemma {:induction false} ConversionsAdd(a: seq<Cfg.Instr>, b: seq<Cfg.Instr>)
    ensures Conversions(a + b) == Conversions(a) + Conversions(b)
  {
    if a == [] {
      assert a + b == b;
    } else {
      ConversionsAdd(a[1..], b);
      assert (a + b)[1..] == a[1..] + b;
    }
  }

  lemma OneConversion(ins: Cfg.Instr)
    ensures Conversions([ins]) == if ins.FromSint? || ins.ToSint? then 1 else 0
  {
  }

  /** Code for a typed expression converts exactly where the expression says so: every implicit
      coercion is the identity. */
  lemma {:induction false} NoImplicitConversion(t: L.Target, locals: L.Locals, e: Expr, want: Dtype, next: nat)
    requires EC.Fits(e, want, locals, t.inT)
    ensures Coded(t, locals, e, want, next) && Conversions(L.ExprCode(t, locals, e, want, next).value.instrs) == Casts(e)
    decreases e, 1
  {
    hide L.ExprCode, L.GuessCmpDtype, Conversions, EC.Fits, ExprType, IsTest;
    LC.CodeAccepted(t, locals, e, want, next);
    EC.CodeLevel(t, locals, e, want, next);
    PartsFit(t, locals, e, want);
    if L.IsUnary(e) {
      hide L.BinaryCode, L.CompareCode, L.IfExprCode, L.LeafCode;
      var (a, d) := L.Operand(e, want);
      NoImplicitConversion(t, locals, a, d, next);
      var k := L.ExprCode(t, locals, a, d, next).value;
      var ins := L.UnaryInstr(e, want, k.next, k.res);
      ConversionsAdd(k.instrs, [ins]);
      OneConversion(ins);
    } else if e.Binary? {
      hide L.UnaryCode, L.CompareCode, L.IfExprCode, L.LeafCode;
      var a, b := PairConverts(t, locals, e.left, e.right, want, next);
      var ins := L.BinInstr(e.bop, want, b.next, a.res, b.res).value;
      ConversionsAdd(a.instrs + b.instrs, [ins]);
      OneConversion(ins);
    } else if e.Compare? {
      hide L.UnaryCode, L.BinaryCode, L.IfExprCode, L.LeafCode;
      var d := L.GuessCmpDtype(t, locals, e.cleft, e.cright);
      var a, b := PairConverts(t, locals, e.cleft, e.cright, d, next);
      var ins := L.CmpInstr(e.cop, d, b.next, a.res, b.res);
      ConversionsAdd(a.instrs + b.instrs, [ins]);
      OneConversion(ins);
    } else if e.IfExpr? {
      IfExprConverts(t, locals, e, want, next);
    } else {
      LeafConverts(t, locals, e, want, next);
    }
  }

  lemma {:induction false} IfExprConverts(t: L.Target, locals: L.Locals, e: Expr, want: Dtype, next: nat)
    requires e.IfExpr? && EC.Fits(e, want, locals, t.inT)
    ensures Coded(t, locals, e, want, next) && Conversions(L.ExprCode(t, locals, e, want, next).value.instrs) == Casts(e)
    decreases e, 0
  {
    hide L.ExprCode, Conversions, EC.Fits, ExprType, IsTest;
    EC.CodeLevel(t, locals, e, want, next);
    PartsFit(t, locals, e, want);
    NoImplicitConversion(t, locals, e.test, I64, next);
    var c := L.ExprCode(t, locals, e.test, I64, next).value;
    var a, b := PairConverts(t, locals, e.yes, e.no, want, c.next);
    var ins := Cfg.Select(b.next, c.res, a.res, b.res);
    ConversionsAdd(c.instrs, a.instrs + b.instrs);
    assert c.instrs + (a.instrs + b.instrs) == c.instrs + a.instrs + b.instrs;
    ConversionsAdd(c.instrs + a.instrs + b.instrs, [ins]);
    OneConversion(ins);
  }

  lemma {:induction false} PairConverts(t: L.Target, locals: L.Locals, l: Expr, r: Expr, d: Dtype, next: nat)
    returns (a: L.Code, b: L.Code)
    requires EC.Fits(l, d, locals, t.inT) && EC.Fits(r, d, locals, t.inT)
    ensures L.ExprCode(t, locals, l, d, next) == Ok(a) && L.ExprCode(t, locals, r, d, a.next) == Ok(b)
    ensures Conversions(a.instrs + b.instrs) == Casts(l) + Casts(r)
    decreases if l < r then r else l, 2
  {
    hide EC.Fits, L.ExprCode, Conversions;
    NoImplicitConversion(t, locals, l, d, next);
    a := L.ExprCode(t, locals, l, d, next).value;
    NoImplicitConversion(t, locals, r, d, a.next);
    b := L.ExprCode(t, locals, r, d, a.next).value;
    ConversionsAdd(a.instrs, b.instrs);
  }

  /** The parts of a typed expression fit where its code puts them. */
  lemma PartsFit(t: L.Target, locals: L.Locals, e: Expr, want: Dtype)
    requires EC.Fits(e, want, locals, t.inT)
    ensures L.IsUnary(e) ==> EC.Fits(L.Operand(e, want).0, L.Operand(e, want).1, locals, t.inT)
    ensures e.Binary? ==> EC.Fits(e.left, want, locals, t.inT) && EC.Fits(e.right, want, locals, t.inT) && HasArith(e.bop, want)
    ensures e.Compare? ==> var d := L.GuessCmpDtype(t, locals, e.cleft, e.cright);
                           EC.Fits(e.cleft, d, locals, t.inT) && EC.Fits(e.cright, d, locals, t.inT)
    ensures e.IfExpr? ==> EC.Fits(e.test, I64, locals, t.inT) && EC.Fits(e.yes, want, locals, t.inT) && EC.Fits(e.no, want, locals, t.inT)
  {
    hide L.GuessCmpDtype;
    if e.Compare? {
      EC.GuessIsOperandType(t, locals, e.cleft, e.cright);
    }
  }

  lemma LeafConverts(t: L.Target, locals: L.Locals, e: Expr, want: Dtype, next: nat)
    requires L.IsLeaf(e) && EC.Fits(e, want, locals, t.inT)
    ensures Coded(t, locals, e, want, next) && Conversions(L.ExprCode(t, locals, e, want, next).value.instrs) == 0
  {
  }
}
