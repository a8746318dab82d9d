/** Which functions are compiled, said on their source: those in which every expression has one kind of number, every local
    keeps the kind it is first given, all returns agree, and no path falls off the end. */
module SourceTypes {
  import opened Wrappers
  import opened Ir
  import opened Machine
  import opened Semantics
  import opened Walker
  import N = Numbers
  import NM = NumberMap
  import PA = PythonAgreement
  import SA = StatementAgreement
  import WT = WalkerTypes
  import SK = ScalarKernel
  import Py = PyAst

  // ----- expressions -----

  predicate HasOperation(op: Py.Operator, d: Dtype) {
    match d
    case I64 => op in {Py.Add, Py.Sub, Py.Mult, Py.Div, Py.FloorDiv, Py.Mod}
    case F64 => op in {Py.Add, Py.Sub, Py.Mult, Py.Div, Py.Pow}
  }

  /** Integers stay integers; with a float among them the other becomes one. */
  function Common(a: Option<Dtype>, b: Option<Dtype>): Option<Dtype> {
    if a.Some? && b.Some? then Some(if a == b == Some(I64) then I64 else F64) else None
  }

  /** The kind of number an expression is; None for what is not compiled, or has only a truth value. */
  function Kind(f: Fn, ts: Types, e: Py.Expr): Option<Dtype>
    decreases e, 0
  {
    match e
    case Name(id) => if id == f.param then Some(f.inT) else if id in ts then Some(ts[id]) else None
    case IntConst(n) => if InI64(n) then Some(I64) else None
    case BoolConst(_) => Some(I64)
    case FloatConst(_) => Some(F64)
    case UnaryExpr(op, a) => if op in {Py.USub, Py.UAdd} then Kind(f, ts, a) else None
    case BinExpr(op, l, r) =>
      var d :- Common(Kind(f, ts, l), Kind(f, ts, r));
      if HasOperation(op, d) then Some(d) else None
    case IfExp(t, y, n) => if Testable(f, ts, t) then Common(Kind(f, ts, y), Kind(f, ts, n)) else None
    case MathCall(name, args, kw) =>
      if |args| == 1 && !kw && N.MathFunction(name).Some? && Kind(f, ts, args[0]).Some? then Some(F64) else None
    case Call(g, args, kw) =>
      if |args| == 1 && !kw && (g == "int" || g == "float") && Kind(f, ts, args[0]).Some?
      then Some(if g == "int" then I64 else F64) else None
    case _ => None
  }

  /** What may be tested: a comparison, also inside `int()`, or an integer. */
  predicate Testable(f: Fn, ts: Types, e: Py.Expr)
    decreases e, 1
  {
    || Kind(f, ts, e) == Some(I64)
    || match e
       case Compare(l, ops, rs) =>
         |ops| == 1 && |rs| == 1 && ops[0] != Py.OtherCmp && Kind(f, ts, l).Some? && Kind(f, ts, rs[0]).Some?
       case Call(g, args, kw) => |args| == 1 && !kw && g == "int" && Testable(f, ts, args[0])
       case _ => false
  }

  // ----- statements -----

  predicate Leaves(s: Py.Stmt)
    decreases s, 0
  {
    match s
    case Return(_) => true
    case Break => true
    case Continue => true
    case If(_, yes, no) => SomeLeaves(yes) && SomeLeaves(no)
    case _ => false
  }

  predicate SomeLeaves(ss: seq<Py.Stmt>)
    decreases ss, 0
  {
    ss != [] && (Leaves(ss[0]) || SomeLeaves(ss[1..]))
  }

  /** The kinds of the locals after a list of statements, up to the first that is left on every path. */
  function ListKinds(f: Fn, outT: Dtype, ts: Types, ss: seq<Py.Stmt>, inLoop: bool): Option<Types>
    decreases ss, 0
  {
    if ss == [] then Some(ts)
    else
      var ts' :- StmtKinds(f, outT, ts, ss[0], inLoop);
      if Leaves(ss[0]) then Some(ts') else ListKinds(f, outT, ts', ss[1..], inLoop)
  }

  function BodyKinds(f: Fn, outT: Dtype, ts: Types, ss: seq<Py.Stmt>, inLoop: bool): Option<Types>
    decreases ss, 1
  {
    ListKinds(f, outT, ts, Py.StripDocstring(ss), inLoop)
  }

  /** A local has one kind. */
  function Given(ts: Types, name: string, d: Dtype): Option<Types> {
    if name in ts && ts[name] != d then None else Some(ts[name := d])
  }

  function StmtKinds(f: Fn, outT: Dtype, ts: Types, s: Py.Stmt, inLoop: bool): Option<Types>
    decreases s, 0
  {
    match s
    case Assign(targets, e) =>
      var d :- Kind(f, ts, e);
      if |targets| == 1 && targets[0].Name? then Given(ts, targets[0].id, d) else None
    case AugAssign(t, op, e) =>
      if t.Name? && t.id in ts && Kind(f, ts, Py.BinExpr(op, t, e)) == Some(ts[t.id]) then Some(ts) else None
    case Return(r) => if r.Some? && Kind(f, ts, r.value) == Some(outT) then Some(ts) else None
    case If(t, yes, no) =>
      if !Testable(f, ts, t) then None
      else
        var ts' :- BodyKinds(f, outT, ts, yes, inLoop);
        BodyKinds(f, outT, ts', no, inLoop)
    case For(t, iter, body, orelse) =>
      if !(t.Name? && orelse == [] && N.IsRange(iter)) then None
      else
        var (from, to) := N.Ends(iter);
        if Kind(f, ts, from).None? || Kind(f, ts, to).None? then None
        else
          var ts' :- Given(ts, t.id, I64);
          BodyKinds(f, outT, ts', body, true)
    case While(t, body, orelse) => if orelse == [] && Testable(f, ts, t) then BodyKinds(f, outT, ts, body, true) else None
    case Break => if inLoop then Some(ts) else None
    case Continue => if inLoop then Some(ts) else None
    case _ => None
  }

  /** A function of one parameter that has these kinds. */
  ghost predicate WellTyped(c: Callable, inT: Dtype) {
    && |c.params| == 1
    && match c
       case Lambda(params, e) => Kind(Fn(params[0], inT), map[], e).Some?
       case Def(params, body) =>
         SomeLeaves(body) && exists outT :: BodyKinds(Fn(params[0], inT), outT, map[], body, false).Some?
  }

  // ----- expressions walked -----

  /** The dtype of a walked expression, if it has one. */
  function Walked(f: Fn, ts: Types, e: Py.Expr): Option<Dtype> {
    match WalkExpr(f, ts, e)
    case Ok((ir, _)) => ExprType(ir, ts, f.inT)
    case Err(_) => None
  }

  predicate WalksToTest(f: Fn, ts: Types, e: Py.Expr) {
    match WalkExpr(f, ts, e)
    case Ok((ir, _)) => IsTest(ir, ts, f.inT)
    case Err(_) => false
  }

  predicate Right(f: Fn, ts: Types, e: Py.Expr) {
    && Kind(f, ts, e) == Walked(f, ts, e)
    && (WalkExpr(f, ts, e).Ok? ==> Kind(f, ts, e) in {None, Some(WalkExpr(f, ts, e).value.1)})
    && (Testable(f, ts, e) <==> WalksToTest(f, ts, e))
  }

  /** Promotion gives both operands the common kind, if both have one. */
  lemma PromoteKinds(u: Expr, lt: Dtype, v: Expr, rt: Dtype, ts: Types, inT: Dtype)
    requires ExprType(u, ts, inT) in {None, Some(lt)} && ExprType(v, ts, inT) in {None, Some(rt)}
    ensures var (u', v', d) := Promote(u, lt, v, rt);
            var both := ExprType(u', ts, inT).Some? && ExprType(v', ts, inT) == ExprType(u', ts, inT);
            && (both <==> ExprType(u, ts, inT).Some? && ExprType(v, ts, inT).Some?)
            && (both ==> Common(ExprType(u, ts, inT), ExprType(v, ts, inT)) == ExprType(u', ts, inT) == Some(d))
  {
  }

  /** The walker gives an expression exactly the kind it has. */
  lemma {:induction false} KindIsWalked(f: Fn, ts: Types, e: Py.Expr)
    ensures Right(f, ts, e)
    decreases e, 1
  {
    match e
    case UnaryExpr(_, a) => KindIsWalked(f, ts, a);
    case BinExpr(_, _, _) => BinKind(f, ts, e);
    case Compare(_, _, _) => CompareKind(f, ts, e);
    case IfExp(_, _, _) => IfKind(f, ts, e);
    case MathCall(_, _, _) => MathKind(f, ts, e);
    case Call(_, _, _) => CallKind(f, ts, e);
    case _ =>
  }

  lemma {:induction false} BinKind(f: Fn, ts: Types, e: Py.Expr)
    requires e.BinExpr?
    ensures Right(f, ts, e)
    decreases e, 0
  {
    KindIsWalked(f, ts, e.left);
    KindIsWalked(f, ts, e.right);
    var a, b := WalkExpr(f, ts, e.left), WalkExpr(f, ts, e.right);
    if a.Ok? && b.Ok? {
      PromoteKinds(a.value.0, a.value.1, b.value.0, b.value.1, ts, f.inT);
    }
  }

  lemma {:induction false} CompareKind(f: Fn, ts: Types, e: Py.Expr)
    requires e.Compare?
    ensures Right(f, ts, e)
    decreases e, 0
  {
    KindIsWalked(f, ts, e.first);
    if |e.comparators| == 1 {
      KindIsWalked(f, ts, e.comparators[0]);
      var a, b := WalkExpr(f, ts, e.first), WalkExpr(f, ts, e.comparators[0]);
      if a.Ok? && b.Ok? {
        PromoteKinds(a.value.0, a.value.1, b.value.0, b.value.1, ts, f.inT);
      }
    }
  }

  lemma {:induction false} IfKind(f: Fn, ts: Types, e: Py.Expr)
    requires e.IfExp?
    ensures Right(f, ts, e)
    decreases e, 0
  {
    KindIsWalked(f, ts, e.test);
    KindIsWalked(f, ts, e.body);
    KindIsWalked(f, ts, e.orelse);
    var a, b := WalkExpr(f, ts, e.body), WalkExpr(f, ts, e.orelse);
    if a.Ok? && b.Ok? {
      PromoteKinds(a.value.0, a.value.1, b.value.0, b.value.1, ts, f.inT);
    }
  }

  lemma FloatKind(u: Expr, d: Dtype, ts: Types, inT: Dtype)
    requires ExprType(u, ts, inT) in {None, Some(d)}
    ensures ExprType(if d == I64 then CastToF64(u) else u, ts, inT) == (if ExprType(u, ts, inT).Some? then Some(F64) else None)
  {
  }

  lemma {:induction false} MathKind(f: Fn, ts: Types, e: Py.Expr)
    requires e.MathCall?
    ensures Right(f, ts, e)
    decreases e, 0
  {
    PA.MathNames(e.attr);
    if |e.margs| == 1 {
      KindIsWalked(f, ts, e.margs[0]);
      var a := WalkExpr(f, ts, e.margs[0]);
      if a.Ok? {
        FloatKind(a.value.0, a.value.1, ts, f.inT);
      }
    }
    hide N.MathFunction;
  }

  lemma {:induction false} CallKind(f: Fn, ts: Types, e: Py.Expr)
    requires e.Call?
    ensures Right(f, ts, e)
    decreases e, 0
  {
    if |e.args| == 1 {
      KindIsWalked(f, ts, e.args[0]);
    }
  }

  // ----- statements walked -----

  /** The dtypes the walked statements give the locals. */
  function WalkedList(f: Fn, outT: Dtype, s: State, ss: seq<Py.Stmt>, inLoop: bool): Option<Types> {
    match WalkList(f, s, ss)
    case Ok((ir, _, _)) => BodyTypes(ir, s.locals, f.inT, outT, inLoop)
    case Err(_) => None
  }

  function WalkedStmt(f: Fn, outT: Dtype, s: State, stmt: Py.Stmt, inLoop: bool): Option<Types> {
    match WalkStmt(f, s, stmt)
    case Ok((ir, _, _)) => StmtTypes(ir, s.locals, f.inT, outT, inLoop)
    case Err(_) => None
  }

  /** The walker's state after code with these kinds. */
  predicate Reached(s: State, left: bool, s': State, ts: Types, outT: Dtype, leaves: bool, inLoop: bool) {
    && s'.locals == ts && (left <==> leaves) && s'.out in {s.out, Some(outT)}
    && (leaves && !inLoop ==> s'.out == Some(outT))
  }

  predicate ListRight(f: Fn, outT: Dtype, s: State, ss: seq<Py.Stmt>, inLoop: bool) {
    var ts := ListKinds(f, outT, s.locals, ss, inLoop);
    && ts == WalkedList(f, outT, s, ss, inLoop)
    && (ts.Some? ==>
        Reached(s, WalkList(f, s, ss).value.1, WalkList(f, s, ss).value.2, ts.value, outT, SomeLeaves(ss), inLoop))
  }

  predicate BodyRight(f: Fn, outT: Dtype, s: State, ss: seq<Py.Stmt>, inLoop: bool) {
    var ts := BodyKinds(f, outT, s.locals, ss, inLoop);
    && (match WalkBody(f, s, ss)
        case Ok((ir, _, _)) => ts == BodyTypes(ir, s.locals, f.inT, outT, inLoop)
        case Err(_) => ts == None)
    && (ts.Some? ==>
        Reached(s, WalkBody(f, s, ss).value.1, WalkBody(f, s, ss).value.2, ts.value, outT, SomeLeaves(ss), inLoop))
  }

  predicate StmtRight(f: Fn, outT: Dtype, s: State, stmt: Py.Stmt, inLoop: bool) {
    var ts := StmtKinds(f, outT, s.locals, stmt, inLoop);
    && ts == WalkedStmt(f, outT, s, stmt, inLoop)
    && (ts.Some? ==>
        Reached(s, WalkStmt(f, s, stmt).value.1, WalkStmt(f, s, stmt).value.2, ts.value, outT, Leaves(stmt), inLoop))
  }

  /** A list is walked to typed code exactly when it has kinds, and these are the types of the code's locals. */
  lemma {:induction false} ListIsWalked(f: Fn, outT: Dtype, s: State, ss: seq<Py.Stmt>, inLoop: bool)
    requires s.out in {None, Some(outT)}
    ensures ListRight(f, outT, s, ss, inLoop)
    decreases ss, 2
  {
    hide StmtKinds, WalkStmt, StmtTypes, Leaves;
    if ss != [] {
      StmtIsWalked(f, outT, s, ss[0], inLoop);
      JumpsLeave(f, s, ss[0]);
      var w := WalkStmt(f, s, ss[0]);
      if w.Ok? {
        var (ir, left, s') := w.value;
        ListCut(ir, s.locals, f.inT, outT, inLoop);
        if StmtKinds(f, outT, s.locals, ss[0], inLoop).Some? && !left {
          ListIsWalked(f, outT, s', ss[1..], inLoop);
        }
      }
    }
  }

  lemma JumpsLeave(f: Fn, s: State, stmt: Py.Stmt)
    ensures WalkStmt(f, s, stmt).Ok? && !WalkStmt(f, s, stmt).value.1 ==> !Jumps(WalkStmt(f, s, stmt).value.0)
  {
  }

  lemma ListCut(ir: Stmt, ts: Types, inT: Dtype, outT: Dtype, inLoop: bool)
    ensures BodyTypes([ir], ts, inT, outT, inLoop) == StmtTypes(ir, ts, inT, outT, inLoop)
    ensures forall rest :: BodyTypes([ir] + rest, ts, inT, outT, inLoop) ==
              match StmtTypes(ir, ts, inT, outT, inLoop)
              case None => None
              case Some(ts') => if Jumps(ir) then Some(ts') else BodyTypes(rest, ts', inT, outT, inLoop)
  {
    hide StmtTypes;
    forall rest
      ensures BodyTypes([ir] + rest, ts, inT, outT, inLoop) ==
              match StmtTypes(ir, ts, inT, outT, inLoop)
              case None => None
              case Some(ts') => if Jumps(ir) then Some(ts') else BodyTypes(rest, ts', inT, outT, inLoop)
    {
      assert ([ir] + rest)[1..] == rest;
    }
  }

  lemma {:induction false} StmtIsWalked(f: Fn, outT: Dtype, s: State, stmt: Py.Stmt, inLoop: bool)
    requires s.out in {None, Some(outT)}
    ensures StmtRight(f, outT, s, stmt, inLoop)
    decreases stmt, 1
  {
    hide Kind, WalkExpr, ExprType, Testable, IsTest, ListKinds, WalkList, BodyTypes;
    match stmt
    case Assign(_, e) => KindIsWalked(f, s.locals, e);
    case AugAssign(_, _, _) => AugIsWalked(f, outT, s, stmt, inLoop);
    case Return(r) =>
      if r.Some? {
        KindIsWalked(f, s.locals, r.value);
      }
    case If(_, _, _) => IfIsWalked(f, outT, s, stmt, inLoop);
    case For(_, _, _, _) => ForIsWalked(f, outT, s, stmt, inLoop);
    case While(_, _, _) => WhileIsWalked(f, outT, s, stmt, inLoop);
    case _ =>
  }

  lemma AugIsWalked(f: Fn, outT: Dtype, s: State, stmt: Py.Stmt, inLoop: bool)
    requires stmt.AugAssign?
    ensures StmtRight(f, outT, s, stmt, inLoop)
  {
    var plain := Py.BinExpr(stmt.op, stmt.target, stmt.value);
    KindIsWalked(f, s.locals, plain);
    assert stmt.target.Name? && stmt.target.id in s.locals ==> s.locals[stmt.target.id := s.locals[stmt.target.id]] == s.locals;
  }

  lemma {:induction false} IfIsWalked(f: Fn, outT: Dtype, s: State, stmt: Py.Stmt, inLoop: bool)
    requires stmt.If? && s.out in {None, Some(outT)}
    ensures StmtRight(f, outT, s, stmt, inLoop)
    decreases stmt, 0
  {
    hide Kind, WalkExpr, ExprType, Testable, IsTest, BodyKinds, WalkBody, BodyTypes, SomeLeaves;
    KindIsWalked(f, s.locals, stmt.test);
    BodyIsWalked(f, outT, s, stmt.body, inLoop);
    if BodyKinds(f, outT, s.locals, stmt.body, inLoop).Some? {
      BodyIsWalked(f, outT, WalkBody(f, s, stmt.body).value.2, stmt.orelse, inLoop);
    }
  }

  lemma RangeIsWalked(f: Fn, ts: Types, e: Py.Expr)
    ensures WalkRange(f, ts, e).Ok? ==> N.IsRange(e)
    ensures N.IsRange(e) ==>
              (Kind(f, ts, N.Ends(e).0).Some? && Kind(f, ts, N.Ends(e).1).Some? <==>
               && WalkRange(f, ts, e).Ok?
               && ExprType(WalkRange(f, ts, e).value.0, ts, f.inT) == ExprType(WalkRange(f, ts, e).value.1, ts, f.inT) == Some(I64))
  {
    hide WalkExpr;
    if N.IsRange(e) {
      KindIsWalked(f, ts, e.args[0]);
      KindIsWalked(f, ts, e.args[|e.args| - 1]);
      assert Kind(f, ts, Py.IntConst(0)) == Some(I64) == ExprType(ConstI64(0), ts, f.inT);
    }
  }

  lemma {:induction false} ForIsWalked(f: Fn, outT: Dtype, s: State, stmt: Py.Stmt, inLoop: bool)
    requires stmt.For? && s.out in {None, Some(outT)}
    ensures StmtRight(f, outT, s, stmt, inLoop)
    decreases stmt, 0
  {
    hide Kind, WalkExpr, ExprType, Testable, IsTest, BodyKinds, WalkBody, BodyTypes, SomeLeaves;
    RangeIsWalked(f, s.locals, stmt.iter);
    hide WalkRange, N.Ends;
    if stmt.target.Name? && N.IsRange(stmt.iter) {
      BodyIsWalked(f, outT, s.(locals := s.locals[stmt.target.id := I64]), stmt.body, true);
    }
  }

  lemma {:induction false} WhileIsWalked(f: Fn, outT: Dtype, s: State, stmt: Py.Stmt, inLoop: bool)
    requires stmt.While? && s.out in {None, Some(outT)}
    ensures StmtRight(f, outT, s, stmt, inLoop)
    decreases stmt, 0
  {
    hide Kind, WalkExpr, ExprType, Testable, IsTest, BodyKinds, WalkBody, BodyTypes, SomeLeaves;
    KindIsWalked(f, s.locals, stmt.test);
    BodyIsWalked(f, outT, s, stmt.body, true);
  }

  /** A docstring does nothing. */
  lemma {:induction false} BodyIsWalked(f: Fn, outT: Dtype, s: State, ss: seq<Py.Stmt>, inLoop: bool)
    requires s.out in {None, Some(outT)}
    ensures BodyRight(f, outT, s, ss, inLoop)
    ensures ss == [] ==> WalkBody(f, s, ss) == Ok(([], false, s)) && BodyKinds(f, outT, s.locals, ss, inLoop) == Some(s.locals) && !SomeLeaves(ss)
    decreases ss, 3
  {
    ListIsWalked(f, outT, s, Py.StripDocstring(ss), inLoop);
    assert SomeLeaves(Py.StripDocstring(ss)) == SomeLeaves(ss);
  }

  // ----- functions -----

  /** A function is compiled, and tests only truth values and integers, exactly when it is well typed. */
  lemma CompiledIffWellTyped(c: Callable, inT: Dtype)
    ensures WellTyped(c, inT) <==>
            KernelOf(c, inT).Some? && WT.FnSafe(c, inT) && SK.CompileScalar(KernelOf(c, inT).value).Ok?
  {
    hide WT.FnSafe, SK.CompileScalar;
    if |c.params| == 1 {
      KernelTypedIff(c, inT);
    }
    if KernelOf(c, inT).Some? {
      WT.TypedIffSafe(c, inT);
    }
  }

  lemma KernelTypedIff(c: Callable, inT: Dtype)
    requires |c.params| == 1
    ensures WellTyped(c, inT) <==> KernelOf(c, inT).Some? && SK.KernelTyped(KernelOf(c, inT).value)
  {
    hide Kind, WalkExpr, ExprType, BodyKinds, SomeLeaves;
    var f := Fn(c.params[0], inT);
    match c
    case Lambda(_, e) =>
      KindIsWalked(f, map[], e);
      if KernelOf(c, inT).Some? {
        var k := KernelOf(c, inT).value;
        ListCut(k.body[0], map[], inT, k.outputDtype, false);
      }
    case Def(_, body) =>
      hide WalkBody, BodyTypes;
      var s := State(map[], None);
      forall outT ensures BodyRight(f, outT, s, body, false) {
        BodyIsWalked(f, outT, s, body, false);
      }
      if WellTyped(c, inT) {
        var outT :| BodyKinds(f, outT, map[], body, false).Some?;
        assert BodyRight(f, outT, s, body, false);
      }
      if KernelOf(c, inT).Some? {
        assert BodyRight(f, KernelOf(c, inT).value.outputDtype, s, body, false);
      }
  }

  /** Such a function never gets stuck: for an input of its dtype it returns, traps, runs on, or meets a name without a
      value. */
  lemma WellTypedRuns(m: Fpu, fuel: nat, c: Callable, inT: Dtype, a: N.Number)
    requires WellTyped(c, inT) && SA.Disciplined(NM.ScopeOf(c, inT), {}, NM.BodyOf(c)) && HasType(PA.ValOf(a), inT)
    ensures var o := NM.NumberCall(m, fuel, c, a); o.Returned? || o.Trapped? || o.Timeout? || o.Unbound?
  {
    hide WellTyped, WT.FnSafe, SK.CompileScalar, SA.Disciplined, NM.NumberCall;
    CompiledIffWellTyped(c, inT);
    NM.ElementMeans(m, fuel, c, inT, KernelOf(c, inT).value, a, map[]);
  }
}
