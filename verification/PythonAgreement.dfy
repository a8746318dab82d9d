/** Walked expressions mean in the IR what `Numbers` says of their source: integers that become floats where they meet one on
    the one side, a typed IR in which promotions are casts on the other. */
module PythonAgreement {
  import opened Wrappers
  import opened Ir
  import opened Machine
  import opened Walker
  import N = Numbers
  import WT = WalkerTypes
  import Sem = Semantics
  import Py = PyAst

  /** The parameter and its dtype, every name used as a loop variable, and the dtypes the walker ends up with. */
  datatype Scope = Scope(param: string, inT: Dtype, counters: set<string>, types: Types)

  function FnOf(sc: Scope): Fn { Fn(sc.param, sc.inT) }

  // ----- expressions -----

  function ValOf(a: N.Number): Val {
    match a
    case Int(n) => IntV(n)
    case Flt(w) => FltV(w)
  }

  predicate Within(ls: Types, ts: Types) { forall n <- ls :: n in ts && ts[n] == ls[n] }

  /** The IR store holds the source's variables, in the dtypes the walker gave them; loop variables outside their
      loops excepted. */
  predicate Linked(sc: Scope, env: N.Env, x: Val, u: Sem.Store, stale: set<string>) {
    && sc.param in env && ValOf(env[sc.param]) == x && HasType(x, sc.inT)
    && forall n <- env | n != sc.param && n !in stale ::
         n in u && u[n] == ValOf(env[n]) && (n in sc.types ==> HasType(u[n], sc.types[n]))
  }

  /** What ties an expression to both of its meanings. */
  predicate Meets(sc: Scope, ls: Types, e: Py.Expr, env: N.Env, x: Val, u: Sem.Store, stale: set<string>) {
    WalkExpr(FnOf(sc), ls, e).Ok? && Within(ls, sc.types) && Linked(sc, env, x, u, stale) && N.Names(e) !! stale
  }

  /** The number, in its dtype; or the trap.  Nothing is said only if a name is unbound. */
  predicate Gives(v: Option<Val>, a: N.Found, d: Dtype, bound: bool) {
    match a
    case Is(n) => v == Some(ValOf(n)) && HasType(ValOf(n), d)
    case Traps => v == None
    case Unknown => !bound
  }

  predicate Decides(v: Option<Val>, a: N.Found, bound: bool) {
    match a
    case Is(n) => n.Int? && v.Some? && Truth(v.value) == Some(n.n != 0)
    case Traps => v == None
    case Unknown => !bound
  }

  function IrOf(sc: Scope, ls: Types, e: Py.Expr): Expr
    requires WalkExpr(FnOf(sc), ls, e).Ok?
  {
    WalkExpr(FnOf(sc), ls, e).value.0
  }

  function DtypeOf(sc: Scope, ls: Types, e: Py.Expr): Dtype
    requires WalkExpr(FnOf(sc), ls, e).Ok?
  {
    WalkExpr(FnOf(sc), ls, e).value.1
  }

  predicate IsTyped(sc: Scope, ls: Types, e: Py.Expr)
    requires WalkExpr(FnOf(sc), ls, e).Ok?
  {
    Sem.ExprType(IrOf(sc, ls, e), ls, sc.inT).Some?
  }

  predicate Testable(sc: Scope, ls: Types, e: Py.Expr)
    requires WalkExpr(FnOf(sc), ls, e).Ok?
  {
    Sem.IsTest(IrOf(sc, ls, e), ls, sc.inT)
  }

  /** The IR of a typed expression means what the source does; under test, that its integer is not zero. */
  predicate Agrees(m: Fpu, sc: Scope, ls: Types, e: Py.Expr, env: N.Env, x: Val, u: Sem.Store)
    requires WalkExpr(FnOf(sc), ls, e).Ok?
  {
    var v, a, bound := Sem.Eval(m, IrOf(sc, ls, e), x, u), N.Meaning(m, e, env), N.Names(e) <= env.Keys;
    && (IsTyped(sc, ls, e) ==> Gives(v, a, DtypeOf(sc, ls, e), bound))
    && (Testable(sc, ls, e) ==> Decides(v, a, bound))
  }

  /** What is not a comparison is right under test if it is right as a value. */
  lemma TestOfValue(m: Fpu, sc: Scope, ls: Types, e: Py.Expr, env: N.Env, x: Val, u: Sem.Store)
    requires WalkExpr(FnOf(sc), ls, e).Ok? && !e.Compare? && !WT.IsIntOfI64(FnOf(sc), ls, e)
    requires IsTyped(sc, ls, e) ==>
               Gives(Sem.Eval(m, IrOf(sc, ls, e), x, u), N.Meaning(m, e, env), DtypeOf(sc, ls, e), N.Names(e) <= env.Keys)
    ensures Agrees(m, sc, ls, e, env, x, u)
  {
    hide WalkExpr, WT.IsIntOfI64, Sem.Eval, N.Meaning, N.Names, Sem.ExprType;
    WT.NotCompare(FnOf(sc), ls, e);
    WT.NotComparedTest(IrOf(sc, ls, e), ls, sc.inT);
    WT.OneType(FnOf(sc), ls, e);
  }

  lemma LeafAgrees(m: Fpu, sc: Scope, ls: Types, e: Py.Expr, env: N.Env, x: Val, u: Sem.Store, stale: set<string>)
    requires Meets(sc, ls, e, env, x, u, stale) && (e.Name? || e.IntConst? || e.BoolConst? || e.FloatConst?)
    ensures Agrees(m, sc, ls, e, env, x, u)
  {
    TestOfValue(m, sc, ls, e, env, x, u);
  }

  /** The parts of an expression, as both meanings visit them. */
  predicate PartOf(a: Py.Expr, e: Py.Expr) {
    match e
    case UnaryExpr(_, b) => a == b
    case BinExpr(_, l, r) => a == l || a == r
    case Compare(l, _, rs) => a == l || (rs != [] && a == rs[0])
    case IfExp(t, y, n) => a == t || a == y || a == n
    case MathCall(_, args, _) => args != [] && a == args[0]
    case Call(_, args, _) => args != [] && a == args[0]
    case _ => false
  }

  lemma MeetsPart(sc: Scope, ls: Types, e: Py.Expr, a: Py.Expr, env: N.Env, x: Val, u: Sem.Store, stale: set<string>)
    requires Meets(sc, ls, e, env, x, u, stale) && PartOf(a, e)
    ensures Meets(sc, ls, a, env, x, u, stale) && a < e && N.Names(a) <= N.Names(e)
  {
    hide Linked, Within, Promote;
  }

  /** The operators the walker accepts. */
  lemma Accepts(sc: Scope, ls: Types, e: Py.Expr)
    requires WalkExpr(FnOf(sc), ls, e).Ok?
    ensures match e
            case UnaryExpr(op, _) => op == Py.USub || op == Py.UAdd
            case MathCall(name, args, kw) => |args| == 1 && !kw && name in MATH_MAP
            case Call(g, args, kw) => |args| == 1 && !kw && (g == "int" || g == "float")
            case OtherConst => false
            case OtherExpr => false
            case _ => true
  {
    hide Promote;
  }

  lemma {:induction false} UnaryAgrees(m: Fpu, sc: Scope, ls: Types, e: Py.Expr, env: N.Env, x: Val, u: Sem.Store, stale: set<string>)
    requires Meets(sc, ls, e, env, x, u, stale) && e.UnaryExpr?
    ensures Agrees(m, sc, ls, e, env, x, u)
    decreases e, 0
  {
    MeetsPart(sc, ls, e, e.operand, env, x, u, stale);
    MeaningAgrees(m, sc, ls, e.operand, env, x, u, stale);
    Accepts(sc, ls, e);
    WT.WalkCases(FnOf(sc), ls, e);
    hide WalkExpr, Wrap, Linked, N.Names, Within;
    TestOfValue(m, sc, ls, e, env, x, u);
  }

  /** The value of an operand that is promoted if the other operand is a float. */
  function Promoted(m: Fpu, v: Option<Val>, d: Dtype, other: Dtype): Option<Val> {
    if d == I64 && other == F64 then Sem.ToF64(m, v) else v
  }

  function Join(d: Dtype, other: Dtype): Dtype { if d == I64 && other == I64 then I64 else F64 }

  lemma ArithGives(m: Fpu, op: Py.Operator, v: Option<Val>, w: Option<Val>, a: N.Found, b: N.Found, d: Dtype, c: Dtype, bound: bool)
    requires BinOpOf(op).Ok? && Sem.HasArith(BinOpOf(op).value, Join(d, c)) && Gives(v, a, d, bound) && Gives(w, b, c, bound)
    ensures Gives(Sem.Arith(m, BinOpOf(op).value, Promoted(m, v, d, c), Promoted(m, w, c, d)), N.Calculated(m, op, a, b), Join(d, c), bound)
  {
    hide Wrap, TruncDiv, TruncRem;
  }

  /** A pair of operands: where the pair is typed in one dtype, both parts are typed, and what is evaluated is promoted. */
  lemma PairTyped(m: Fpu, sc: Scope, ls: Types, l: Py.Expr, r: Py.Expr, x: Val, u: Sem.Store)
    requires WalkExpr(FnOf(sc), ls, l).Ok? && WalkExpr(FnOf(sc), ls, r).Ok?
    ensures var (p, q, d) := Promote(IrOf(sc, ls, l), DtypeOf(sc, ls, l), IrOf(sc, ls, r), DtypeOf(sc, ls, r));
            && d == Join(DtypeOf(sc, ls, l), DtypeOf(sc, ls, r))
            && Sem.Eval(m, p, x, u) == Promoted(m, Sem.Eval(m, IrOf(sc, ls, l), x, u), DtypeOf(sc, ls, l), DtypeOf(sc, ls, r))
            && Sem.Eval(m, q, x, u) == Promoted(m, Sem.Eval(m, IrOf(sc, ls, r), x, u), DtypeOf(sc, ls, r), DtypeOf(sc, ls, l))
            && (Sem.ExprType(p, ls, sc.inT).Some? && Sem.ExprType(q, ls, sc.inT).Some? ==>
                  IsTyped(sc, ls, l) && IsTyped(sc, ls, r) && Sem.ExprType(p, ls, sc.inT) == Sem.ExprType(q, ls, sc.inT) == Some(d))
  {
    hide WalkExpr;
    WT.OneType(FnOf(sc), ls, l);
    WT.OneType(FnOf(sc), ls, r);
  }

  /** One level of a binary operation: its IR, and its two meanings. */
  lemma BinaryLevel(m: Fpu, sc: Scope, ls: Types, e: Py.Expr, env: N.Env, x: Val, u: Sem.Store)
    requires WalkExpr(FnOf(sc), ls, e).Ok? && e.BinExpr?
    ensures BinOpOf(e.bop).Ok? && WalkExpr(FnOf(sc), ls, e.left).Ok? && WalkExpr(FnOf(sc), ls, e.right).Ok?
    ensures var o, d, c := BinOpOf(e.bop).value, DtypeOf(sc, ls, e.left), DtypeOf(sc, ls, e.right);
            && DtypeOf(sc, ls, e) == Join(d, c)
            && (IsTyped(sc, ls, e) ==> IsTyped(sc, ls, e.left) && IsTyped(sc, ls, e.right) && Sem.HasArith(o, Join(d, c)))
            && Sem.Eval(m, IrOf(sc, ls, e), x, u) ==
               Sem.Arith(m, o, Promoted(m, Sem.Eval(m, IrOf(sc, ls, e.left), x, u), d, c), Promoted(m, Sem.Eval(m, IrOf(sc, ls, e.right), x, u), c, d))
    ensures N.Meaning(m, e, env) == N.Calculated(m, e.bop, N.Meaning(m, e.left, env), N.Meaning(m, e.right, env))
  {
    WT.WalkCases(FnOf(sc), ls, e);
    hide WalkExpr, Promote, Promoted, Sem.Arith, N.Calculated;
    PairTyped(m, sc, ls, e.left, e.right, x, u);
  }

  lemma {:induction false} BinaryAgrees(m: Fpu, sc: Scope, ls: Types, e: Py.Expr, env: N.Env, x: Val, u: Sem.Store, stale: set<string>)
    requires Meets(sc, ls, e, env, x, u, stale) && e.BinExpr?
    ensures Agrees(m, sc, ls, e, env, x, u)
    decreases e, 0
  {
    PairAgrees(m, sc, ls, e, e.left, e.right, env, x, u, stale);
    hide WalkExpr, Linked, N.Names, Within, Promoted, Join, Sem.Arith, N.Calculated, Sem.ExprType, Sem.IsTest, Sem.Eval, N.Meaning, Gives, Decides, Sem.HasArith;
    BinaryLevel(m, sc, ls, e, env, x, u);
    BoundedGives(m, sc, ls, e, e.left, env, x, u);
    BoundedGives(m, sc, ls, e, e.right, env, x, u);
    if IsTyped(sc, ls, e) {
      ArithGives(m, e.bop, Sem.Eval(m, IrOf(sc, ls, e.left), x, u), Sem.Eval(m, IrOf(sc, ls, e.right), x, u),
                 N.Meaning(m, e.left, env), N.Meaning(m, e.right, env), DtypeOf(sc, ls, e.left), DtypeOf(sc, ls, e.right),
                 N.Names(e) <= env.Keys);
    }
    TestOfValue(m, sc, ls, e, env, x, u);
  }

  /** Two parts. */
  lemma {:induction false} PairAgrees(m: Fpu, sc: Scope, ls: Types, e: Py.Expr, l: Py.Expr, r: Py.Expr, env: N.Env, x: Val, u: Sem.Store, stale: set<string>)
    requires Meets(sc, ls, e, env, x, u, stale) && PartOf(l, e) && PartOf(r, e)
    ensures l < e && r < e && N.Names(l) <= N.Names(e) && N.Names(r) <= N.Names(e)
    ensures WalkExpr(FnOf(sc), ls, l).Ok? && WalkExpr(FnOf(sc), ls, r).Ok?
    ensures Agrees(m, sc, ls, l, env, x, u) && Agrees(m, sc, ls, r, env, x, u)
    decreases e, -1
  {
    MeetsPart(sc, ls, e, l, env, x, u, stale);
    MeetsPart(sc, ls, e, r, env, x, u, stale);
    MeaningAgrees(m, sc, ls, l, env, x, u, stale);
    MeaningAgrees(m, sc, ls, r, env, x, u, stale);
    hide *;
  }

  lemma ComparedDecides(m: Fpu, op: Py.CmpOp, v: Option<Val>, w: Option<Val>, a: N.Found, b: N.Found, d: Dtype, c: Dtype, bound: bool)
    requires CmpOpOf(op).Ok? && Gives(v, a, d, bound) && Gives(w, b, c, bound)
    ensures Decides(Sem.Compared(m, CmpOpOf(op).value, Promoted(m, v, d, c), Promoted(m, w, c, d)),
                    N.Tested(m, op, a, b), bound)
  {
  }

  /** One level of a comparison: its IR, and its two meanings. */
  lemma CompareLevel(m: Fpu, sc: Scope, ls: Types, e: Py.Expr, env: N.Env, x: Val, u: Sem.Store)
    requires WalkExpr(FnOf(sc), ls, e).Ok? && e.Compare?
    ensures |e.ops| == |e.comparators| == 1 && CmpOpOf(e.ops[0]).Ok?
    ensures WalkExpr(FnOf(sc), ls, e.first).Ok? && WalkExpr(FnOf(sc), ls, e.comparators[0]).Ok? && !IsTyped(sc, ls, e)
    ensures var l, r, o := e.first, e.comparators[0], CmpOpOf(e.ops[0]).value;
            var d, c := DtypeOf(sc, ls, l), DtypeOf(sc, ls, r);
            && (Testable(sc, ls, e) ==> IsTyped(sc, ls, l) && IsTyped(sc, ls, r))
            && Sem.Eval(m, IrOf(sc, ls, e), x, u) ==
               Sem.Compared(m, o, Promoted(m, Sem.Eval(m, IrOf(sc, ls, l), x, u), d, c), Promoted(m, Sem.Eval(m, IrOf(sc, ls, r), x, u), c, d))
            && N.Meaning(m, e, env) == N.Tested(m, e.ops[0], N.Meaning(m, l, env), N.Meaning(m, r, env))
  {
    WT.WalkCases(FnOf(sc), ls, e);
    hide WalkExpr, Promote, Promoted, Sem.Compared, N.Tested;
    PairTyped(m, sc, ls, e.first, e.comparators[0], x, u);
  }

  lemma {:induction false} CompareAgrees(m: Fpu, sc: Scope, ls: Types, e: Py.Expr, env: N.Env, x: Val, u: Sem.Store, stale: set<string>)
    requires Meets(sc, ls, e, env, x, u, stale) && e.Compare?
    ensures Agrees(m, sc, ls, e, env, x, u)
    decreases e, 0
  {
    CompareLevel(m, sc, ls, e, env, x, u);
    var l, r := e.first, e.comparators[0];
    PairAgrees(m, sc, ls, e, l, r, env, x, u, stale);
    hide WalkExpr, Linked, N.Names, Within, Promoted, Sem.Compared, N.Tested, Sem.ExprType, Sem.IsTest, Sem.Eval, N.Meaning, Gives, Decides;
    BoundedGives(m, sc, ls, e, l, env, x, u);
    BoundedGives(m, sc, ls, e, r, env, x, u);
    if Testable(sc, ls, e) {
      ComparedDecides(m, e.ops[0], Sem.Eval(m, IrOf(sc, ls, l), x, u), Sem.Eval(m, IrOf(sc, ls, r), x, u),
                      N.Meaning(m, l, env), N.Meaning(m, r, env), DtypeOf(sc, ls, l), DtypeOf(sc, ls, r), N.Names(e) <= env.Keys);
    }
  }

  lemma ChosenGives(m: Fpu, t: Option<Val>, v: Option<Val>, w: Option<Val>, c: N.Found, a: N.Found, b: N.Found, d: Dtype, f: Dtype, bound: bool)
    requires Decides(t, c, bound) && Gives(v, a, d, bound) && Gives(w, b, f, bound)
    ensures Gives(Sem.Chosen(t, Promoted(m, v, d, f), Promoted(m, w, f, d)),
                  N.Chosen(m, c, a, b), Join(d, f), bound)
  {
  }

  /** More names bound, nothing less is said. */
  lemma BoundedGives(m: Fpu, sc: Scope, ls: Types, e: Py.Expr, a: Py.Expr, env: N.Env, x: Val, u: Sem.Store)
    requires WalkExpr(FnOf(sc), ls, a).Ok? && Agrees(m, sc, ls, a, env, x, u) && N.Names(a) <= N.Names(e)
    ensures var v, n, bound := Sem.Eval(m, IrOf(sc, ls, a), x, u), N.Meaning(m, a, env), N.Names(e) <= env.Keys;
            && (IsTyped(sc, ls, a) ==> Gives(v, n, DtypeOf(sc, ls, a), bound))
            && (Testable(sc, ls, a) ==> Decides(v, n, bound))
  {
    hide WalkExpr, Sem.Eval, N.Meaning, Sem.ExprType, Sem.IsTest, N.Names;
  }

  lemma IfExprParts(w: Expr, p: Expr, q: Expr, ls: Types, inT: Dtype)
    ensures Sem.ExprType(IfExpr(w, p, q), ls, inT).Some? ==>
              Sem.IsTest(w, ls, inT) && Sem.ExprType(p, ls, inT).Some? && Sem.ExprType(q, ls, inT).Some?
  {
    hide Sem.IsTest;
  }

  /** One level of a conditional expression: its IR, and its two meanings. */
  lemma IfExpLevel(m: Fpu, sc: Scope, ls: Types, e: Py.Expr, env: N.Env, x: Val, u: Sem.Store)
    requires WalkExpr(FnOf(sc), ls, e).Ok? && e.IfExp?
    ensures WalkExpr(FnOf(sc), ls, e.test).Ok? && WalkExpr(FnOf(sc), ls, e.body).Ok? && WalkExpr(FnOf(sc), ls, e.orelse).Ok?
    ensures IsTyped(sc, ls, e) ==> Testable(sc, ls, e.test) && IsTyped(sc, ls, e.body) && IsTyped(sc, ls, e.orelse)
    ensures var d, c := DtypeOf(sc, ls, e.body), DtypeOf(sc, ls, e.orelse);
            && DtypeOf(sc, ls, e) == Join(d, c)
            && Sem.Eval(m, IrOf(sc, ls, e), x, u) ==
               Sem.Chosen(Sem.Eval(m, IrOf(sc, ls, e.test), x, u), Promoted(m, Sem.Eval(m, IrOf(sc, ls, e.body), x, u), d, c),
                          Promoted(m, Sem.Eval(m, IrOf(sc, ls, e.orelse), x, u), c, d))
    ensures N.Meaning(m, e, env) == N.Chosen(m, N.Meaning(m, e.test, env), N.Meaning(m, e.body, env), N.Meaning(m, e.orelse, env))
  {
    WT.WalkCases(FnOf(sc), ls, e);
    hide WalkExpr, Promote, Promoted, Sem.Chosen, N.Chosen, Sem.ExprType, Sem.IsTest;
    PairTyped(m, sc, ls, e.body, e.orelse, x, u);
    var (p, q, _) := Promote(IrOf(sc, ls, e.body), DtypeOf(sc, ls, e.body), IrOf(sc, ls, e.orelse), DtypeOf(sc, ls, e.orelse));
    IfExprParts(IrOf(sc, ls, e.test), p, q, ls, sc.inT);
  }

  lemma {:induction false} IfExpAgrees(m: Fpu, sc: Scope, ls: Types, e: Py.Expr, env: N.Env, x: Val, u: Sem.Store, stale: set<string>)
    requires Meets(sc, ls, e, env, x, u, stale) && e.IfExp?
    ensures Agrees(m, sc, ls, e, env, x, u)
    decreases e, 0
  {
    PairAgrees(m, sc, ls, e, e.test, e.body, env, x, u, stale);
    PairAgrees(m, sc, ls, e, e.body, e.orelse, env, x, u, stale);
    hide WalkExpr, Linked, N.Names, Within, Promoted, Join, Sem.Chosen, N.Chosen, Sem.ExprType, Sem.IsTest, Sem.Eval, N.Meaning, Gives, Decides;
    IfExpLevel(m, sc, ls, e, env, x, u);
    BoundedGives(m, sc, ls, e, e.test, env, x, u);
    BoundedGives(m, sc, ls, e, e.body, env, x, u);
    BoundedGives(m, sc, ls, e, e.orelse, env, x, u);
    if IsTyped(sc, ls, e) {
      ChosenGives(m, Sem.Eval(m, IrOf(sc, ls, e.test), x, u), Sem.Eval(m, IrOf(sc, ls, e.body), x, u), Sem.Eval(m, IrOf(sc, ls, e.orelse), x, u),
                  N.Meaning(m, e.test, env), N.Meaning(m, e.body, env), N.Meaning(m, e.orelse, env),
                  DtypeOf(sc, ls, e.body), DtypeOf(sc, ls, e.orelse), N.Names(e) <= env.Keys);
    }
    TestOfValue(m, sc, ls, e, env, x, u);
  }

  /** The walker's table of math functions. */
  lemma MathNames(name: string)
    ensures if name in MATH_MAP then N.MathFunction(name) == Some(MATH_MAP[name]) else N.MathFunction(name) == None
  {
  }

  /** A cast to f64 where the operand is an i64. */
  lemma CastMeans(m: Fpu, p: Expr, d: Dtype, ls: Types, inT: Dtype, x: Val, u: Sem.Store)
    ensures var q := if d == I64 then CastToF64(p) else p;
            && Sem.Eval(m, q, x, u) == Promoted(m, Sem.Eval(m, p, x, u), d, F64)
            && (Sem.ExprType(q, ls, inT).Some? ==> Sem.ExprType(p, ls, inT).Some?)
  {
  }

  lemma MathGives(m: Fpu, f: MathFn, v: Option<Val>, a: N.Found, d: Dtype, bound: bool)
    requires Gives(v, a, d, bound)
    ensures Gives(Sem.Called(m, f, Promoted(m, v, d, F64)), if a.Is? then N.Is(N.Flt(m.math(f, N.Float(m, a.a)))) else a, F64, bound)
  {
  }

  lemma {:induction false} MathAgrees(m: Fpu, sc: Scope, ls: Types, e: Py.Expr, env: N.Env, x: Val, u: Sem.Store, stale: set<string>)
    requires Meets(sc, ls, e, env, x, u, stale) && e.MathCall?
    ensures Agrees(m, sc, ls, e, env, x, u)
    decreases e, 0
  {
    Accepts(sc, ls, e);
    WT.WalkCases(FnOf(sc), ls, e);
    var a := e.margs[0];
    PairAgrees(m, sc, ls, e, a, a, env, x, u, stale);
    MathNames(e.attr);
    hide WalkExpr, Linked, N.Names, Within, N.MathFunction, Sem.Called, N.Float, Promoted;
    CastMeans(m, IrOf(sc, ls, a), DtypeOf(sc, ls, a), ls, sc.inT, x, u);
    if IsTyped(sc, ls, e) {
      MathGives(m, MATH_MAP[e.attr], Sem.Eval(m, IrOf(sc, ls, a), x, u), N.Meaning(m, a, env), DtypeOf(sc, ls, a), N.Names(e) <= env.Keys);
    }
    TestOfValue(m, sc, ls, e, env, x, u);
  }

  lemma {:induction false} CallAgrees(m: Fpu, sc: Scope, ls: Types, e: Py.Expr, env: N.Env, x: Val, u: Sem.Store, stale: set<string>)
    requires Meets(sc, ls, e, env, x, u, stale) && e.Call?
    ensures Agrees(m, sc, ls, e, env, x, u)
    decreases e, 0
  {
    Accepts(sc, ls, e);
    WT.WalkCases(FnOf(sc), ls, e);
    var a := e.args[0];
    PairAgrees(m, sc, ls, e, a, a, env, x, u, stale);
    if e.func == "int" {
      IntAgrees(m, sc, ls, e, env, x, u);
    } else {
      FloatAgrees(m, sc, ls, e, env, x, u);
    }
    hide *;
  }

  /** `int(a)`: an integer stays as it is, comparison or not. */
  lemma IntAgrees(m: Fpu, sc: Scope, ls: Types, e: Py.Expr, env: N.Env, x: Val, u: Sem.Store)
    requires WalkExpr(FnOf(sc), ls, e).Ok? && e.Call? && e.func == "int" && |e.args| == 1 && !e.keywords
    requires WalkExpr(FnOf(sc), ls, e.args[0]).Ok? && Agrees(m, sc, ls, e.args[0], env, x, u) && N.Names(e.args[0]) <= N.Names(e)
    ensures Agrees(m, sc, ls, e, env, x, u)
  {
    var a := e.args[0];
    CallLevel(m, sc, ls, e, env, x, u);
    hide WalkExpr, N.Names, Sem.Eval, N.Meaning, Sem.ExprType, Sem.IsTest;
    BoundedGives(m, sc, ls, e, a, env, x, u);
    if DtypeOf(sc, ls, a) == F64 {
      TestOfValue(m, sc, ls, e, env, x, u);
    }
  }

  /** One level of `int(a)` and `float(a)`. */
  lemma CallLevel(m: Fpu, sc: Scope, ls: Types, e: Py.Expr, env: N.Env, x: Val, u: Sem.Store)
    requires WalkExpr(FnOf(sc), ls, e).Ok? && e.Call? && (e.func == "int" || e.func == "float") && |e.args| == 1 && !e.keywords
    ensures WalkExpr(FnOf(sc), ls, e.args[0]).Ok? && (WT.IsIntOfI64(FnOf(sc), ls, e) <==> e.func == "int" && DtypeOf(sc, ls, e.args[0]) == I64)
    ensures var a, d := e.args[0], DtypeOf(sc, ls, e.args[0]);
            var v, n := Sem.Eval(m, IrOf(sc, ls, a), x, u), N.Meaning(m, a, env);
            && DtypeOf(sc, ls, e) == (if e.func == "int" then I64 else F64)
            && (d == DtypeOf(sc, ls, e) ==> IrOf(sc, ls, e) == IrOf(sc, ls, a))
            && (d != DtypeOf(sc, ls, e) ==>
                  && Sem.Eval(m, IrOf(sc, ls, e), x, u) == (if d == F64 then Sem.ToI64(m, v) else Sem.ToF64(m, v))
                  && (IsTyped(sc, ls, e) ==> IsTyped(sc, ls, a)))
            && N.Meaning(m, e, env) == if !n.Is? then n else if e.func == "int" then N.ToInt(m, n.a) else N.Is(N.Flt(N.Float(m, n.a)))
  {
    WT.WalkCases(FnOf(sc), ls, e);
    hide WalkExpr;
    assert "int" != "float" by { assert "int"[0] != "float"[0]; }
  }

  lemma FloatAgrees(m: Fpu, sc: Scope, ls: Types, e: Py.Expr, env: N.Env, x: Val, u: Sem.Store)
    requires WalkExpr(FnOf(sc), ls, e).Ok? && e.Call? && e.func == "float" && |e.args| == 1 && !e.keywords
    requires WalkExpr(FnOf(sc), ls, e.args[0]).Ok? && Agrees(m, sc, ls, e.args[0], env, x, u) && N.Names(e.args[0]) <= N.Names(e)
    ensures Agrees(m, sc, ls, e, env, x, u)
  {
    assert "int" != "float" by { assert "int"[0] != "float"[0]; }
    var a := e.args[0];
    CallLevel(m, sc, ls, e, env, x, u);
    hide WalkExpr, N.Names, Sem.Eval, N.Meaning, Sem.ExprType, Sem.IsTest;
    BoundedGives(m, sc, ls, e, a, env, x, u);
    TestOfValue(m, sc, ls, e, env, x, u);
  }

  /** For every input, in range or not: the IR of a typed expression of integers and floats has the number the source
      means, as a value and under test, and traps exactly where the source's meaning does. */
  lemma {:induction false} MeaningAgrees(m: Fpu, sc: Scope, ls: Types, e: Py.Expr, env: N.Env, x: Val, u: Sem.Store, stale: set<string>)
    requires Meets(sc, ls, e, env, x, u, stale)
    ensures Agrees(m, sc, ls, e, env, x, u)
    decreases e, 1
  {
    hide Agrees;
    Accepts(sc, ls, e);
    match e
    case Name(_) => LeafAgrees(m, sc, ls, e, env, x, u, stale);
    case IntConst(_) => LeafAgrees(m, sc, ls, e, env, x, u, stale);
    case BoolConst(_) => LeafAgrees(m, sc, ls, e, env, x, u, stale);
    case FloatConst(_) => LeafAgrees(m, sc, ls, e, env, x, u, stale);
    case UnaryExpr(_, _) => UnaryAgrees(m, sc, ls, e, env, x, u, stale);
    case BinExpr(_, _, _) => BinaryAgrees(m, sc, ls, e, env, x, u, stale);
    case Compare(_, _, _) => CompareAgrees(m, sc, ls, e, env, x, u, stale);
    case IfExp(_, _, _) => IfExpAgrees(m, sc, ls, e, env, x, u, stale);
    case MathCall(_, _, _) => MathAgrees(m, sc, ls, e, env, x, u, stale);
    case Call(_, _, _) => CallAgrees(m, sc, ls, e, env, x, u, stale);
  }
}
