/** Python on integers, which have no bound, and the words of `Numbers`: a run in which every expression fits is the same
    run in both. */
module PythonIntegers {
  import opened Wrappers
  import opened Ir
  import opened Machine
  import opened PySemantics
  import opened WordArithmetic
  import N = Numbers
  import Py = PyAst

  // ----- a run that stays in range -----

  /** Every statement Python runs is of the subset, and every expression it evaluates fits. */
  predicate RunFits(fuel: nat, ss: seq<Py.Stmt>, env: Env)
    decreases fuel, ss, 0
  {
    ss != [] ==>
      && StmtFits(fuel, ss[0], env)
      && (ExecStmt(fuel, ss[0], env).Normal? ==> RunFits(fuel, ss[1..], ExecStmt(fuel, ss[0], env).env))
  }

  predicate StmtFits(fuel: nat, s: Py.Stmt, env: Env)
    decreases fuel, s, 0
  {
    match s
    case Assign(ts, e) => |ts| == 1 && ts[0].Name? && Fits(e, env)
    case AugAssign(t, op, e) => t.Name? && Fits(Py.BinExpr(op, t, e), env)
    case Return(r) => r.Some? && Fits(r.value, env)
    case If(t, yes, no) =>
      Fits(t, env) && if Eval(t, env).value != 0 then RunFits(fuel, yes, env) else RunFits(fuel, no, env)
    case For(t, iter, body, orelse) =>
      && t.Name? && orelse == [] && iter.Call? && (forall a <- iter.args :: Fits(a, env)) && RangeOf(iter, env).Some?
      && var (lo, hi) := RangeOf(iter, env).value;
         ForFits(fuel, t.id, lo, hi, body, env)
    case While(t, body, orelse) => orelse == [] && WhileFits(fuel, t, body, env)
    case OtherStmt => false
    case _ => true
  }

  predicate ForFits(fuel: nat, v: string, i: int, hi: int, body: seq<Py.Stmt>, env: Env)
    decreases fuel, body, 1
  {
    fuel != 0 && i < hi ==>
      && RunFits(fuel, body, env[v := i])
      && match Exec(fuel, body, env[v := i])
         case Normal(env') => ForFits(fuel - 1, v, i + 1, hi, body, env')
         case Continued(env') => ForFits(fuel - 1, v, i + 1, hi, body, env')
         case _ => true
  }

  predicate WhileFits(fuel: nat, t: Py.Expr, body: seq<Py.Stmt>, env: Env)
    decreases fuel, body, 1
  {
    fuel != 0 ==>
      && Fits(t, env)
      && (Eval(t, env).value != 0 ==>
            && RunFits(fuel, body, env)
            && match Exec(fuel, body, env)
               case Normal(env') => WhileFits(fuel - 1, t, body, env')
               case Continued(env') => WhileFits(fuel - 1, t, body, env')
               case _ => true)
  }

  // ----- the same run -----

  predicate Words(env: Env, w: N.Env) { env.Keys == w.Keys && forall n <- env :: w[n].Int? && w[n].n == env[n] }

  lemma ArithIsWords(m: Fpu, op: Py.Operator, a: I64, b: I64)
    requires WordArith(op, a, b).Some?
    ensures N.Arith(m, op, N.Int(a), N.Int(b)) == N.Is(N.Int(WordArith(op, a, b).value))
  {
    hide Wrap, TruncDiv, TruncRem;
  }

  /** Evaluation in words is what `Numbers` says of integers. */
  lemma {:induction false} WordIsMeaning(m: Fpu, e: Py.Expr, env: Env, w: N.Env)
    requires Words(env, w) && WordEval(e, env).Some?
    ensures N.Meaning(m, e, w) == N.Is(N.Int(WordEval(e, env).value))
  {
    hide Wrap, WordArith, N.Arith;
    match e
    case UnaryExpr(_, a) => WordIsMeaning(m, a, env, w);
    case BinExpr(op, l, r) =>
      WordIsMeaning(m, l, env, w);
      WordIsMeaning(m, r, env, w);
      ArithIsWords(m, op, WordEval(l, env).value, WordEval(r, env).value);
    case Compare(l, _, rs) =>
      WordIsMeaning(m, l, env, w);
      WordIsMeaning(m, rs[0], env, w);
    case IfExp(t, y, n) =>
      WordIsMeaning(m, t, env, w);
      WordIsMeaning(m, y, env, w);
      WordIsMeaning(m, n, env, w);
    case Call(_, args, _) => WordIsMeaning(m, args[0], env, w);
    case _ =>
  }

  lemma FitsMeans(m: Fpu, e: Py.Expr, env: Env, w: N.Env)
    requires Words(env, w) && Fits(e, env)
    ensures FitsI64(Eval(e, env)) && N.Meaning(m, e, w) == N.Is(N.Int(Eval(e, env).value))
  {
    FitsWord(e, env);
    WordIsMeaning(m, e, env, w);
  }

  predicate SameRun(o: Outcome, q: N.Outcome) {
    match o
    case Normal(e) => q.Normal? && Words(e, q.env)
    case Broke(e) => q.Broke? && Words(e, q.env)
    case Continued(e) => q.Continued? && Words(e, q.env)
    case Returned(v) => q.Returned? && q.a.Int? && q.a.n == v
    case Timeout => q.Timeout?
    case Raised => false
  }

  /** A run of Python's that fits is the run in words, step for step. */
  lemma {:induction false} RunIsWords(m: Fpu, fuel: nat, ss: seq<Py.Stmt>, env: Env, w: N.Env)
    requires RunFits(fuel, ss, env) && Words(env, w)
    ensures SameRun(Exec(fuel, ss, env), N.Exec(m, fuel, ss, w))
    decreases fuel, ss, 0
  {
    hide ExecStmt, N.ExecStmt, StmtFits, Words;
    if ss != [] {
      StmtIsWords(m, fuel, ss[0], env, w);
      var o, q := ExecStmt(fuel, ss[0], env), N.ExecStmt(m, fuel, ss[0], w);
      if o.Normal? {
        RunIsWords(m, fuel, ss[1..], o.env, q.env);
      }
    }
  }

  lemma {:induction false} StmtIsWords(m: Fpu, fuel: nat, s: Py.Stmt, env: Env, w: N.Env)
    requires StmtFits(fuel, s, env) && Words(env, w)
    ensures SameRun(ExecStmt(fuel, s, env), N.ExecStmt(m, fuel, s, w))
    decreases fuel, s, 0
  {
    hide Exec, N.Exec, Eval, N.Meaning, Fits, RunFits, ForFits, WhileFits, ExecFor, N.ExecFor, ExecWhile, N.ExecWhile;
    match s
    case Assign(_, e) => FitsMeans(m, e, env, w);
    case AugAssign(t, op, e) =>
      FitsMeans(m, Py.BinExpr(op, t, e), env, w);
      AugRuns(fuel, s, env);
    case Return(r) => FitsMeans(m, r.value, env, w);
    case If(t, yes, no) =>
      FitsMeans(m, t, env, w);
      if Eval(t, env).value != 0 {
        RunIsWords(m, fuel, yes, env, w);
      } else {
        RunIsWords(m, fuel, no, env, w);
      }
    case For(t, iter, body, _) =>
      FitsMeans(m, iter.args[0], env, w);
      if |iter.args| == 2 {
        FitsMeans(m, iter.args[1], env, w);
      } else {
        ZeroMeans(m, w);
      }
      var (lo, hi) := RangeOf(iter, env).value;
      ForIsWords(m, fuel, t.id, lo, hi, body, env, w);
    case While(t, body, _) => WhileIsWords(m, fuel, t, body, env, w);
    case _ =>
  }

  lemma ZeroMeans(m: Fpu, w: N.Env)
    ensures N.Meaning(m, Py.IntConst(0), w) == N.Is(N.Int(0))
  {
  }

  /** An augmented assignment in Python is its plain form. */
  lemma AugRuns(fuel: nat, stmt: Py.Stmt, env: Env)
    requires stmt.AugAssign? && stmt.target.Name? && Eval(Py.BinExpr(stmt.op, stmt.target, stmt.value), env).Some?
    ensures ExecStmt(fuel, stmt, env) == Normal(env[stmt.target.id := Eval(Py.BinExpr(stmt.op, stmt.target, stmt.value), env).value])
  {
  }

  lemma {:induction false} ForIsWords(m: Fpu, fuel: nat, v: string, i: I64, hi: I64, body: seq<Py.Stmt>, env: Env, w: N.Env)
    requires ForFits(fuel, v, i, hi, body, env) && Words(env, w)
    ensures SameRun(ExecFor(fuel, v, i, hi, body, env), N.ExecFor(m, fuel, v, i, hi, body, w))
    decreases fuel, body, 1
  {
    hide Exec, N.Exec, RunFits;
    if fuel != 0 && i < hi {
      RunIsWords(m, fuel, body, env[v := i], w[v := N.Int(i)]);
      var o, q := Exec(fuel, body, env[v := i]), N.Exec(m, fuel, body, w[v := N.Int(i)]);
      if o.Normal? || o.Continued? {
        ForIsWords(m, fuel - 1, v, i + 1, hi, body, o.env, q.env);
      }
    }
  }

  lemma {:induction false} WhileIsWords(m: Fpu, fuel: nat, t: Py.Expr, body: seq<Py.Stmt>, env: Env, w: N.Env)
    requires WhileFits(fuel, t, body, env) && Words(env, w)
    ensures SameRun(ExecWhile(fuel, t, body, env), N.ExecWhile(m, fuel, t, body, w))
    decreases fuel, body, 1
  {
    hide Exec, N.Exec, RunFits, Fits, Eval, N.Meaning, Words;
    if fuel != 0 {
      FitsMeans(m, t, env, w);
      if Eval(t, env).value != 0 {
        RunIsWords(m, fuel, body, env, w);
        var o, q := Exec(fuel, body, env), N.Exec(m, fuel, body, w);
        if o.Normal? || o.Continued? {
          WhileIsWords(m, fuel - 1, t, body, o.env, q.env);
        }
      }
    }
  }
}
