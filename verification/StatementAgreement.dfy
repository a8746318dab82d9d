/** Walked functions do in the IR what `Numbers` says of their source: loops whose variables are taken from a range on the one
    side, a counter that is the local itself on the other. */
module StatementAgreement {
  import opened Wrappers
  import opened Ir
  import opened Machine
  import opened Walker
  import opened PythonAgreement
  import N = Numbers
  import WT = WalkerTypes
  import T = Terminated
  import Sem = Semantics
  import Py = PyAst

  // ----- the source side conditions -----

  /** Loop variables outside their loops: the local behind them is not what the source left in them. */
  function Stale(sc: Scope, inside: set<string>): set<string> { sc.counters - inside }

  predicate Readable(sc: Scope, inside: set<string>, e: Py.Expr) { N.Names(e) !! Stale(sc, inside) }

  /** The parameter is never assigned; a loop variable is not assigned in its loop and not read outside it. */
  predicate Disciplined(sc: Scope, inside: set<string>, ss: seq<Py.Stmt>)
    decreases ss, 0
  {
    forall i | 0 <= i < |ss| :: StmtDisciplined(sc, inside, ss[i])
  }

  predicate StmtDisciplined(sc: Scope, inside: set<string>, s: Py.Stmt)
    decreases s, 0
  {
    match s
    case Assign(ts, e) => Readable(sc, inside, e) && forall t <- ts :: Settable(sc, inside, t)
    case AugAssign(t, _, e) => Readable(sc, inside, t) && Readable(sc, inside, e) && Settable(sc, inside, t)
    case Return(r) => r.Some? ==> Readable(sc, inside, r.value)
    case If(t, yes, no) => Readable(sc, inside, t) && Disciplined(sc, inside, yes) && Disciplined(sc, inside, no)
    case For(t, iter, body, _) =>
      && t.Name? && t.id in Stale(sc, inside) && Settable(sc, inside, t)
      && (iter.Call? ==> forall a <- iter.args :: Readable(sc, inside, a))
      && Disciplined(sc, inside + {t.id}, body)
    case While(t, body, _) => Readable(sc, inside, t) && Disciplined(sc, inside, body)
    case _ => true
  }

  predicate Settable(sc: Scope, inside: set<string>, t: Py.Expr) {
    t.Name? ==> t.id != sc.param && t.id !in inside
  }

  function Counters(ss: seq<Py.Stmt>): set<string>
    decreases ss, 0
  {
    if ss == [] then {} else StmtCounters(ss[0]) + Counters(ss[1..])
  }

  function StmtCounters(s: Py.Stmt): set<string>
    decreases s, 0
  {
    match s
    case If(_, yes, no) => Counters(yes) + Counters(no)
    case For(t, _, body, _) => (if t.Name? then {t.id} else {}) + Counters(body)
    case While(_, body, _) => Counters(body)
    case _ => {}
  }

  // ----- what a run leaves alone -----

  predicate Keeps(o: N.Outcome, env: N.Env, names: set<string>) {
    match o
    case Normal(e) => SameOn(env, e, names)
    case Broke(e) => SameOn(env, e, names)
    case Continued(e) => SameOn(env, e, names)
    case _ => true
  }

  predicate SameOn(a: N.Env, b: N.Env, names: set<string>) {
    forall n <- names | n in a :: n in b && b[n] == a[n]
  }

  /** A disciplined body leaves the parameter and the variables of the loops around it alone. */
  lemma {:induction false} BodyKeeps(m: Fpu, fuel: nat, ss: seq<Py.Stmt>, env: N.Env, sc: Scope, inside: set<string>)
    requires Disciplined(sc, inside, ss)
    ensures Keeps(N.Exec(m, fuel, ss, env), env, inside + {sc.param})
    decreases fuel, ss, 0
  {
    hide N.ExecStmt, StmtDisciplined;
    if ss != [] {
      StmtKeeps(m, fuel, ss[0], env, sc, inside);
      var o := N.ExecStmt(m, fuel, ss[0], env);
      if o.Normal? {
        BodyKeeps(m, fuel, ss[1..], o.env, sc, inside);
      }
    }
  }

  lemma {:induction false} StmtKeeps(m: Fpu, fuel: nat, stmt: Py.Stmt, env: N.Env, sc: Scope, inside: set<string>)
    requires StmtDisciplined(sc, inside, stmt)
    ensures Keeps(N.ExecStmt(m, fuel, stmt, env), env, inside + {sc.param})
    decreases fuel, stmt, 0
  {
    hide N.Meaning, N.Exec, N.ExecFor, N.ExecWhile, Disciplined, Readable, N.Bound, N.Ends;
    match stmt
    case If(_, yes, no) =>
      BodyKeeps(m, fuel, yes, env, sc, inside);
      BodyKeeps(m, fuel, no, env, sc, inside);
    case For(t, iter, body, _) =>
      if N.IsRange(iter) {
        var lo, hi := N.Bound(m, N.Ends(iter).0, env), N.Bound(m, N.Ends(iter).1, env);
        if lo.Is? && lo.a.Int? && hi.Is? && hi.a.Int? {
          ForKeeps(m, fuel, t.id, lo.a.n, hi.a.n, body, env, sc, inside);
        }
      }
    case While(t, body, _) => WhileKeeps(m, fuel, t, body, env, sc, inside);
    case Assign(ts, _) =>
      if |ts| == 1 {
        assert ts[0] in ts;
      }
    case _ =>
  }

  lemma {:induction false} ForKeeps(m: Fpu, fuel: nat, v: string, i: I64, hi: I64, body: seq<Py.Stmt>, env: N.Env, sc: Scope, inside: set<string>)
    requires v != sc.param && v !in inside && Disciplined(sc, inside + {v}, body)
    ensures Keeps(N.ExecFor(m, fuel, v, i, hi, body, env), env, inside + {sc.param})
    decreases fuel, body, 1
  {
    hide N.Exec, Disciplined;
    if fuel != 0 && i < hi {
      BodyKeeps(m, fuel, body, env[v := N.Int(i)], sc, inside + {v});
      var o := N.Exec(m, fuel, body, env[v := N.Int(i)]);
      if o.Normal? || o.Continued? {
        ForKeeps(m, fuel - 1, v, i + 1, hi, body, o.env, sc, inside);
      }
    }
  }

  lemma {:induction false} WhileKeeps(m: Fpu, fuel: nat, t: Py.Expr, body: seq<Py.Stmt>, env: N.Env, sc: Scope, inside: set<string>)
    requires Disciplined(sc, inside, body)
    ensures Keeps(N.ExecWhile(m, fuel, t, body, env), env, inside + {sc.param})
    decreases fuel, body, 1
  {
    hide N.Exec, N.Meaning, Disciplined;
    if fuel != 0 {
      BodyKeeps(m, fuel, body, env, sc, inside);
      var o := N.Exec(m, fuel, body, env);
      if o.Normal? || o.Continued? {
        WhileKeeps(m, fuel - 1, t, body, o.env, sc, inside);
      }
    }
  }

  // ----- the walker's table -----

  /** The table after a typed list is the one its typing computes, and only grows. */
  lemma {:induction false} ListTable(f: Fn, s: State, ss: seq<Py.Stmt>, outT: Dtype, inLoop: bool)
    requires WalkList(f, s, ss).Ok? && Sem.BodyTypes(IrList(f, s, ss), s.locals, f.inT, outT, inLoop).Some?
    ensures Sem.BodyTypes(IrList(f, s, ss), s.locals, f.inT, outT, inLoop) == Some(WalkList(f, s, ss).value.2.locals)
    ensures Within(s.locals, WalkList(f, s, ss).value.2.locals)
    decreases ss, 0
  {
    hide WalkStmt, Sem.StmtTypes;
    if ss != [] {
      var (ir, term, s') := WalkStmt(f, s, ss[0]).value;
      var whole := IrList(f, s, ss);
      assert whole[0] == ir;
      StmtTable(f, s, ss[0], outT, inLoop);
      if term {
        assert whole[1..] == [];
      } else {
        WT.StmtTerminates(f, s, ss[0]);
        assert whole[1..] == IrList(f, s', ss[1..]);
        ListTable(f, s', ss[1..], outT, inLoop);
      }
    }
  }

  predicate StmtTyped(f: Fn, s: State, stmt: Py.Stmt, outT: Dtype, inLoop: bool)
    requires WalkStmt(f, s, stmt).Ok?
  {
    Sem.StmtTypes(WalkStmt(f, s, stmt).value.0, s.locals, f.inT, outT, inLoop).Some?
  }

  predicate ListTyped(f: Fn, s: State, ss: seq<Py.Stmt>, outT: Dtype, inLoop: bool)
    requires WalkList(f, s, ss).Ok?
  {
    Sem.BodyTypes(IrList(f, s, ss), s.locals, f.inT, outT, inLoop).Some?
  }

  lemma {:induction false} StmtTable(f: Fn, s: State, stmt: Py.Stmt, outT: Dtype, inLoop: bool)
    requires WalkStmt(f, s, stmt).Ok? && StmtTyped(f, s, stmt, outT, inLoop)
    ensures var (ir, _, s') := WalkStmt(f, s, stmt).value;
            Sem.StmtTypes(ir, s.locals, f.inT, outT, inLoop) == Some(s'.locals) && Within(s.locals, s'.locals)
    decreases stmt, 0
  {
    hide WalkExpr, WalkRange, WalkList, Sem.ExprType, Sem.IsTest, Sem.BodyTypes, Promote;
    match stmt
    case If(_, yes, no) =>
      ListTable(f, s, Py.StripDocstring(yes), outT, inLoop);
      if no != [] {
        ListTable(f, WalkBody(f, s, yes).value.2, Py.StripDocstring(no), outT, inLoop);
      } else {
        NoTypes(WalkBody(f, s, yes).value.2.locals, f.inT, outT, inLoop);
      }
    case For(t, _, body, _) =>
      ListTable(f, s.(locals := s.locals[t.id := I64]), Py.StripDocstring(body), outT, true);
    case While(_, body, _) => ListTable(f, s, Py.StripDocstring(body), outT, true);
    case AugAssign(t, _, _) => assert s.locals[t.id := s.locals[t.id]] == s.locals;
    case _ =>
  }

  lemma NoTypes(ts: Types, inT: Dtype, outT: Dtype, inLoop: bool)
    ensures Sem.BodyTypes([], ts, inT, outT, inLoop) == Some(ts)
  {
  }

  // ----- statements -----

  predicate Same(o: N.Outcome, q: Sem.Outcome, sc: Scope, x: Val, stale: set<string>) {
    match o
    case Normal(e) => q.Normal? && Linked(sc, e, x, q.s, stale)
    case Broke(e) => q.Broke? && Linked(sc, e, x, q.s, stale)
    case Continued(e) => q.Continued? && Linked(sc, e, x, q.s, stale)
    case Returned(a) => q.Returned? && q.v == ValOf(a)
    case Trapped => q.Trapped?
    case Timeout => q.Timeout?
    case Unbound => true
    case Unsupported => false
  }

  /** The walker accepts the list, its IR is typed with dtypes of the final table, and it is disciplined. */
  predicate ListOk(sc: Scope, s: State, ss: seq<Py.Stmt>, inside: set<string>, outT: Dtype, inLoop: bool) {
    && WalkList(FnOf(sc), s, ss).Ok? && ListTyped(FnOf(sc), s, ss, outT, inLoop)
    && Within(WalkList(FnOf(sc), s, ss).value.2.locals, sc.types) && Disciplined(sc, inside, ss)
  }

  predicate StmtOk(sc: Scope, s: State, stmt: Py.Stmt, inside: set<string>, outT: Dtype, inLoop: bool) {
    && WalkStmt(FnOf(sc), s, stmt).Ok? && StmtTyped(FnOf(sc), s, stmt, outT, inLoop)
    && Within(WalkStmt(FnOf(sc), s, stmt).value.2.locals, sc.types) && StmtDisciplined(sc, inside, stmt)
  }

  lemma Transitive(a: Types, b: Types, c: Types)
    requires Within(a, b) && Within(b, c)
    ensures Within(a, c)
  {
  }

  function IrList(f: Fn, s: State, ss: seq<Py.Stmt>): seq<Stmt>
    requires WalkList(f, s, ss).Ok?
  {
    WalkList(f, s, ss).value.0
  }

  /** The head and the rest of a list. */
  lemma ListParts(sc: Scope, s: State, ss: seq<Py.Stmt>, inside: set<string>, outT: Dtype, inLoop: bool)
    requires ListOk(sc, s, ss, inside, outT, inLoop) && ss != []
    ensures StmtOk(sc, s, ss[0], inside, outT, inLoop)
    ensures var (ir, term, s') := WalkStmt(FnOf(sc), s, ss[0]).value;
            if term then IrList(FnOf(sc), s, ss) == [ir]
            else ListOk(sc, s', ss[1..], inside, outT, inLoop) && IrList(FnOf(sc), s, ss) == [ir] + IrList(FnOf(sc), s', ss[1..])
  {
    hide WalkStmt, Sem.StmtTypes, StmtDisciplined, Within;
    var f := FnOf(sc);
    var (ir, term, s') := WalkStmt(f, s, ss[0]).value;
    var whole := IrList(f, s, ss);
    assert whole[0] == ir;
    StmtTable(f, s, ss[0], outT, inLoop);
    if !term {
      WT.StmtTerminates(f, s, ss[0]);
      assert whole[1..] == IrList(f, s', ss[1..]);
      ListTable(f, s', ss[1..], outT, inLoop);
      Transitive(s'.locals, WalkList(f, s, ss).value.2.locals, sc.types);
    }
  }

  /** A walked list does what the source means, step for step: same outcome, same fuel, same variables. */
  lemma {:induction false} ListAgrees(m: Fpu, fuel: nat, sc: Scope, s: State, ss: seq<Py.Stmt>, inside: set<string>, outT: Dtype, inLoop: bool,
                                      env: N.Env, x: Val, u: Sem.Store)
    requires ListOk(sc, s, ss, inside, outT, inLoop) && Linked(sc, env, x, u, Stale(sc, inside))
    ensures Same(N.Exec(m, fuel, ss, env), Sem.Exec(m, fuel, IrList(FnOf(sc), s, ss), x, u), sc, x, Stale(sc, inside))
    decreases fuel, ss, 0
  {
    hide WalkStmt, N.ExecStmt, Sem.ExecStmt, StmtOk, Linked, Stale, ListOk;
    assert WalkList(FnOf(sc), s, ss).Ok? by { ListWalks(sc, s, ss, inside, outT, inLoop); }
    if ss != [] {
      ListParts(sc, s, ss, inside, outT, inLoop);
      StmtAgrees(m, fuel, sc, s, ss[0], inside, outT, inLoop, env, x, u);
      var (ir, term, s') := WalkStmt(FnOf(sc), s, ss[0]).value;
      var q := Sem.ExecStmt(m, fuel, ir, x, u);
      if term {
        T.WalkedStmtEnds(FnOf(sc), s, ss[0]);
        T.StmtNeverNormal(m, fuel, ir, x, u);
        assert [ir][0] == ir;
      } else {
        var rest := IrList(FnOf(sc), s', ss[1..]);
        assert ([ir] + rest)[0] == ir && ([ir] + rest)[1..] == rest;
        var o := N.ExecStmt(m, fuel, ss[0], env);
        if o.Normal? {
          ListAgrees(m, fuel, sc, s', ss[1..], inside, outT, inLoop, o.env, x, q.s);
        }
      }
    }
  }

  lemma ListWalks(sc: Scope, s: State, ss: seq<Py.Stmt>, inside: set<string>, outT: Dtype, inLoop: bool)
    requires ListOk(sc, s, ss, inside, outT, inLoop)
    ensures WalkList(FnOf(sc), s, ss).Ok?
  {
  }

  /** A docstring does nothing. */
  lemma StripRuns(m: Fpu, fuel: nat, ss: seq<Py.Stmt>, env: N.Env)
    ensures N.Exec(m, fuel, Py.StripDocstring(ss), env) == N.Exec(m, fuel, ss, env)
  {
    if ss != [] && ss[0].StringExpr? {
      assert N.ExecStmt(m, fuel, ss[0], env) == N.Normal(env);
    }
  }

  lemma StripDisciplined(sc: Scope, inside: set<string>, ss: seq<Py.Stmt>)
    requires Disciplined(sc, inside, ss)
    ensures Disciplined(sc, inside, Py.StripDocstring(ss))
  {
    hide StmtDisciplined;
  }

  /** The same for a body, which may begin with a docstring. */
  predicate BodyOk(sc: Scope, s: State, ss: seq<Py.Stmt>, inside: set<string>, outT: Dtype, inLoop: bool) {
    ListOk(sc, s, Py.StripDocstring(ss), inside, outT, inLoop)
  }

  function IrBody(f: Fn, s: State, ss: seq<Py.Stmt>): seq<Stmt>
    requires WalkBody(f, s, ss).Ok?
  {
    WalkBody(f, s, ss).value.0
  }

  lemma {:induction false} BodyAgrees(m: Fpu, fuel: nat, sc: Scope, s: State, ss: seq<Py.Stmt>, inside: set<string>, outT: Dtype, inLoop: bool,
                                      env: N.Env, x: Val, u: Sem.Store)
    requires BodyOk(sc, s, ss, inside, outT, inLoop) && Linked(sc, env, x, u, Stale(sc, inside))
    ensures WalkBody(FnOf(sc), s, ss).Ok?
    ensures Same(N.Exec(m, fuel, ss, env), Sem.Exec(m, fuel, IrBody(FnOf(sc), s, ss), x, u), sc, x, Stale(sc, inside))
    decreases fuel, ss, 1
  {
    hide N.Exec, Sem.Exec, WalkList, Disciplined, Linked, Stale, ListTyped;
    StripRuns(m, fuel, ss, env);
    ListAgrees(m, fuel, sc, s, Py.StripDocstring(ss), inside, outT, inLoop, env, x, u);
  }

  predicate StmtResult(m: Fpu, fuel: nat, sc: Scope, s: State, stmt: Py.Stmt, inside: set<string>, env: N.Env, x: Val, u: Sem.Store)
    requires WalkStmt(FnOf(sc), s, stmt).Ok?
  {
    Same(N.ExecStmt(m, fuel, stmt, env), Sem.ExecStmt(m, fuel, WalkStmt(FnOf(sc), s, stmt).value.0, x, u), sc, x, Stale(sc, inside))
  }

  lemma {:induction false} StmtAgrees(m: Fpu, fuel: nat, sc: Scope, s: State, stmt: Py.Stmt, inside: set<string>, outT: Dtype, inLoop: bool,
                                      env: N.Env, x: Val, u: Sem.Store)
    requires StmtOk(sc, s, stmt, inside, outT, inLoop) && Linked(sc, env, x, u, Stale(sc, inside))
    ensures StmtResult(m, fuel, sc, s, stmt, inside, env, x, u)
    decreases fuel, stmt, 1
  {
    match stmt
    case Assign(_, _) => AssignAgrees(m, fuel, sc, s, stmt, inside, outT, inLoop, env, x, u);
    case AugAssign(_, _, _) => AugAgrees(m, fuel, sc, s, stmt, inside, outT, inLoop, env, x, u);
    case Return(_) => ReturnAgrees(m, fuel, sc, s, stmt, inside, outT, inLoop, env, x, u);
    case If(_, _, _) => IfAgrees(m, fuel, sc, s, stmt, inside, outT, inLoop, env, x, u);
    case For(_, _, _, _) => ForStmtAgrees(m, fuel, sc, s, stmt, inside, outT, inLoop, env, x, u);
    case While(_, _, _) => WhileStmtAgrees(m, fuel, sc, s, stmt, inside, outT, inLoop, env, x, u);
    case _ =>
  }

  /** An expression of a statement, read where it may be. */
  lemma Reads(m: Fpu, sc: Scope, s: State, e: Py.Expr, inside: set<string>, env: N.Env, x: Val, u: Sem.Store)
    requires WalkExpr(FnOf(sc), s.locals, e).Ok? && Within(s.locals, sc.types) && Readable(sc, inside, e)
    requires Linked(sc, env, x, u, Stale(sc, inside))
    ensures Agrees(m, sc, s.locals, e, env, x, u)
  {
    hide WalkExpr, Within, Linked, Agrees;
    MeaningAgrees(m, sc, s.locals, e, env, x, u, Stale(sc, inside));
  }

  predicate Verdict(t: Option<bool>, a: N.Found, bound: bool) {
    match a
    case Is(n) => n.Int? && t == Some(n.n != 0)
    case Traps => t == None
    case Unknown => !bound
  }

  lemma ReadsTest(m: Fpu, sc: Scope, s: State, e: Py.Expr, inside: set<string>, env: N.Env, x: Val, u: Sem.Store)
    requires WalkExpr(FnOf(sc), s.locals, e).Ok? && Within(s.locals, sc.types) && Readable(sc, inside, e)
    requires Linked(sc, env, x, u, Stale(sc, inside)) && Testable(sc, s.locals, e)
    ensures Verdict(Sem.EvalTest(m, IrOf(sc, s.locals, e), x, u), N.Meaning(m, e, env), N.Names(e) <= env.Keys)
  {
    hide WalkExpr, Within, Linked, Sem.Eval, N.Meaning, N.Names, Readable, Sem.ExprType, Sem.IsTest;
    Reads(m, sc, s, e, inside, env, x, u);
  }

  lemma AssignAgrees(m: Fpu, fuel: nat, sc: Scope, s: State, stmt: Py.Stmt, inside: set<string>, outT: Dtype, inLoop: bool,
                     env: N.Env, x: Val, u: Sem.Store)
    requires stmt.Assign? && StmtOk(sc, s, stmt, inside, outT, inLoop) && Linked(sc, env, x, u, Stale(sc, inside))
    ensures StmtResult(m, fuel, sc, s, stmt, inside, env, x, u)
  {
    hide WalkExpr, N.Meaning, Sem.Eval, Sem.ExprType, Sem.IsTest, Readable, Stale, N.Names;
    StmtTable(FnOf(sc), s, stmt, outT, inLoop);
    Transitive(s.locals, WalkStmt(FnOf(sc), s, stmt).value.2.locals, sc.types);
    Reads(m, sc, s, stmt.value, inside, env, x, u);
    assert stmt.targets[0] in stmt.targets;
  }

  lemma AugAgrees(m: Fpu, fuel: nat, sc: Scope, s: State, stmt: Py.Stmt, inside: set<string>, outT: Dtype, inLoop: bool,
                  env: N.Env, x: Val, u: Sem.Store)
    requires stmt.AugAssign? && StmtOk(sc, s, stmt, inside, outT, inLoop) && Linked(sc, env, x, u, Stale(sc, inside))
    ensures StmtResult(m, fuel, sc, s, stmt, inside, env, x, u)
  {
    hide WalkExpr, N.Meaning, Sem.Eval, Sem.ExprType, Sem.IsTest, Stale, N.Names;
    var plain := Py.BinExpr(stmt.op, stmt.target, stmt.value);
    StmtTable(FnOf(sc), s, stmt, outT, inLoop);
    Transitive(s.locals, WalkStmt(FnOf(sc), s, stmt).value.2.locals, sc.types);
    AugPlain(sc, s, stmt, outT, inLoop);
    PlainReadable(sc, inside, stmt);
    Reads(m, sc, s, plain, inside, env, x, u);
    hide WalkStmt, Readable, StmtTyped;
  }

  lemma PlainReadable(sc: Scope, inside: set<string>, stmt: Py.Stmt)
    requires stmt.AugAssign? && StmtDisciplined(sc, inside, stmt)
    ensures Readable(sc, inside, Py.BinExpr(stmt.op, stmt.target, stmt.value))
  {
    assert N.Names(Py.BinExpr(stmt.op, stmt.target, stmt.value)) == N.Names(stmt.target) + N.Names(stmt.value);
  }

  /** A typed augmented assignment is walked to the assignment of its plain form. */
  lemma AugPlain(sc: Scope, s: State, stmt: Py.Stmt, outT: Dtype, inLoop: bool)
    requires stmt.AugAssign? && WalkStmt(FnOf(sc), s, stmt).Ok? && StmtTyped(FnOf(sc), s, stmt, outT, inLoop)
    ensures stmt.target.Name? && stmt.target.id in s.locals
    ensures var plain := Py.BinExpr(stmt.op, stmt.target, stmt.value);
            && WalkExpr(FnOf(sc), s.locals, plain).Ok? && IsTyped(sc, s.locals, plain)
            && DtypeOf(sc, s.locals, plain) == s.locals[stmt.target.id]
            && WalkStmt(FnOf(sc), s, stmt).value == (Assign(stmt.target.id, s.locals[stmt.target.id], IrOf(sc, s.locals, plain)), false, s)
  {
    hide Sem.ExprType;
    PlainTyped(sc, s, stmt, outT, inLoop);
  }

  lemma PlainTyped(sc: Scope, s: State, stmt: Py.Stmt, outT: Dtype, inLoop: bool)
    requires stmt.AugAssign? && WalkStmt(FnOf(sc), s, stmt).Ok? && StmtTyped(FnOf(sc), s, stmt, outT, inLoop)
    ensures var ir := WalkStmt(FnOf(sc), s, stmt).value.0;
            && ir.Assign? && Sem.ExprType(ir.value, s.locals, sc.inT) == Some(ir.dtype)
            && ir.value.Binary? && Sem.HasArith(ir.value.bop, ir.dtype)
  {
    hide WalkExpr, Promote;
  }

  lemma ReturnAgrees(m: Fpu, fuel: nat, sc: Scope, s: State, stmt: Py.Stmt, inside: set<string>, outT: Dtype, inLoop: bool,
                     env: N.Env, x: Val, u: Sem.Store)
    requires stmt.Return? && StmtOk(sc, s, stmt, inside, outT, inLoop) && Linked(sc, env, x, u, Stale(sc, inside))
    ensures StmtResult(m, fuel, sc, s, stmt, inside, env, x, u)
  {
    hide WalkExpr, N.Meaning, Sem.Eval, Sem.ExprType, Sem.IsTest, Readable, Stale, Linked, N.Names;
    StmtTable(FnOf(sc), s, stmt, outT, inLoop);
    Transitive(s.locals, WalkStmt(FnOf(sc), s, stmt).value.2.locals, sc.types);
    Reads(m, sc, s, stmt.result.value, inside, env, x, u);
  }

  lemma {:induction false} IfAgrees(m: Fpu, fuel: nat, sc: Scope, s: State, stmt: Py.Stmt, inside: set<string>, outT: Dtype, inLoop: bool,
                                    env: N.Env, x: Val, u: Sem.Store)
    requires stmt.If? && StmtOk(sc, s, stmt, inside, outT, inLoop) && Linked(sc, env, x, u, Stale(sc, inside))
    ensures StmtResult(m, fuel, sc, s, stmt, inside, env, x, u)
    decreases fuel, stmt, 0
  {
    StmtTable(FnOf(sc), s, stmt, outT, inLoop);
    Transitive(s.locals, WalkStmt(FnOf(sc), s, stmt).value.2.locals, sc.types);
    IfParts(sc, s, stmt, inside, outT, inLoop);
    hide WalkExpr, WalkList, N.Meaning, Sem.Eval, Sem.ExprType, Sem.IsTest, Readable, Stale, Linked, N.Exec, Sem.Exec, Disciplined, ListOk, N.Names;
    ReadsTest(m, sc, s, stmt.test, inside, env, x, u);
    hide Sem.EvalTest;
    var c := N.Meaning(m, stmt.test, env);
    if c.Is? && c.a.Int? {
      if c.a.n != 0 {
        BodyAgrees(m, fuel, sc, s, stmt.body, inside, outT, inLoop, env, x, u);
      } else if stmt.orelse == [] {
        NothingRuns(m, fuel, env, x, u);
      } else {
        BodyAgrees(m, fuel, sc, WalkBody(FnOf(sc), s, stmt.body).value.2, stmt.orelse, inside, outT, inLoop, env, x, u);
      }
    }
  }

  /** The test and the arms of a conditional statement. */
  lemma IfParts(sc: Scope, s: State, stmt: Py.Stmt, inside: set<string>, outT: Dtype, inLoop: bool)
    requires stmt.If? && StmtOk(sc, s, stmt, inside, outT, inLoop)
    ensures WalkExpr(FnOf(sc), s.locals, stmt.test).Ok? && Testable(sc, s.locals, stmt.test)
    ensures BodyOk(sc, s, stmt.body, inside, outT, inLoop) && WalkBody(FnOf(sc), s, stmt.body).Ok?
    ensures stmt.orelse != [] ==> BodyOk(sc, WalkBody(FnOf(sc), s, stmt.body).value.2, stmt.orelse, inside, outT, inLoop)
  {
    hide WalkExpr, WalkList, Sem.ExprType, Sem.IsTest, Sem.BodyTypes, Disciplined, Within, Readable;
    var f := FnOf(sc);
    StripDisciplined(sc, inside, stmt.body);
    StripDisciplined(sc, inside, stmt.orelse);
    var s1 := WalkBody(f, s, stmt.body).value.2;
    ListTable(f, s, Py.StripDocstring(stmt.body), outT, inLoop);
    IfWalks(f, s, stmt, outT, inLoop);
    if stmt.orelse != [] {
      ListTable(f, s1, Py.StripDocstring(stmt.orelse), outT, inLoop);
      Transitive(s1.locals, WalkBody(f, s1, stmt.orelse).value.2.locals, sc.types);
    }
  }

  lemma IfWalks(f: Fn, s: State, stmt: Py.Stmt, outT: Dtype, inLoop: bool)
    requires stmt.If? && WalkStmt(f, s, stmt).Ok? && StmtTyped(f, s, stmt, outT, inLoop)
    ensures WalkBody(f, s, stmt.body).Ok? && ListTyped(f, s, Py.StripDocstring(stmt.body), outT, inLoop)
    ensures var s1 := WalkBody(f, s, stmt.body).value.2;
            stmt.orelse != [] ==>
              && WalkBody(f, s1, stmt.orelse).Ok? && ListTyped(f, s1, Py.StripDocstring(stmt.orelse), outT, inLoop)
              && WalkBody(f, s1, stmt.orelse).value.2 == WalkStmt(f, s, stmt).value.2
  {
    hide WalkExpr, WalkList, Sem.ExprType, Sem.IsTest, Sem.BodyTypes;
    var (a, _, s1) := WalkBody(f, s, stmt.body).value;
    ListTable(f, s, Py.StripDocstring(stmt.body), outT, inLoop);
    if stmt.orelse != [] {
      assert WalkBody(f, s1, stmt.orelse).Ok?;
    }
  }

  lemma NothingRuns(m: Fpu, fuel: nat, env: N.Env, x: Val, u: Sem.Store)
    ensures N.Exec(m, fuel, [], env) == N.Normal(env) && Sem.Exec(m, fuel, [], x, u) == Sem.Normal(u)
  {
  }

  lemma {:induction false} WhileStmtAgrees(m: Fpu, fuel: nat, sc: Scope, s: State, stmt: Py.Stmt, inside: set<string>, outT: Dtype, inLoop: bool,
                                           env: N.Env, x: Val, u: Sem.Store)
    requires stmt.While? && StmtOk(sc, s, stmt, inside, outT, inLoop) && Linked(sc, env, x, u, Stale(sc, inside))
    ensures StmtResult(m, fuel, sc, s, stmt, inside, env, x, u)
    decreases fuel, stmt, 0
  {
    StmtTable(FnOf(sc), s, stmt, outT, inLoop);
    Transitive(s.locals, WalkStmt(FnOf(sc), s, stmt).value.2.locals, sc.types);
    StripDisciplined(sc, inside, stmt.body);
    hide WalkExpr, WalkList, Readable, Stale, Linked, N.ExecWhile, Sem.ExecWhile, Disciplined, Within, Sem.ExprType, Sem.IsTest, Sem.BodyTypes;
    WhileAgrees(m, fuel, sc, s, stmt.test, stmt.body, inside, outT, env, x, u);
  }

  lemma BodyWalks(sc: Scope, s: State, ss: seq<Py.Stmt>, inside: set<string>, outT: Dtype)
    requires BodyOk(sc, s, ss, inside, outT, true)
    ensures WalkBody(FnOf(sc), s, ss).Ok?
  {
  }

  /** One round of a while loop, if its body and the rest of the rounds agree. */
  lemma WhileRound(m: Fpu, fuel: nat, sc: Scope, t: Py.Expr, ir: Expr, body: seq<Py.Stmt>, irs: seq<Stmt>, env: N.Env, x: Val, u: Sem.Store, stale: set<string>)
    requires fuel > 0 && Verdict(Sem.EvalTest(m, ir, x, u), N.Meaning(m, t, env), N.Names(t) <= env.Keys) && Linked(sc, env, x, u, stale)
    requires N.Meaning(m, t, env).Is? && N.Holds(N.Meaning(m, t, env).a) == Some(true) ==>
               var o, q := N.Exec(m, fuel, body, env), Sem.Exec(m, fuel, irs, x, u);
               && Same(o, q, sc, x, stale)
               && (o.Normal? || o.Continued? ==>
                     Same(N.ExecWhile(m, fuel - 1, t, body, o.env), Sem.ExecWhile(m, fuel - 1, ir, irs, x, q.s), sc, x, stale))
    ensures Same(N.ExecWhile(m, fuel, t, body, env), Sem.ExecWhile(m, fuel, ir, irs, x, u), sc, x, stale)
  {
    hide Linked, N.Meaning, Sem.EvalTest, N.Exec, Sem.Exec;
  }

  lemma {:induction false} WhileAgrees(m: Fpu, fuel: nat, sc: Scope, s: State, t: Py.Expr, body: seq<Py.Stmt>, inside: set<string>, outT: Dtype,
                                       env: N.Env, x: Val, u: Sem.Store)
    requires BodyOk(sc, s, body, inside, outT, true) && WalkExpr(FnOf(sc), s.locals, t).Ok? && Testable(sc, s.locals, t)
    requires Within(s.locals, sc.types) && Readable(sc, inside, t) && Linked(sc, env, x, u, Stale(sc, inside))
    ensures WalkBody(FnOf(sc), s, body).Ok?
    ensures Same(N.ExecWhile(m, fuel, t, body, env),
                 Sem.ExecWhile(m, fuel, IrOf(sc, s.locals, t), IrBody(FnOf(sc), s, body), x, u), sc, x, Stale(sc, inside))
    decreases fuel, body, 2
  {
    BodyWalks(sc, s, body, inside, outT);
    hide WalkBody, BodyOk, WalkExpr, Readable, Stale, Linked, N.Exec, Sem.Exec, N.Meaning, IrBody, Within, Sem.EvalTest, IrOf, Testable, Verdict;
    if fuel != 0 {
      hide N.ExecWhile, Sem.ExecWhile;
      ReadsTest(m, sc, s, t, inside, env, x, u);
      var c := N.Meaning(m, t, env);
      if c.Is? && N.Holds(c.a) == Some(true) {
        BodyAgrees(m, fuel, sc, s, body, inside, outT, true, env, x, u);
        var o, q := N.Exec(m, fuel, body, env), Sem.Exec(m, fuel, IrBody(FnOf(sc), s, body), x, u);
        if o.Normal? || o.Continued? {
          WhileAgrees(m, fuel - 1, sc, s, t, body, inside, outT, o.env, x, q.s);
        }
      }
      WhileRound(m, fuel, sc, t, IrOf(sc, s.locals, t), body, IrBody(FnOf(sc), s, body), env, x, u, Stale(sc, inside));
    }
  }

  /** A counted loop from its bounds on. */
  lemma ForStart(m: Fpu, fuel: nat, sc: Scope, stmt: Py.Stmt, a: Expr, b: Expr, irs: seq<Stmt>, env: N.Env, x: Val, u: Sem.Store, stale: set<string>)
    requires stmt.For? && stmt.target.Name? && stmt.orelse == [] && N.IsRange(stmt.iter)
    requires var (from, to) := N.Ends(stmt.iter);
             var lo, hi := N.Bound(m, from, env), N.Bound(m, to, env);
             && GivesInt(Sem.Eval(m, a, x, u), lo, N.Names(from) <= env.Keys)
             && GivesInt(Sem.Eval(m, b, x, u), hi, N.Names(to) <= env.Keys)
             && (lo.Is? && hi.Is? ==>
                   Same(N.ExecFor(m, fuel, stmt.target.id, lo.a.n, hi.a.n, stmt.body, env),
                        Sem.ExecFor(m, fuel, stmt.target.id, IntV(hi.a.n), irs, x, u[stmt.target.id := IntV(lo.a.n)]), sc, x, stale))
    ensures Same(N.ExecStmt(m, fuel, stmt, env), Sem.ExecStmt(m, fuel, ForRange(stmt.target.id, a, b, irs), x, u), sc, x, stale)
  {
    hide N.Ends, N.Bound, N.Names, N.ExecFor, Sem.ExecFor, Sem.Eval, Same;
    hide Linked;
    ForFails(m, fuel, sc, stmt, a, b, irs, env, x, u, stale);
  }

  lemma ForFails(m: Fpu, fuel: nat, sc: Scope, stmt: Py.Stmt, a: Expr, b: Expr, irs: seq<Stmt>, env: N.Env, x: Val, u: Sem.Store, stale: set<string>)
    requires stmt.For? && stmt.target.Name? && stmt.orelse == [] && N.IsRange(stmt.iter)
    requires var (from, to) := N.Ends(stmt.iter);
             var lo, hi := N.Bound(m, from, env), N.Bound(m, to, env);
             && GivesInt(Sem.Eval(m, a, x, u), lo, N.Names(from) <= env.Keys)
             && GivesInt(Sem.Eval(m, b, x, u), hi, N.Names(to) <= env.Keys)
    ensures var (from, to) := N.Ends(stmt.iter);
            !N.Bound(m, from, env).Is? || !N.Bound(m, to, env).Is? ==>
              Same(N.ExecStmt(m, fuel, stmt, env), Sem.ExecStmt(m, fuel, ForRange(stmt.target.id, a, b, irs), x, u), sc, x, stale)
  {
    hide N.Ends, N.Bound, N.Names, N.ExecFor, Sem.ExecFor, Sem.Eval, Linked;
  }

  lemma {:induction false} ForStmtAgrees(m: Fpu, fuel: nat, sc: Scope, s: State, stmt: Py.Stmt, inside: set<string>, outT: Dtype, inLoop: bool,
                                         env: N.Env, x: Val, u: Sem.Store)
    requires stmt.For? && StmtOk(sc, s, stmt, inside, outT, inLoop) && Linked(sc, env, x, u, Stale(sc, inside))
    ensures StmtResult(m, fuel, sc, s, stmt, inside, env, x, u)
    decreases fuel, stmt, 0
  {
    ForParts(sc, s, stmt, inside, outT, inLoop);
    RangeAgrees(m, sc, s, stmt.iter, inside, env, x, u);
    hide WalkExpr, WalkList, Readable, Stale, N.ExecFor, Sem.ExecFor, N.ExecStmt, Sem.ExecStmt, Disciplined, N.Ends, N.Bound, WalkRange, Sem.Eval, Sem.BodyTypes, Sem.ExprType, Within, ListOk, N.Names, Same;
    var v := stmt.target.id;
    var (from, to) := N.Ends(stmt.iter);
    var lo, hi := N.Bound(m, from, env), N.Bound(m, to, env);
    var s0 := s.(locals := s.locals[v := I64]);
    if lo.Is? && hi.Is? {
      CounterLinked(sc, env, x, u, Stale(sc, inside), v, lo.a.n);
      ForAgrees(m, fuel, sc, s0, v, lo.a.n, hi.a.n, stmt.body, inside, outT, env, x, u[v := IntV(lo.a.n)]);
    }
    var (a, b) := WalkRange(FnOf(sc), s.locals, stmt.iter).value;
    ForStart(m, fuel, sc, stmt, a, b, IrBody(FnOf(sc), s0, stmt.body), env, x, u, Stale(sc, inside));
  }

  lemma ForParts(sc: Scope, s: State, stmt: Py.Stmt, inside: set<string>, outT: Dtype, inLoop: bool)
    requires stmt.For? && StmtOk(sc, s, stmt, inside, outT, inLoop)
    ensures stmt.target.Name? && stmt.orelse == [] && WalkRange(FnOf(sc), s.locals, stmt.iter).Ok? && Within(s.locals, sc.types)
    ensures var (a, b) := WalkRange(FnOf(sc), s.locals, stmt.iter).value;
            Sem.ExprType(a, s.locals, sc.inT) == Some(I64) == Sem.ExprType(b, s.locals, sc.inT)
    ensures var v := stmt.target.id;
            var s0 := s.(locals := s.locals[v := I64]);
            && v in sc.types && sc.types[v] == I64 && v in Stale(sc, inside) && v != sc.param && Disciplined(sc, inside + {v}, stmt.body)
            && (stmt.iter.Call? ==> forall a <- stmt.iter.args :: Readable(sc, inside, a))
            && BodyOk(sc, s0, stmt.body, inside + {v}, outT, true) && WalkBody(FnOf(sc), s0, stmt.body).Ok?
            && WalkStmt(FnOf(sc), s, stmt).value.0 ==
               ForRange(v, WalkRange(FnOf(sc), s.locals, stmt.iter).value.0, WalkRange(FnOf(sc), s.locals, stmt.iter).value.1,
                        IrBody(FnOf(sc), s0, stmt.body))
  {
    hide WalkExpr, WalkList, WalkRange, Sem.ExprType, Sem.BodyTypes, Disciplined, Readable;
    StmtTable(FnOf(sc), s, stmt, outT, inLoop);
    Transitive(s.locals, WalkStmt(FnOf(sc), s, stmt).value.2.locals, sc.types);
    var v := stmt.target.id;
    var s0 := s.(locals := s.locals[v := I64]);
    StripDisciplined(sc, inside + {v}, stmt.body);
    ListTable(FnOf(sc), s0, Py.StripDocstring(stmt.body), outT, true);
    assert v in s0.locals;
  }

  lemma CounterLinked(sc: Scope, env: N.Env, x: Val, u: Sem.Store, stale: set<string>, v: string, i: I64)
    requires Linked(sc, env, x, u, stale) && v in stale
    ensures Linked(sc, env, x, u[v := IntV(i)], stale)
  {
  }

  /** The bounds of a counted loop. */
  lemma RangeAgrees(m: Fpu, sc: Scope, s: State, e: Py.Expr, inside: set<string>, env: N.Env, x: Val, u: Sem.Store)
    requires WalkRange(FnOf(sc), s.locals, e).Ok? && Within(s.locals, sc.types)
    requires var (a, b) := WalkRange(FnOf(sc), s.locals, e).value;
             Sem.ExprType(a, s.locals, sc.inT) == Some(I64) == Sem.ExprType(b, s.locals, sc.inT)
    requires (e.Call? ==> forall a <- e.args :: Readable(sc, inside, a)) && Linked(sc, env, x, u, Stale(sc, inside))
    ensures N.IsRange(e)
    ensures var (a, b) := WalkRange(FnOf(sc), s.locals, e).value;
            var (from, to) := N.Ends(e);
            && GivesInt(Sem.Eval(m, a, x, u), N.Bound(m, from, env), N.Names(from) <= env.Keys)
            && GivesInt(Sem.Eval(m, b, x, u), N.Bound(m, to, env), N.Names(to) <= env.Keys)
  {
    hide WalkExpr, Readable, Stale, N.Meaning, N.Bound, Within, Linked, N.Names, Sem.Eval, Sem.ExprType;
    BoundAgrees(m, sc, s, e.args[0], inside, env, x, u);
    if |e.args| == 2 {
      BoundAgrees(m, sc, s, e.args[1], inside, env, x, u);
    } else {
      ZeroAgrees(m, env, x, u);
    }
  }

  lemma ZeroAgrees(m: Fpu, env: N.Env, x: Val, u: Sem.Store)
    ensures Sem.Eval(m, ConstI64(0), x, u) == Some(IntV(0)) && N.Bound(m, Py.IntConst(0), env) == N.Is(N.Int(0))
  {
  }

  predicate GivesInt(v: Option<Val>, a: N.Found, bound: bool) {
    match a
    case Is(n) => n.Int? && v == Some(IntV(n.n))
    case Traps => v == None
    case Unknown => !bound
  }

  lemma BoundAgrees(m: Fpu, sc: Scope, s: State, e: Py.Expr, inside: set<string>, env: N.Env, x: Val, u: Sem.Store)
    requires WalkExpr(FnOf(sc), s.locals, e).Ok? && Within(s.locals, sc.types) && Readable(sc, inside, e)
    requires Linked(sc, env, x, u, Stale(sc, inside))
    requires Sem.ExprType(AsI64(IrOf(sc, s.locals, e), DtypeOf(sc, s.locals, e)), s.locals, sc.inT) == Some(I64)
    ensures GivesInt(Sem.Eval(m, AsI64(IrOf(sc, s.locals, e), DtypeOf(sc, s.locals, e)), x, u), N.Bound(m, e, env), N.Names(e) <= env.Keys)
  {
    hide WalkExpr, Readable, Stale, N.Meaning, Within, Linked, N.Names;
    Reads(m, sc, s, e, inside, env, x, u);
    hide Sem.Eval, Sem.ExprType, Sem.IsTest;
    AsI64Means(m, IrOf(sc, s.locals, e), DtypeOf(sc, s.locals, e), s.locals, sc.inT, x, u);
  }

  lemma AsI64Means(m: Fpu, p: Expr, d: Dtype, ls: Types, inT: Dtype, x: Val, u: Sem.Store)
    ensures Sem.Eval(m, AsI64(p, d), x, u) == if d == F64 then Sem.ToI64(m, Sem.Eval(m, p, x, u)) else Sem.Eval(m, p, x, u)
    ensures Sem.ExprType(AsI64(p, d), ls, inT).Some? ==> Sem.ExprType(p, ls, inT).Some?
  {
  }

  /** One round of a counted loop, if its body and the rest of the rounds agree. */
  lemma ForRound(m: Fpu, fuel: nat, sc: Scope, v: string, i: I64, hi: I64, body: seq<Py.Stmt>, irs: seq<Stmt>,
                 inside: set<string>, env: N.Env, x: Val, u: Sem.Store)
    requires fuel > 0 && i < hi && v in Stale(sc, inside) && v != sc.param && v in u && u[v] == IntV(i)
    requires var o, q := N.Exec(m, fuel, body, env[v := N.Int(i)]), Sem.Exec(m, fuel, irs, x, u);
             && Same(o, q, sc, x, Stale(sc, inside + {v}))
             && (o.Normal? || o.Continued? || o.Broke? ==> v in o.env && o.env[v] == N.Int(i))
             && (o.Normal? || o.Continued? ==>
                   Same(N.ExecFor(m, fuel - 1, v, i + 1, hi, body, o.env), Sem.ExecFor(m, fuel - 1, v, IntV(hi), irs, x, Sem.Bump(q.s, v)),
                        sc, x, Stale(sc, inside)))
    ensures Same(N.ExecFor(m, fuel, v, i, hi, body, env), Sem.ExecFor(m, fuel, v, IntV(hi), irs, x, u), sc, x, Stale(sc, inside))
  {
    hide Linked, Stale, N.Exec, Sem.Exec, Sem.Bump;
    var o, q := N.Exec(m, fuel, body, env[v := N.Int(i)]), Sem.Exec(m, fuel, irs, x, u);
    if o.Broke? {
      AfterRound(sc, inside, v, i, o.env, x, q.s);
    }
  }

  /** The counter, which is the local itself, keeps step with the range. */
  lemma {:induction false} ForAgrees(m: Fpu, fuel: nat, sc: Scope, s: State, v: string, i: I64, hi: I64, body: seq<Py.Stmt>,
                                     inside: set<string>, outT: Dtype, env: N.Env, x: Val, u: Sem.Store)
    requires BodyOk(sc, s, body, inside + {v}, outT, true) && v in Stale(sc, inside) && v != sc.param
    requires v in sc.types && sc.types[v] == I64 && Linked(sc, env, x, u, Stale(sc, inside))
    requires v in u && u[v] == IntV(i) && Disciplined(sc, inside + {v}, body)
    ensures WalkBody(FnOf(sc), s, body).Ok?
    ensures Same(N.ExecFor(m, fuel, v, i, hi, body, env),
                 Sem.ExecFor(m, fuel, v, IntV(hi), IrBody(FnOf(sc), s, body), x, u), sc, x, Stale(sc, inside))
    decreases fuel, body, 2
  {
    BodyWalks(sc, s, body, inside + {v}, outT);
    hide WalkBody, BodyOk, N.Exec, Sem.Exec, IrBody, Linked, Stale, Disciplined, Sem.Bump;
    if fuel != 0 && i < hi {
      hide N.ExecFor, Sem.ExecFor;
      var env1 := env[v := N.Int(i)];
      KeepsCounter(m, fuel, body, env1, sc, inside, v, i);
      BeforeRound(sc, inside, v, i, env, x, u);
      BodyAgrees(m, fuel, sc, s, body, inside + {v}, outT, true, env1, x, u);
      var o, q := N.Exec(m, fuel, body, env1), Sem.Exec(m, fuel, IrBody(FnOf(sc), s, body), x, u);
      if o.Normal? || o.Continued? {
        AfterRound(sc, inside, v, i, o.env, x, q.s);
        ForAgrees(m, fuel - 1, sc, s, v, i + 1, hi, body, inside, outT, o.env, x, Sem.Bump(q.s, v));
      }
      ForRound(m, fuel, sc, v, i, hi, body, IrBody(FnOf(sc), s, body), inside, env, x, u);
    }
  }

  lemma KeepsCounter(m: Fpu, fuel: nat, body: seq<Py.Stmt>, env: N.Env, sc: Scope, inside: set<string>, v: string, i: I64)
    requires Disciplined(sc, inside + {v}, body) && v in env && env[v] == N.Int(i)
    ensures var o := N.Exec(m, fuel, body, env);
            o.Normal? || o.Continued? || o.Broke? ==> v in o.env && o.env[v] == N.Int(i)
  {
    hide N.Exec, Disciplined;
    BodyKeeps(m, fuel, body, env, sc, inside + {v});
  }

  lemma BeforeRound(sc: Scope, inside: set<string>, v: string, i: I64, env: N.Env, x: Val, u: Sem.Store)
    requires Linked(sc, env, x, u, Stale(sc, inside)) && v in Stale(sc, inside) && v != sc.param
    requires v in sc.types && sc.types[v] == I64 && v in u && u[v] == IntV(i)
    ensures Linked(sc, env[v := N.Int(i)], x, u, Stale(sc, inside + {v}))
  {
  }

  lemma AfterRound(sc: Scope, inside: set<string>, v: string, i: I64, env: N.Env, x: Val, u: Sem.Store)
    requires Linked(sc, env, x, u, Stale(sc, inside + {v})) && v in Stale(sc, inside) && v != sc.param
    requires v in env && env[v] == N.Int(i) && i + 1 < TWO_63
    ensures v in u && u[v] == IntV(i) && Sem.Bump(u, v) == u[v := IntV(i + 1)]
    ensures Linked(sc, env, x, u, Stale(sc, inside)) && Linked(sc, env, x, u[v := IntV(i + 1)], Stale(sc, inside))
  {
    WrapInRange(i + 1);
    hide Wrap;
  }
}
