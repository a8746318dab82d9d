/** A kernel is a map: if every local is assigned before it is read on every path, then what is
    computed for an element depends on that element alone, although locals live in registers that
    all elements share.  Textual order, which is all the walker checks, is not enough. */
module MapKernel {
  import opened Wrappers
  import opened Ir
  import opened Machine
  import opened Cfg
  import opened Lowering
  import opened Semantics
  import opened ScalarKernel
  import EC = ExprCorrect
  import LC = LoweringCorrect

  // ----- definite assignment -----

  /** After a statement: some read was not covered, or control never comes here, or these are assigned. */
  datatype Flow = Bad | Dead | Live(names: set<string>)

  function Reads(e: Expr): set<string> {
    match e
    case Local(name) => {name}
    case Unary(_, a) => Reads(a)
    case Binary(_, l, r) => Reads(l) + Reads(r)
    case Compare(_, l, r) => Reads(l) + Reads(r)
    case IfExpr(t, y, n) => Reads(t) + Reads(y) + Reads(n)
    case MathCall(_, a) => Reads(a)
    case CastToI64(a) => Reads(a)
    case CastToF64(a) => Reads(a)
    case _ => {}
  }

  function Join(f: Flow, g: Flow): Flow {
    match (f, g)
    case (Bad, _) => Bad
    case (_, Bad) => Bad
    case (Dead, h) => h
    case (h, Dead) => h
    case (Live(a), Live(b)) => Live(a * b)
  }

  function FlowBody(ss: seq<Stmt>, a: set<string>): Flow
    decreases ss, 0
  {
    if ss == [] then Live(a)
    else
      match FlowStmt(ss[0], a)
      case Live(b) => FlowBody(ss[1..], b)
      case other => other
  }

  function FlowStmt(s: Stmt, a: set<string>): Flow
    decreases s, 0
  {
    match s
    case Assign(name, _, e) => if Reads(e) <= a then Live(a + {name}) else Bad
    case Return(e) => if Reads(e) <= a then Dead else Bad
    case Break => Dead
    case Continue => Dead
    case If(t, yes, no) => if Reads(t) <= a then Join(FlowBody(yes, a), FlowBody(no, a)) else Bad
    case While(t, body) => if Reads(t) <= a && !FlowBody(body, a).Bad? then Live(a) else Bad
    case ForRange(v, lo, hi, body) =>
      if Reads(lo) + Reads(hi) <= a && !FlowBody(body, a + {v}).Bad? then Live(a + {v}) else Bad
  }

  predicate DefinitelyAssigned(k: Kernel) { !FlowBody(k.body, {}).Bad? }

  lemma {:induction false} FlowGrows(ss: seq<Stmt>, a: set<string>)
    ensures FlowBody(ss, a).Live? ==> a <= FlowBody(ss, a).names
    decreases ss, 0
  {
    if ss != [] {
      FlowStmtGrows(ss[0], a);
      if FlowStmt(ss[0], a).Live? {
        FlowGrows(ss[1..], FlowStmt(ss[0], a).names);
      }
    }
  }

  lemma {:induction false} FlowStmtGrows(s: Stmt, a: set<string>)
    ensures FlowStmt(s, a).Live? ==> a <= FlowStmt(s, a).names
    decreases s, 0
  {
    if s.If? {
      FlowGrows(s.thenBody, a);
      FlowGrows(s.elseBody, a);
    }
  }

  // ----- two runs from stores that agree on what is assigned -----

  predicate Agree(s: Store, u: Store, a: set<string>) {
    forall n <- a :: n in s && n in u && s[n] == u[n]
  }

  lemma {:induction false} EvalAgrees(m: Fpu, e: Expr, x: Val, s: Store, u: Store, a: set<string>)
    requires Reads(e) <= a && Agree(s, u, a)
    ensures Eval(m, e, x, s) == Eval(m, e, x, u)
  {
    hide Arith, Compared, Signed, Chosen, Called, ToI64, ToF64;
    match e
    case Unary(_, b) => EvalAgrees(m, b, x, s, u, a);
    case Binary(_, l, r) => EvalAgrees(m, l, x, s, u, a); EvalAgrees(m, r, x, s, u, a);
    case Compare(_, l, r) => EvalAgrees(m, l, x, s, u, a); EvalAgrees(m, r, x, s, u, a);
    case IfExpr(t, y, n) =>
      EvalAgrees(m, t, x, s, u, a);
      EvalAgrees(m, y, x, s, u, a);
      EvalAgrees(m, n, x, s, u, a);
    case MathCall(_, b) => EvalAgrees(m, b, x, s, u, a);
    case CastToI64(b) => EvalAgrees(m, b, x, s, u, a);
    case CastToF64(b) => EvalAgrees(m, b, x, s, u, a);
    case _ =>
  }

  lemma TestAgrees(m: Fpu, t: Expr, x: Val, s: Store, u: Store, a: set<string>)
    requires Reads(t) <= a && Agree(s, u, a)
    ensures EvalTest(m, t, x, s) == EvalTest(m, t, x, u)
  {
    EvalAgrees(m, t, x, s, u, a);
  }

  /** Same outcome, same result; stores that still agree, on more if control goes on. */
  predicate SameOutcome(o: Outcome, q: Outcome, a: set<string>, f: Flow) {
    match (o, q)
    case (Normal(s), Normal(u)) => f.Live? && Agree(s, u, f.names)
    case (Broke(s), Broke(u)) => Agree(s, u, a)
    case (Continued(s), Continued(u)) => Agree(s, u, a)
    case (Returned(v, s), Returned(w, u)) => v == w
    case (Trapped, Trapped) => true
    case (Timeout, Timeout) => true
    case _ => false
  }

  lemma {:induction false} BodyAgrees(m: Fpu, fuel: nat, ss: seq<Stmt>, x: Val, s: Store, u: Store, a: set<string>)
    requires Agree(s, u, a) && !FlowBody(ss, a).Bad?
    ensures SameOutcome(Exec(m, fuel, ss, x, s), Exec(m, fuel, ss, x, u), a, FlowBody(ss, a))
    decreases fuel, ss, 0
  {
    hide ExecStmt, FlowStmt;
    if ss != [] {
      StmtAgrees(m, fuel, ss[0], x, s, u, a);
      var o, q := ExecStmt(m, fuel, ss[0], x, s), ExecStmt(m, fuel, ss[0], x, u);
      if o.Normal? {
        FlowStmtGrows(ss[0], a);
        BodyAgrees(m, fuel, ss[1..], x, o.s, q.s, FlowStmt(ss[0], a).names);
      }
    }
  }

  lemma {:induction false} StmtAgrees(m: Fpu, fuel: nat, stmt: Stmt, x: Val, s: Store, u: Store, a: set<string>)
    requires Agree(s, u, a) && !FlowStmt(stmt, a).Bad?
    ensures SameOutcome(ExecStmt(m, fuel, stmt, x, s), ExecStmt(m, fuel, stmt, x, u), a, FlowStmt(stmt, a))
    decreases fuel, stmt, 1
  {
    hide Eval, EvalTest, Exec, ExecFor, ExecWhile, FlowBody;
    match stmt
    case Assign(_, _, e) => EvalAgrees(m, e, x, s, u, a);
    case Return(e) => EvalAgrees(m, e, x, s, u, a);
    case Break =>
    case Continue =>
    case If(t, yes, no) =>
      TestAgrees(m, t, x, s, u, a);
      if EvalTest(m, t, x, s).Some? {
        if EvalTest(m, t, x, s).value {
          BodyAgrees(m, fuel, yes, x, s, u, a);
        } else {
          BodyAgrees(m, fuel, no, x, s, u, a);
        }
      }
    case While(t, body) => WhileAgrees(m, fuel, t, body, x, s, u, a);
    case ForRange(_, _, _, _) => ForStmtAgrees(m, fuel, stmt, x, s, u, a);
  }

  lemma {:induction false} ForStmtAgrees(m: Fpu, fuel: nat, stmt: Stmt, x: Val, s: Store, u: Store, a: set<string>)
    requires stmt.ForRange? && Agree(s, u, a) && !FlowStmt(stmt, a).Bad?
    ensures SameOutcome(ExecStmt(m, fuel, stmt, x, s), ExecStmt(m, fuel, stmt, x, u), a, FlowStmt(stmt, a))
    decreases fuel, stmt, 0
  {
    hide Eval, ExecFor, FlowBody;
    EvalAgrees(m, stmt.start, x, s, u, a);
    EvalAgrees(m, stmt.end, x, s, u, a);
    if Eval(m, stmt.start, x, s).Some? && Eval(m, stmt.end, x, s).Some? {
      var v, from, to := stmt.loopVar, Eval(m, stmt.start, x, s).value, Eval(m, stmt.end, x, s).value;
      ForAgrees(m, fuel, v, to, stmt.body, x, s[v := from], u[v := from], a + {v});
    }
  }

  lemma {:induction false} WhileAgrees(m: Fpu, fuel: nat, t: Expr, body: seq<Stmt>, x: Val, s: Store, u: Store, a: set<string>)
    requires Agree(s, u, a) && Reads(t) <= a && !FlowBody(body, a).Bad?
    ensures SameOutcome(ExecWhile(m, fuel, t, body, x, s), ExecWhile(m, fuel, t, body, x, u), a, Live(a))
    decreases fuel, body, 1
  {
    hide EvalTest, Exec, FlowBody;
    if fuel != 0 {
      TestAgrees(m, t, x, s, u, a);
      BodyAgrees(m, fuel, body, x, s, u, a);
      FlowGrows(body, a);
      var o, q := Exec(m, fuel, body, x, s), Exec(m, fuel, body, x, u);
      if o.Normal? || o.Continued? {
        WhileAgrees(m, fuel - 1, t, body, x, o.s, q.s, a);
      }
    }
  }

  lemma {:induction false} ForAgrees(m: Fpu, fuel: nat, v: string, to: Val, body: seq<Stmt>, x: Val, s: Store, u: Store,
                                     a: set<string>)
    requires v in a && Agree(s, u, a) && !FlowBody(body, a).Bad?
    ensures SameOutcome(ExecFor(m, fuel, v, to, body, x, s), ExecFor(m, fuel, v, to, body, x, u), a, Live(a))
    decreases fuel, body, 1
  {
    hide Exec, FlowBody, Wrap;
    if fuel != 0 {
      BodyAgrees(m, fuel, body, x, s, u, a);
      FlowGrows(body, a);
      var o, q := Exec(m, fuel, body, x, s), Exec(m, fuel, body, x, u);
      if o.Normal? || o.Continued? {
        ForAgrees(m, fuel - 1, v, to, body, x, Bump(o.s, v), Bump(q.s, v), a);
      }
    }
  }

  // ----- more fuel changes nothing once a run has ended -----

  lemma {:induction false} MoreFuel(m: Fpu, fuel: nat, ss: seq<Stmt>, x: Val, s: Store)
    ensures !Exec(m, fuel, ss, x, s).Timeout? ==> Exec(m, fuel + 1, ss, x, s) == Exec(m, fuel, ss, x, s)
    decreases fuel, ss, 0
  {
    hide ExecStmt;
    if ss != [] {
      MoreFuelStmt(m, fuel, ss[0], x, s);
      var o := ExecStmt(m, fuel, ss[0], x, s);
      if o.Normal? {
        MoreFuel(m, fuel, ss[1..], x, o.s);
      }
    }
  }

  lemma {:induction false} MoreFuelStmt(m: Fpu, fuel: nat, stmt: Stmt, x: Val, s: Store)
    ensures !ExecStmt(m, fuel, stmt, x, s).Timeout? ==> ExecStmt(m, fuel + 1, stmt, x, s) == ExecStmt(m, fuel, stmt, x, s)
    decreases fuel, stmt, 0
  {
    hide Eval, EvalTest, Exec, ExecFor, ExecWhile;
    match stmt
    case If(t, yes, no) =>
      MoreFuel(m, fuel, yes, x, s);
      MoreFuel(m, fuel, no, x, s);
    case While(t, body) => MoreFuelWhile(m, fuel, t, body, x, s);
    case ForRange(v, lo, hi, body) =>
      if Eval(m, lo, x, s).Some? && Eval(m, hi, x, s).Some? {
        MoreFuelFor(m, fuel, v, Eval(m, hi, x, s).value, body, x, s[v := Eval(m, lo, x, s).value]);
      }
    case _ =>
  }

  lemma WhileOnce(m: Fpu, fuel: nat, t: Expr, body: seq<Stmt>, x: Val, s: Store)
    requires fuel > 0
    ensures ExecWhile(m, fuel, t, body, x, s) ==
            match EvalTest(m, t, x, s)
            case None => Trapped
            case Some(false) => Normal(s)
            case Some(true) =>
              match Exec(m, fuel, body, x, s)
              case Normal(u) => ExecWhile(m, fuel - 1, t, body, x, u)
              case Continued(u) => ExecWhile(m, fuel - 1, t, body, x, u)
              case Broke(u) => Normal(u)
              case other => other
  {
  }

  lemma {:induction false} MoreFuelWhile(m: Fpu, fuel: nat, t: Expr, body: seq<Stmt>, x: Val, s: Store)
    ensures !ExecWhile(m, fuel, t, body, x, s).Timeout? ==>
              ExecWhile(m, fuel + 1, t, body, x, s) == ExecWhile(m, fuel, t, body, x, s)
    decreases fuel, body, 1
  {
    if fuel != 0 {
      hide EvalTest, Exec, ExecWhile;
      WhileOnce(m, fuel, t, body, x, s);
      WhileOnce(m, fuel + 1, t, body, x, s);
      MoreFuel(m, fuel, body, x, s);
      var o := Exec(m, fuel, body, x, s);
      if o.Normal? || o.Continued? {
        MoreFuelWhile(m, fuel - 1, t, body, x, o.s);
      }
    }
  }

  lemma {:induction false} MoreFuelFor(m: Fpu, fuel: nat, v: string, to: Val, body: seq<Stmt>, x: Val, s: Store)
    ensures !ExecFor(m, fuel, v, to, body, x, s).Timeout? ==>
              ExecFor(m, fuel + 1, v, to, body, x, s) == ExecFor(m, fuel, v, to, body, x, s)
    decreases fuel, body, 1
  {
    hide Exec, Bump;
    if fuel != 0 {
      MoreFuel(m, fuel, body, x, s);
      var o := Exec(m, fuel, body, x, s);
      if o.Normal? || o.Continued? {
        MoreFuelFor(m, fuel - 1, v, to, body, x, Bump(o.s, v));
      }
    }
  }

  lemma {:induction false} MuchMoreFuel(m: Fpu, fuel: nat, more: nat, k: Kernel, x: Val, s: Store)
    requires fuel <= more
    ensures !Element(m, fuel, k, x, s).Timeout? ==> Element(m, more, k, x, s) == Element(m, fuel, k, x, s)
    decreases more
  {
    hide Exec;
    if fuel < more {
      MuchMoreFuel(m, fuel, more - 1, k, x, s);
      MoreFuel(m, more - 1, k.body, x, s);
    }
  }

  // ----- the kernel is a map -----

  /** What the kernel computes for one element on its own, with nothing in the registers. */
  ghost predicate Computes(m: Fpu, k: Kernel, x: Val, v: Val) {
    exists fuel :: LC.Returns(Element(m, fuel, k, x, map[]), v)
  }

  lemma ElementAlone(m: Fpu, fuel: nat, k: Kernel, x: Val, s: Store)
    requires DefinitelyAssigned(k)
    ensures var o, q := Element(m, fuel, k, x, s), Element(m, fuel, k, x, map[]);
            (o.Returned? <==> q.Returned?) && (o.Returned? ==> o.v == q.v) && (o.Timeout? <==> q.Timeout?)
  {
    hide Exec;
    BodyAgrees(m, fuel, k.body, x, s, map[], {});
  }

  /** `o` is what the kernel computes, element by element, from element `i` on. */
  predicate Maps(m: Fpu, fuel: nat, k: Kernel, inp: seq<Val>, i: nat, o: seq<Val>)
    requires i <= |inp|
    decreases |inp| - i
  {
    if i == |inp| then o == []
    else o != [] && LC.Returns(Element(m, fuel, k, inp[i], map[]), o[0]) && Maps(m, fuel, k, inp, i + 1, o[1..])
  }

  lemma {:induction false} MapsAll(m: Fpu, fuel: nat, k: Kernel, inp: seq<Val>, i: nat, o: seq<Val>)
    requires i <= |inp|
    ensures Maps(m, fuel, k, inp, i, o) <==>
            (|o| == |inp| - i && forall j | 0 <= j < |o| :: LC.Returns(Element(m, fuel, k, inp[i + j], map[]), o[j]))
    decreases |inp| - i
  {
    hide Element, LC.Returns;
    if i < |inp| && o != [] {
      MapsAll(m, fuel, k, inp, i + 1, o[1..]);
      if |o| == |inp| - i && forall j | 0 <= j < |o| :: LC.Returns(Element(m, fuel, k, inp[i + j], map[]), o[j]) {
        forall j | 0 <= j < |o[1..]| ensures LC.Returns(Element(m, fuel, k, inp[i + 1 + j], map[]), o[1..][j]) {
          assert LC.Returns(Element(m, fuel, k, inp[i + (1 + j)], map[]), o[1 + j]);
        }
      }
      if Maps(m, fuel, k, inp, i, o) {
        forall j | 0 <= j < |o| ensures LC.Returns(Element(m, fuel, k, inp[i + j], map[]), o[j]) {
          if j > 0 {
            assert LC.Returns(Element(m, fuel, k, inp[i + 1 + (j - 1)], map[]), o[1..][j - 1]);
          }
        }
      }
    }
  }

  lemma {:induction false} RunIsMap(m: Fpu, fuel: nat, k: Kernel, inp: seq<Val>, i: nat, s: Store, o: seq<Val>)
    requires DefinitelyAssigned(k) && i <= |inp|
    ensures RunKernel(m, fuel, k, inp, i, s) == Finished(o) <==> Maps(m, fuel, k, inp, i, o)
    decreases |inp| - i
  {
    hide Element;
    if i < |inp| {
      ElementAlone(m, fuel, k, inp[i], s);
      var e := Element(m, fuel, k, inp[i], s);
      if e.Returned? && o != [] {
        RunIsMap(m, fuel, k, inp, i + 1, e.s, o[1..]);
        assert o == [o[0]] + o[1..];
        match RunKernel(m, fuel, k, inp, i + 1, e.s)
        case Finished(rest) => assert ([e.v] + rest)[1..] == rest;
        case _ =>
      }
    }
  }

  /** One amount of fuel is enough for all elements. */
  lemma {:induction false} EnoughFuel(m: Fpu, k: Kernel, inp: seq<Val>, o: seq<Val>, n: nat) returns (fuel: nat)
    requires |o| == |inp| && n <= |inp| && forall i | 0 <= i < |inp| :: Computes(m, k, inp[i], o[i])
    ensures forall i | 0 <= i < n :: LC.Returns(Element(m, fuel, k, inp[i], map[]), o[i])
    decreases n
  {
    hide Element;
    if n == 0 {
      fuel := 0;
    } else {
      var f := EnoughFuel(m, k, inp, o, n - 1);
      var g :| LC.Returns(Element(m, g, k, inp[n - 1], map[]), o[n - 1]);
      fuel := if f < g then g else f;
      forall i | 0 <= i < n ensures LC.Returns(Element(m, fuel, k, inp[i], map[]), o[i]) {
        MuchMoreFuel(m, if i == n - 1 then g else f, fuel, k, inp[i], map[]);
      }
    }
  }

  lemma RunGivesMap(m: Fpu, fuel: nat, k: Kernel, inp: seq<Val>, s: Store, o: seq<Val>)
    requires DefinitelyAssigned(k) && Ends(RunKernel(m, fuel, k, inp, 0, s), Done(o))
    ensures |o| == |inp| && forall i | 0 <= i < |inp| :: Computes(m, k, inp[i], o[i])
  {
    hide RunKernel, Element, Maps;
    RunIsMap(m, fuel, k, inp, 0, s, o);
    MapsAll(m, fuel, k, inp, 0, o);
    forall i | 0 <= i < |inp| ensures Computes(m, k, inp[i], o[i]) {
      assert LC.Returns(Element(m, fuel, k, inp[0 + i], map[]), o[i]);
    }
  }

  lemma MapGivesRun(m: Fpu, k: Kernel, inp: seq<Val>, s: Store, o: seq<Val>) returns (fuel: nat)
    requires DefinitelyAssigned(k) && |o| == |inp| && forall i | 0 <= i < |inp| :: Computes(m, k, inp[i], o[i])
    ensures Ends(RunKernel(m, fuel, k, inp, 0, s), Done(o))
  {
    hide RunKernel, Element, Maps, Computes, DefinitelyAssigned;
    fuel := EnoughFuel(m, k, inp, o, |inp|);
    forall j | 0 <= j < |o| ensures LC.Returns(Element(m, fuel, k, inp[0 + j], map[]), o[j]) {
      assert LC.Returns(Element(m, fuel, k, inp[j], map[]), o[j]);
    }
    MapsAll(m, fuel, k, inp, 0, o);
    RunIsMap(m, fuel, k, inp, 0, s, o);
  }

  /** Running all elements in a row finishes with `o` exactly when each computes its own entry of `o`. */
  lemma RunsAreMaps(m: Fpu, k: Kernel, inp: seq<Val>, s: Store, o: seq<Val>)
    requires DefinitelyAssigned(k)
    ensures (exists fuel :: Ends(RunKernel(m, fuel, k, inp, 0, s), Done(o))) <==>
            (|o| == |inp| && forall i | 0 <= i < |inp| :: Computes(m, k, inp[i], o[i]))
  {
    hide *;
    if fuel :| Ends(RunKernel(m, fuel, k, inp, 0, s), Done(o)) {
      RunGivesMap(m, fuel, k, inp, s, o);
    }
    if |o| == |inp| && forall i | 0 <= i < |inp| :: Computes(m, k, inp[i], o[i]) {
      var fuel := MapGivesRun(m, k, inp, s, o);
    }
  }

  /** The compiled kernel, whatever its registers held, returns output `o` exactly when `o` is the
      kernel mapped over the input, element by element. */
  lemma CompiledIsMap(k: Kernel, p: Program, s: Store, vars: map<nat, Val>, out: seq<Val>, o: seq<Val>)
    requires Loaded(k, p) && DefinitelyAssigned(k) && |out| == |p.inp| && EC.Holds(KernelLocals(k), s, vars)
    ensures EndsIn(p, vars, out, Done(o)) <==>
            (|o| == |p.inp| && forall i | 0 <= i < |p.inp| :: Computes(p.fpu, k, p.inp[i], o[i]))
  {
    hide Steps, CompileScalar, RunKernel, EC.Holds, KernelLocals, KernelTyped, Call, Computes;
    CompiledAgrees(k, p, s, vars, out, Done(o));
    RunsAreMaps(p.fpu, k, p.inp, s, o);
  }
}
