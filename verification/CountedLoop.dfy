/** A counted loop visits what Python's `range` visits: the bound is fixed before the loop, the counter
    goes up by one between rounds however a round ends, and never overflows. */
module CountedLoop {
  import opened Wrappers
  import opened Ir
  import opened Machine
  import opened Semantics

  /** Names a list may assign. */
  function Assigned(ss: seq<Stmt>): set<string>
    decreases ss, 0
  {
    if ss == [] then {} else StmtAssigned(ss[0]) + Assigned(ss[1..])
  }

  function StmtAssigned(s: Stmt): set<string>
    decreases s, 0
  {
    match s
    case Assign(name, _, _) => {name}
    case If(_, yes, no) => Assigned(yes) + Assigned(no)
    case While(_, body) => Assigned(body)
    case ForRange(v, _, _, body) => {v} + Assigned(body)
    case _ => {}
  }

  predicate KeepsVar(o: Outcome, s: Store, v: string) {
    match o
    case Normal(u) => Lookup(u, v) == Lookup(s, v)
    case Broke(u) => Lookup(u, v) == Lookup(s, v)
    case Continued(u) => Lookup(u, v) == Lookup(s, v)
    case Returned(_, u) => Lookup(u, v) == Lookup(s, v)
    case _ => true
  }

  function Lookup(s: Store, v: string): Option<Val> { if v in s then Some(s[v]) else None }

  lemma {:induction false} BodyKeepsVar(m: Fpu, fuel: nat, ss: seq<Stmt>, x: Val, s: Store, v: string)
    requires v !in Assigned(ss)
    ensures KeepsVar(Exec(m, fuel, ss, x, s), s, v)
    decreases fuel, ss, 0
  {
    hide ExecStmt, StmtAssigned;
    if ss != [] {
      StmtKeepsVar(m, fuel, ss[0], x, s, v);
      var o := ExecStmt(m, fuel, ss[0], x, s);
      if o.Normal? {
        BodyKeepsVar(m, fuel, ss[1..], x, o.s, v);
      }
    }
  }

  lemma {:induction false} StmtKeepsVar(m: Fpu, fuel: nat, stmt: Stmt, x: Val, s: Store, v: string)
    requires v !in StmtAssigned(stmt)
    ensures KeepsVar(ExecStmt(m, fuel, stmt, x, s), s, v)
    decreases fuel, stmt, 0
  {
    hide Eval, EvalTest, Exec, ExecFor, ExecWhile, Assigned;
    match stmt
    case If(_, yes, no) =>
      BodyKeepsVar(m, fuel, yes, x, s, v);
      BodyKeepsVar(m, fuel, no, x, s, v);
    case While(t, body) => WhileKeepsVar(m, fuel, t, body, x, s, v);
    case ForRange(c, lo, hi, body) =>
      if Eval(m, lo, x, s).Some? && Eval(m, hi, x, s).Some? {
        ForKeepsVar(m, fuel, c, Eval(m, hi, x, s).value, body, x, s[c := Eval(m, lo, x, s).value], v);
      }
    case _ =>
  }

  lemma {:induction false} WhileKeepsVar(m: Fpu, fuel: nat, t: Expr, body: seq<Stmt>, x: Val, s: Store, v: string)
    requires v !in Assigned(body)
    ensures KeepsVar(ExecWhile(m, fuel, t, body, x, s), s, v)
    decreases fuel, body, 1
  {
    hide EvalTest, Exec, Assigned;
    if fuel != 0 {
      BodyKeepsVar(m, fuel, body, x, s, v);
      var o := Exec(m, fuel, body, x, s);
      if o.Normal? || o.Continued? {
        WhileKeepsVar(m, fuel - 1, t, body, x, o.s, v);
      }
    }
  }

  lemma {:induction false} ForKeepsVar(m: Fpu, fuel: nat, c: string, to: Val, body: seq<Stmt>, x: Val, s: Store, v: string)
    requires v !in Assigned(body) && v != c
    ensures KeepsVar(ExecFor(m, fuel, c, to, body, x, s), s, v)
    decreases fuel, body, 1
  {
    hide Exec, Assigned, Wrap;
    if fuel != 0 {
      BodyKeepsVar(m, fuel, body, x, s, v);
      var o := Exec(m, fuel, body, x, s);
      if o.Normal? || o.Continued? {
        ForKeepsVar(m, fuel - 1, c, to, body, x, Bump(o.s, c), v);
      }
    }
  }

  /** How a counted loop came to its end. */
  datatype Ending = RanOut | Left | NotYet

  /** The counter's value at the start of every round, and how the loop ended. */
  function Rounds(m: Fpu, fuel: nat, v: string, to: Val, body: seq<Stmt>, x: Val, s: Store): (seq<int>, Ending)
    decreases fuel
  {
    if fuel == 0 then ([], NotYet)
    else if !(v in s && s[v].IntV? && to.IntV?) then ([], Left)
    else if s[v].n >= to.n then ([], RanOut)
    else
      match Exec(m, fuel, body, x, s)
      case Normal(u) =>
        var (c, e) := Rounds(m, fuel - 1, v, to, body, x, Bump(u, v)); ([s[v].n] + c, e)
      case Continued(u) =>
        var (c, e) := Rounds(m, fuel - 1, v, to, body, x, Bump(u, v)); ([s[v].n] + c, e)
      case Timeout => ([s[v].n], NotYet)
      case _ => ([s[v].n], Left)
  }

  /** The rounds start at consecutive integers from `from` on, all below the bound; a loop that is not left
      early has max(0, to - from) of them and leaves the bound, or an empty range's start, in the counter. */
  lemma {:induction false} RoundsAreRange(m: Fpu, fuel: nat, v: string, from: I64, to: I64, body: seq<Stmt>, x: Val, s: Store)
    requires v !in Assigned(body) && v in s && s[v] == IntV(from)
    ensures var (c, e) := Rounds(m, fuel, v, IntV(to), body, x, s);
            var o := ExecFor(m, fuel, v, IntV(to), body, x, s);
            && (forall j | 0 <= j < |c| :: c[j] == from + j < to)
            && (e == RanOut ==> |c| == (if from < to then to - from else 0) && o.Normal?
                                && Lookup(o.s, v) == Some(IntV(if from < to then to else from)))
            && (e == NotYet <==> o.Timeout?)
    decreases fuel
  {
    hide Exec, Assigned, Wrap;
    if fuel != 0 && from < to {
      BodyKeepsVar(m, fuel, body, x, s, v);
      var o := Exec(m, fuel, body, x, s);
      if o.Normal? || o.Continued? {
        WrapInRange(from + 1);
        RoundsAreRange(m, fuel - 1, v, from + 1, to, body, x, Bump(o.s, v));
      }
    }
  }
}
